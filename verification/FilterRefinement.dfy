/**
 Whole filter programs: a prologue that loads the request, blocks that implement clauses, and a block
 for the default. Such a program decides every request as its clauses say.
 */
module FilterRefinement {
  import opened Wrappers
  import opened Bpf
  import opened DeviceFilter
  import opened FilterSemantics

  // The prologue.

  predicate IsStraight(pro: Program) {
    forall i :: 0 <= i < |pro| ==> IsAlu(pro[i].op) || IsLoad(pro[i].op)
  }

  /** Runs straight-line code from its instruction `i`; None when a load faults. */
  function RunStraight(pro: Program, i: nat, req: Request, base: nat, regs: Regs): Option<Regs>
    requires IsStraight(pro) && i <= |pro|
    decreases |pro| - i
  {
    if i == |pro| then Some(regs)
    else if IsAlu(pro[i].op) then RunStraight(pro, i + 1, req, base, regs[pro[i].dst := AluValue(pro[i], regs)])
    else
      match LoadValue(pro[i], req, base, regs)
      case None => None
      case Some(v) => RunStraight(pro, i + 1, req, base, regs[pro[i].dst := v])
  }

  predicate PrologueLoads(pro: Program, req: Request, base: nat, regs: Regs)
    requires IsStraight(pro)
  {
    var end := RunStraight(pro, 0, req, base, regs[R1 := base]);
    end.Some? && Loaded(end.value, req)
  }

  /** Straight-line code after which, whatever the registers held before, the request is loaded. */
  ghost predicate ValidPrologue(pro: Program) {
    IsStraight(pro) && forall req, base: nat, regs: Regs :: PrologueLoads(pro, req, base, regs)
  }

  /** The prologue that the OCI runtime puts first, as listed in the comments of AppendRule. */
  const RUNTIME_PROLOGUE: Program :=
    [Instruction(LdxHalf, R2, R1, 0, 0),
     Instruction(LdxWord, R3, R1, 0, 0),
     Instruction(RSh32Imm, R3, R0, 0, 16),
     Instruction(LdxWord, R4, R1, 4, 0),
     Instruction(LdxWord, R5, R1, 8, 0)]

  lemma RuntimePrologueIsValid()
    ensures ValidPrologue(RUNTIME_PROLOGUE)
  {
    forall req, base: nat, regs: Regs
      ensures PrologueLoads(RUNTIME_PROLOGUE, req, base, regs)
    {
      var word := AccessBits(req.access) * 0x1_0000 + req.devType;
      var r := regs[R1 := base];
      RunLoad(RUNTIME_PROLOGUE, 0, req, base, r, req.devType);
      r := r[R2 := req.devType];
      RunLoad(RUNTIME_PROLOGUE, 1, req, base, r, word);
      r := r[R3 := word];
      RunShift(RUNTIME_PROLOGUE, 2, req, base, r, AccessBits(req.access));
      r := r[R3 := AccessBits(req.access)];
      RunLoad(RUNTIME_PROLOGUE, 3, req, base, r, req.major);
      r := r[R4 := req.major];
      RunLoad(RUNTIME_PROLOGUE, 4, req, base, r, req.minor);
    }
  }

  lemma RunLoad(pro: Program, i: nat, req: Request, base: nat, regs: Regs, v: nat)
    requires IsStraight(pro) && i < |pro| && IsLoad(pro[i].op) && LoadValue(pro[i], req, base, regs) == Some(v)
    ensures RunStraight(pro, i, req, base, regs) == RunStraight(pro, i + 1, req, base, regs[pro[i].dst := v])
  {
  }

  lemma RunShift(pro: Program, i: nat, req: Request, base: nat, regs: Regs, v: nat)
    requires IsStraight(pro) && i < |pro| && pro[i].op.RSh32Imm? && pro[i].constant == 16
    requires regs[pro[i].dst] <= MAX_UINT32 && v == regs[pro[i].dst] / 0x1_0000
    ensures RunStraight(pro, i, req, base, regs) == RunStraight(pro, i + 1, req, base, regs[pro[i].dst := v])
  {
    var x := ToU32(regs[pro[i].dst]);
    assert x == regs[pro[i].dst];
    ShiftBySixteen(x);
    assert AluValue(pro[i], regs) == ShiftRight(x, 16);
  }

  lemma {:induction false} RunStraightKeeps(pro: Program, i: nat, req: Request, base: nat, regs: Regs, reg: Reg)
    requires IsStraight(pro) && i <= |pro|
    requires forall k :: i <= k < |pro| ==> pro[k].dst != reg
    ensures var end := RunStraight(pro, i, req, base, regs); end.Some? ==> end.value[reg] == regs[reg]
    decreases |pro| - i
  {
    if i < |pro| {
      if IsAlu(pro[i].op) {
        RunStraightKeeps(pro, i + 1, req, base, regs[pro[i].dst := AluValue(pro[i], regs)], reg);
      } else {
        var v := LoadValue(pro[i], req, base, regs);
        if v.Some? {
          RunStraightKeeps(pro, i + 1, req, base, regs[pro[i].dst := v.value], reg);
        }
      }
    }
  }

  /** Each of R2 to R5 has to be written, so no prologue is shorter than four instructions. */
  lemma PrologueHasFour(pro: Program)
    requires ValidPrologue(pro)
    ensures |pro| >= 4
  {
    var k2 := PrologueWrites(pro, R2);
    var k3 := PrologueWrites(pro, R3);
    var k4 := PrologueWrites(pro, R4);
    var k5 := PrologueWrites(pro, R5);
  }

  const ONES: Regs := [1, 1, 1, 1, 1, 1, 1, 1, 1, 1, 1]

  lemma UnwrittenIsNotLoaded(pro: Program, reg: Reg)
    requires IsStraight(pro) && R2 <= reg <= R5 && forall k :: 0 <= k < |pro| ==> pro[k].dst != reg
    ensures !PrologueLoads(pro, Request(0, {}, 0, 0), 0, ONES)
  {
    hide RunStraight;
    RunStraightKeeps(pro, 0, Request(0, {}, 0, 0), 0, ONES[R1 := 0], reg);
  }

  lemma PrologueWrites(pro: Program, reg: Reg) returns (k: nat)
    requires ValidPrologue(pro) && R2 <= reg <= R5
    ensures k < |pro| && pro[k].dst == reg
  {
    if forall i :: 0 <= i < |pro| ==> pro[i].dst != reg {
      UnwrittenIsNotLoaded(pro, reg);
      assert false;
    } else {
      k :| k < |pro| && pro[k].dst == reg;
    }
  }

  lemma {:induction false} PrologueSimulates(p: Program, pro: Program, i: nat, req: Request, base: nat, regs: Regs)
    requires IsStraight(pro) && i <= |pro| && pro <= p
    requires RunStraight(pro, i, req, base, regs).Some?
    ensures Steps(p, req, base, Running(i, regs), |pro| - i)
         == Running(|pro|, RunStraight(pro, i, req, base, regs).value)
    decreases |pro| - i
  {
    if i < |pro| {
      var next := Step(p, req, base, Running(i, regs));
      PrologueSimulates(p, pro, i + 1, req, base, next.regs);
    }
  }

  // Programs and their clauses.

  /** Prologue, blocks, and a last block that returns the default. */
  function Code(pro: Program, bs: seq<Program>, otherwise: bool): Program {
    pro + Flatten(bs) + AcceptBlock(otherwise)
  }

  ghost predicate AllImplement(bs: seq<Program>, cs: seq<Clause>) {
    |bs| == |cs| && forall i :: 0 <= i < |bs| ==> Implements(bs[i], cs[i])
  }

  /** `p` is a program with at least one rule block, whose blocks implement the clauses. */
  ghost predicate Encodes(p: Program, pro: Program, bs: seq<Program>, cs: seq<Clause>, otherwise: bool) {
    && ValidPrologue(pro)
    && bs != []
    && AllImplement(bs, cs)
    && p == Code(pro, bs, otherwise)
  }

  function Start(base: nat, regs: Regs): State {
    Running(0, regs[R1 := base])
  }

  /** From every register content, the program returns this decision within |p| steps. */
  ghost predicate Decides(p: Program, req: Request, allow: bool) {
    forall base: nat, regs: Regs ::
      Steps(p, req, base, Start(base, regs), |p|) == Returned(Verdict(allow))
  }

  /** A constant return at `k`. */
  lemma ReturnRuns(p: Program, k: nat, allow: bool, regs: Regs, req: Request, base: nat)
    requires k + 2 <= |p| && p[k] == AcceptBlock(allow)[0] && p[k + 1] == AcceptBlock(allow)[1]
    ensures Steps(p, req, base, Running(k, regs), 2) == Returned(Verdict(allow))
  {
    var next := Running(k + 1, regs[R0 := Verdict(allow)]);
    assert Step(p, req, base, Running(k, regs)) == next;
    assert Steps(p, req, base, Running(k, regs), 2) == Steps(p, req, base, next, 1);
    assert Steps(p, req, base, next, 1) == Steps(p, req, base, Step(p, req, base, next), 0);
  }

  lemma TailDecides(p: Program, k: nat, otherwise: bool, regs: Regs, req: Request, base: nat)
    requires k <= |p| && p[k..] == AcceptBlock(otherwise)
    ensures Steps(p, req, base, Running(k, regs), 2) == Returned(Verdict(otherwise))
  {
    assert p[k] == p[k..][0] && p[k + 1] == p[k..][1];
    ReturnRuns(p, k, otherwise, regs, req, base);
  }

  lemma NoBlocks()
    ensures Flatten([]) == []
  {
  }

  lemma FirstBlockAt(p: Program, k: nat, bs: seq<Program>, end: Program)
    requires k <= |p| && p[k..] == Flatten(bs) + end && bs != []
    ensures At(p, k, bs[0])
    ensures k + |bs[0]| <= |p| && p[k + |bs[0]|..] == Flatten(bs[1..]) + end
  {
    Associates(bs[0], Flatten(bs[1..]), end);
    SliceStart(p, k, bs[0], Flatten(bs[1..]) + end);
  }

  lemma SliceStart(p: Program, k: nat, b: Program, rest: Program)
    requires k <= |p| && p[k..] == b + rest
    ensures At(p, k, b)
    ensures k + |b| <= |p| && p[k + |b|..] == rest
  {
    assert |p[k..]| == |b| + |rest|;
    assert p[k..k + |b|] == p[k..][..|b|];
    assert p[k + |b|..] == p[k..][|b|..];
  }

  lemma {:induction false} BlocksDecide(p: Program, k: nat, bs: seq<Program>, cs: seq<Clause>, otherwise: bool,
                                        regs: Regs, req: Request, base: nat) returns (n: nat)
    requires k <= |p| && p[k..] == Flatten(bs) + AcceptBlock(otherwise)
    requires AllImplement(bs, cs) && Loaded(regs, req)
    ensures n <= |p| - k
    ensures Steps(p, req, base, Running(k, regs), n) == Returned(Verdict(FirstMatch(cs, otherwise, req)))
    decreases |bs|
  {
    hide Step, Steps, Implements, Flatten, At;
    if bs == [] {
      NoBlocks();
      n := 2;
      TailDecides(p, k, otherwise, regs, req, base);
    } else {
      var b := bs[0];
      FirstImplements(bs, cs);
      FirstBlockAt(p, k, bs, AcceptBlock(otherwise));
      var rest: Regs;
      n, rest := OneBlock(p, k, b, cs[0], regs, req, base);
      if !Matches(cs[0], req) {
        var m := BlocksDecide(p, k + |b|, bs[1..], cs[1..], otherwise, rest, req, base);
        var decided := Returned(Verdict(FirstMatch(cs[1..], otherwise, req)));
        Chain(p, req, base, Running(k, regs), n, Running(k + |b|, rest), m, decided);
        n := n + m;
      }
    }
  }

  lemma FirstImplements(bs: seq<Program>, cs: seq<Clause>)
    requires AllImplement(bs, cs) && bs != []
    ensures Implements(bs[0], cs[0]) && AllImplement(bs[1..], cs[1..])
  {
  }

  lemma OneBlock(p: Program, k: nat, b: Program, c: Clause, regs: Regs, req: Request, base: nat)
    returns (n: nat, rest: Regs)
    requires At(p, k, b) && Implements(b, c) && Loaded(regs, req)
    ensures n <= |b| && Loaded(rest, req)
    ensures Steps(p, req, base, Running(k, regs), n)
         == if Matches(c, req) then Returned(Verdict(c.allow)) else Running(k + |b|, rest)
  {
    n := EvalSimulates(p, k, b, 0, regs, req, base);
    rest := regs;
    if !Matches(c, req) {
      EvalKeepsLoaded(b, 0, regs, req);
      rest := Eval(b, 0, regs).regs;
    }
  }

  /** The flat bytecode decides every request as the clause list does, and always stops at an Exit. */
  lemma ProgramRefinesClauses(
    p: Program, pro: Program, bs: seq<Program>, cs: seq<Clause>, otherwise: bool, req: Request)
    requires Encodes(p, pro, bs, cs, otherwise)
    ensures Decides(p, req, FirstMatch(cs, otherwise, req))
  {
    forall base: nat, regs: Regs
      ensures Steps(p, req, base, Start(base, regs), |p|) == Returned(Verdict(FirstMatch(cs, otherwise, req)))
    {
      RunDecides(p, pro, bs, cs, otherwise, req, base, regs);
    }
  }

  lemma RunDecides(
    p: Program, pro: Program, bs: seq<Program>, cs: seq<Clause>, otherwise: bool, req: Request, base: nat,
    regs: Regs)
    requires Encodes(p, pro, bs, cs, otherwise)
    ensures Steps(p, req, base, Start(base, regs), |p|) == Returned(Verdict(FirstMatch(cs, otherwise, req)))
  {
    hide Step, Steps, Implements;
    assert PrologueLoads(pro, req, base, regs);
    var st := Start(base, regs);
    PrologueSimulates(p, pro, 0, req, base, st.regs);
    var loaded := RunStraight(pro, 0, req, base, st.regs).value;
    assert p[|pro|..] == Flatten(bs) + AcceptBlock(otherwise);
    var n := BlocksDecide(p, |pro|, bs, cs, otherwise, loaded, req, base);
    Chain(p, req, base, st, |pro|, Running(|pro|, loaded), n, Returned(Verdict(FirstMatch(cs, otherwise, req))));
    HaltedStays(p, req, base, st, |pro| + n, |p|);
  }

  // Where jumps land.

  /** The jump at `k` goes forward to the instruction after the next Exit: a block's or the tail's first. */
  predicate LandsOnNextGroup(p: Program, k: nat)
    requires k < |p|
  {
    var target := k + 1 + p[k].offset;
    && k < target < |p|
    && p[target - 1].op.Exit?
    && forall j :: k <= j < target - 1 ==> !p[j].op.Exit?
  }

  /** The instruction at `k`, behind the prologue, keeps R2 to R5 and leads to another one, or ends the run. */
  predicate SafeAt(p: Program, k: nat)
    requires k < |p|
  {
    if IsJump(p[k].op) then LandsOnNextGroup(p, k)
    else p[k].op.Exit? || (WritesScratch(p[k]) && k + 1 < |p|)
  }

  lemma BlocksAreGood(bs: seq<Program>, cs: seq<Clause>)
    requires AllImplement(bs, cs)
    ensures forall b :: b in bs ==> GoodBlock(b)
  {
    forall b | b in bs
      ensures GoodBlock(b)
    {
      var i :| 0 <= i < |bs| && bs[i] == b;
      assert Implements(bs[i], cs[i]);
    }
  }

  lemma TailIsSafe(p: Program, k: nat, otherwise: bool)
    requires k <= |p| && p[k..] == AcceptBlock(otherwise)
    ensures forall j :: k <= j < |p| ==> SafeAt(p, j)
  {
    assert p[k] == p[k..][0] && p[k + 1] == p[k..][1];
  }

  lemma {:induction false} BlocksAreSafe(p: Program, k: nat, bs: seq<Program>, otherwise: bool)
    requires k <= |p| && p[k..] == Flatten(bs) + AcceptBlock(otherwise)
    requires forall b :: b in bs ==> GoodBlock(b)
    ensures forall j :: k <= j < |p| ==> SafeAt(p, j)
    decreases |bs|
  {
    hide SafeAt;
    if bs == [] {
      TailIsSafe(p, k, otherwise);
    } else {
      var b := bs[0];
      assert b in bs;
      FirstBlockAt(p, k, bs, AcceptBlock(otherwise));
      BlocksAreSafe(p, k + |b|, bs[1..], otherwise);
      BlockIsSafe(p, k, b);
    }
  }

  lemma BlockIsSafe(p: Program, k: nat, b: Program)
    requires At(p, k, b) && GoodBlock(b) && k + |b| < |p|
    ensures forall j :: k <= j < k + |b| ==> SafeAt(p, j)
  {
    assert forall i | 0 <= i < |b| :: p[k..k + |b|][i] == b[i];
    forall j | k <= j < k + |b|
      ensures p[j] == b[j - k]
    {
      assert p[j] == p[k..k + |b|][j - k];
    }
  }

  /** Every jump of the program, kept or added, lands on the first instruction of the next group or of the tail. */
  lemma JumpsAreSafe(p: Program, pro: Program, bs: seq<Program>, cs: seq<Clause>, otherwise: bool, k: nat)
    requires Encodes(p, pro, bs, cs, otherwise) && k < |p| && IsJump(p[k].op)
    ensures LandsOnNextGroup(p, k)
  {
    assert p[|pro|..] == Flatten(bs) + AcceptBlock(otherwise);
    BlocksAreGood(bs, cs);
    BlocksAreSafe(p, |pro|, bs, otherwise);
    assert forall i | 0 <= i < |pro| :: p[i] == pro[i];
    assert SafeAt(p, k);
  }

  /**
   In every state a run reaches, the program counter is inside the program, and behind the prologue
   R2 to R5 hold the request's type, access, major and minor.
   */
  lemma {:induction false} ReachableStates(p: Program, pro: Program, bs: seq<Program>, cs: seq<Clause>, otherwise: bool,
                                           req: Request, base: nat, regs: Regs, n: nat)
    requires Encodes(p, pro, bs, cs, otherwise)
    ensures OnTrack(p, pro, req, base, Steps(p, req, base, Start(base, regs), n))
  {
    hide Implements, Step;
    var start := Start(base, regs);
    if n == 0 {
      assert PrologueLoads(pro, req, base, regs);
    } else {
      ReachableStates(p, pro, bs, cs, otherwise, req, base, regs, n - 1);
      StepsCompose(p, req, base, start, n - 1, 1);
      var st := Steps(p, req, base, start, n - 1);
      if st.Running? {
        assert Steps(p, req, base, st, 1) == Step(p, req, base, st);
        StepStaysSafe(p, pro, bs, cs, otherwise, req, base, st);
      }
    }
  }

  /** The invariant of a run: inside the program, and about to load the request or keeping it loaded. */
  predicate OnTrack(p: Program, pro: Program, req: Request, base: nat, st: State)
    requires IsStraight(pro)
  {
    && !st.Fault?
    && (st.Running? ==> 0 <= st.pc < |p| && (st.pc >= |pro| ==> Loaded(st.regs, req)))
    && (st.Running? && st.pc < |pro| ==>
          var end := RunStraight(pro, st.pc, req, base, st.regs); end.Some? && Loaded(end.value, req))
  }

  lemma StepStaysSafe(p: Program, pro: Program, bs: seq<Program>, cs: seq<Clause>, otherwise: bool, req: Request,
                      base: nat, st: State)
    requires Encodes(p, pro, bs, cs, otherwise) && st.Running? && OnTrack(p, pro, req, base, st)
    ensures OnTrack(p, pro, req, base, Step(p, req, base, st))
  {
    hide Implements, AluValue, LoadValue, JumpTaken, PrologueLoads, SafeAt;
    assert p[|pro|..] == Flatten(bs) + AcceptBlock(otherwise);
    if st.pc >= |pro| {
      BlocksAreGood(bs, cs);
      BlocksAreSafe(p, |pro|, bs, otherwise);
      assert SafeAt(p, st.pc);
      SafeStep(p, req, base, st);
    } else {
      assert p[st.pc] == pro[st.pc] && |pro| < |p|;
      PrologueStep(p, pro, req, base, st);
    }
  }

  lemma PrologueStep(p: Program, pro: Program, req: Request, base: nat, st: State)
    requires IsStraight(pro) && st.Running? && 0 <= st.pc < |pro| < |p| && p[st.pc] == pro[st.pc]
    requires var end := RunStraight(pro, st.pc, req, base, st.regs); end.Some? && Loaded(end.value, req)
    ensures OnTrack(p, pro, req, base, Step(p, req, base, st))
  {
    hide AluValue, LoadValue, JumpTaken;
    var next := Step(p, req, base, st);
    assert RunStraight(pro, st.pc, req, base, st.regs) == RunStraight(pro, st.pc + 1, req, base, next.regs);
  }

  lemma SafeStep(p: Program, req: Request, base: nat, st: State)
    requires st.Running? && 0 <= st.pc < |p| && SafeAt(p, st.pc) && Loaded(st.regs, req)
    ensures var next := Step(p, req, base, st);
            !next.Fault? && (next.Running? ==> st.pc < next.pc < |p| && Loaded(next.regs, req))
  {
    hide AluValue, JumpTaken;
  }

  // The programs that the OCI runtime writes.

  function RuntimeBlocks(rules: seq<Rule>): (r: seq<Program>)
    requires forall i :: 0 <= i < |rules| ==> Accepted(rules[i])
    ensures |r| == |rules|
  {
    seq(|rules|, i requires 0 <= i < |rules| => BlockUsing(rules[i], R1))
  }

  function RuntimeClauses(rules: seq<Rule>): (r: seq<Clause>)
    requires forall i :: 0 <= i < |rules| ==> Accepted(rules[i])
    ensures |r| == |rules|
  {
    seq(|rules|, i requires 0 <= i < |rules| => Effect(rules[i]))
  }

  /** A filter with the runtime's prologue and blocks encodes its rules, so the results here apply to it. */
  lemma RuntimeFilterEncodes(rules: seq<Rule>, otherwise: bool)
    requires rules != [] && forall i :: 0 <= i < |rules| ==> Accepted(rules[i])
    ensures Encodes(Code(RUNTIME_PROLOGUE, RuntimeBlocks(rules), otherwise),
                    RUNTIME_PROLOGUE, RuntimeBlocks(rules), RuntimeClauses(rules), otherwise)
  {
    hide Implements, ValidPrologue;
    RuntimePrologueIsValid();
    forall i | 0 <= i < |rules|
      ensures Implements(RuntimeBlocks(rules)[i], RuntimeClauses(rules)[i])
    {
      BlockImplements(rules[i], R1);
    }
  }
}
