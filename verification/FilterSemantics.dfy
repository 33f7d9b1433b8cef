/**
 What a filter program means: a list of clauses of which the first that matches decides, and a default
 when none does. Single blocks of bytecode are related to single clauses here.
 */
module FilterSemantics {
  import opened Wrappers
  import opened Bpf
  import opened DeviceFilter

  // The specification language.

  datatype Range = Any | Only(number: nat) {
    predicate Holds(n: nat) {
      Any? || n == number
    }
  }

  datatype Clause = Clause(devType: U16, access: set<Access>, major: Range, minor: Range, allow: bool)

  predicate Matches(c: Clause, req: Request) {
    && req.devType == c.devType
    && req.access <= c.access
    && c.major.Holds(req.major)
    && c.minor.Holds(req.minor)
  }

  /** The decision of the first clause that matches, `otherwise` when none does. */
  function FirstMatch(cs: seq<Clause>, otherwise: bool, req: Request): bool {
    if cs == [] then otherwise
    else if Matches(cs[0], req) then cs[0].allow
    else FirstMatch(cs[1..], otherwise, req)
  }

  /** What the author of a rule asks for. */
  function ClauseOf(rule: Rule): Clause
    requires Accepted(rule)
  {
    Clause(BpfType(rule.kind).value, Permitted(rule.permissions).value,
           if rule.major < 0 then Any else Only(rule.major),
           if rule.minor < 0 then Any else Only(rule.minor),
           rule.allow)
  }

  /** The number a 64-bit comparison sees after a constant went through int32. */
  function Compared(n: int): Range {
    if n < 0 then Any else Only(ToU64(Int32(n)))
  }

  /** What the block built for the rule does. */
  function Effect(rule: Rule): Clause
    requires Accepted(rule)
  {
    ClauseOf(rule).(major := Compared(rule.major), minor := Compared(rule.minor))
  }

  /** The numbers of the rule survive the conversion to int32. */
  predicate Fits(rule: Rule) {
    rule.major <= MAX_INT32 && rule.minor <= MAX_INT32
  }

  predicate Concrete(rule: Rule) {
    rule.major >= 0 && rule.minor >= 0
  }

  /** The request is about the device that the concrete rule names. */
  predicate SameDevice(rule: Rule, req: Request) {
    BpfType(rule.kind) == Some(req.devType) && req.major == rule.major && req.minor == rule.minor
  }

  /**
   A rule does what it says for every request exactly when both its numbers fit in an int32:
   a larger number becomes a negative immediate, which no 32-bit device number equals.
   */
  lemma EffectIsMeaningIffFits(rule: Rule)
    requires Accepted(rule)
    ensures (forall req :: Matches(Effect(rule), req) == Matches(ClauseOf(rule), req)) <==> Fits(rule)
  {
    assert rule.major > MAX_INT32 ==> Compared(rule.major).number > MAX_UINT32;
    assert rule.minor > MAX_INT32 ==> Compared(rule.minor).number > MAX_UINT32;
    var probe := Request(BpfType(rule.kind).value, {}, if rule.major < 0 then 0 else rule.major,
                            if rule.minor < 0 then 0 else rule.minor);
    assert Matches(ClauseOf(rule), probe);
    assert !Fits(rule) ==> !Matches(Effect(rule), probe);
  }

  // Rules as their author reads them: device types by letter and number, accesses by letter.

  /** The rule speaks of the request: 'c' is type 2 and 'b' type 1, and every access has its letter. */
  predicate Speaks(rule: Rule, req: Request) {
    && ((rule.kind == 'c' && req.devType == 2) || (rule.kind == 'b' && req.devType == 1))
    && (rule.major < 0 || req.major == rule.major)
    && (rule.minor < 0 || req.minor == rule.minor)
    && forall a :: a in req.access ==> HasLetter(rule.permissions, a)
  }

  /** The rule speaks of the request, and its numbers survive the conversion to int32. */
  predicate AsWritten(rule: Rule, req: Request) {
    rule.major <= 2147483647 && rule.minor <= 2147483647 && Speaks(rule, req)
  }

  /** The rules that are not refused. */
  lemma AcceptedIff(rule: Rule)
    ensures Accepted(rule) <==>
              && (rule.kind == 'c' || rule.kind == 'b')
              && rule.major <= 4294967295 && rule.minor <= 4294967295
              && forall c :: c in rule.permissions ==> c == 'r' || c == 'w' || c == 'm'
  {
    LettersAre(rule.permissions);
  }

  /** The block of an accepted rule decides exactly the requests it speaks of, if its numbers fit, else none. */
  lemma EffectIsAsWritten(rule: Rule, req: Request)
    requires Accepted(rule)
    ensures Matches(Effect(rule), req) <==> AsWritten(rule, req)
  {
    LettersAre(rule.permissions);
    hide Permitted;
    assert rule.major > MAX_INT32 ==> Compared(rule.major).number > MAX_UINT32;
    assert rule.minor > MAX_INT32 ==> Compared(rule.minor).number > MAX_UINT32;
  }

  /** The block that the comments of AppendRule list for c 195:0 rw, with its offsets and mask. */
  lemma DocumentedBlock()
    ensures Block(Rule('c', 195, 0, "rw", true))
         == [Instruction(JneImm, 2, 0, 7, 2), Instruction(Mov32Reg, 6, 3, 0, 0), Instruction(And32Imm, 6, 0, 0, 6),
             Instruction(JneReg, 6, 3, 4, 0), Instruction(JneImm, 4, 0, 3, 195), Instruction(JneImm, 5, 0, 2, 0),
             Instruction(Mov32Imm, 0, 0, 0, 1), Instruction(Exit, 0, 0, 0, 0)]
  {
    var rule := Rule('c', 195, 0, "rw", true);
    assert "rw"[..1] == "r" && "r"[..0] == "";
    assert Permitted("") == Some({});
    assert Permitted("r") == Some({} + {Read});
    assert Permitted(rule.permissions) == Some({} + {Read} + {Write});
    assert {} + {Read} + {Write} == {Read, Write};
    assert {Read, Write} != ALL_ACCESS by {
      assert Mknod !in {Read, Write};
    }
    var raw := RawBlock(rule, R6);
    assert raw == [JneImm32(R2, 2)] + AccessTest({Read, Write}, R6) + [JneImm32(R4, 195)] + [JneImm32(R5, 0)]
                  + AcceptBlock(true);
    assert |raw| == 8;
    assert forall i | 0 <= i < 8 :: Block(rule)[i] == Aimed(raw, i);
  }

  /** The kernel's bits of single accesses. */
  lemma AccessBitsAre()
    ensures AccessBits({Mknod}) == 1 && AccessBits({Read}) == 2 && AccessBits({Write}) == 4
  {
  }

  // One block on its own.

  predicate WritesScratch(ins: Instruction) {
    IsAlu(ins.op) && !(R2 <= ins.dst <= R5)
  }

  /** Straight-line code that tests, then returns a constant; every jump leaves to the instruction after it. */
  predicate GoodBlock(b: Program) {
    && |b| >= 3
    && b[|b| - 1].op.Exit?
    && b[|b| - 2].op.Mov32Imm? && b[|b| - 2].dst == R0
    && forall i :: 0 <= i < |b| - 1 ==>
         WritesScratch(b[i]) || (IsJump(b[i].op) && b[i].offset == |b| - 1 - i)
  }

  datatype BlockEnd = Fires(r0: nat) | Falls(regs: Regs)

  /** Runs the block from its instruction `i`. */
  function Eval(b: Program, i: nat, regs: Regs): BlockEnd
    requires GoodBlock(b) && i < |b|
    decreases |b| - i
  {
    if b[i].op.Exit? then Fires(regs[R0])
    else if IsJump(b[i].op) then
      if JumpTaken(b[i], regs) then Falls(regs) else Eval(b, i + 1, regs)
    else Eval(b, i + 1, regs[b[i].dst := AluValue(b[i], regs)])
  }

  /** R2 to R5 hold the request's type, access, major and minor. */
  predicate Loaded(regs: Regs, req: Request) {
    && regs[R2] == req.devType
    && regs[R3] == AccessBits(req.access)
    && regs[R4] == req.major
    && regs[R5] == req.minor
  }

  function Verdict(allow: bool): nat {
    if allow then 1 else 0
  }

  /** Started with the request loaded, `b` decides exactly the requests that `c` matches. */
  ghost predicate Implements(b: Program, c: Clause) {
    && GoodBlock(b)
    && forall regs: Regs, req :: Loaded(regs, req) ==>
         if Matches(c, req) then Eval(b, 0, regs) == Fires(Verdict(c.allow)) else Eval(b, 0, regs).Falls?
  }

  lemma EvalAlu(b: Program, i: nat, regs: Regs)
    requires GoodBlock(b) && i < |b| - 1 && IsAlu(b[i].op)
    ensures Eval(b, i, regs) == Eval(b, i + 1, regs[b[i].dst := AluValue(b[i], regs)])
  {
  }

  lemma {:induction false} EvalKeepsLoaded(b: Program, i: nat, regs: Regs, req: Request)
    requires GoodBlock(b) && i < |b| && Loaded(regs, req)
    ensures Eval(b, i, regs).Falls? ==> Loaded(Eval(b, i, regs).regs, req)
    decreases |b| - i
  {
    if !b[i].op.Exit? {
      if IsJump(b[i].op) {
        if !JumpTaken(b[i], regs) {
          EvalKeepsLoaded(b, i + 1, regs, req);
        }
      } else {
        EvalKeepsLoaded(b, i + 1, regs[b[i].dst := AluValue(b[i], regs)], req);
      }
    }
  }

  /** `b` sits in `p` at `k`. */
  predicate At(p: Program, k: nat, b: Program) {
    k + |b| <= |p| && p[k..k + |b|] == b
  }

  /** Inside a program, a block behaves as on its own, within |b| steps. */
  lemma {:induction false} EvalSimulates(p: Program, k: nat, b: Program, i: nat, regs: Regs, req: Request, base: nat)
    returns (n: nat)
    requires At(p, k, b) && GoodBlock(b) && i < |b|
    ensures n <= |b| - i
    ensures Steps(p, req, base, Running(k + i, regs), n)
         == match Eval(b, i, regs) case Fires(v) => Returned(v) case Falls(r) => Running(k + |b|, r)
    decreases |b| - i
  {
    assert p[k + i] == p[k..k + |b|][i] == b[i];
    var st := Running(k + i, regs);
    if b[i].op.Exit? || (IsJump(b[i].op) && JumpTaken(b[i], regs)) {
      n := 1;
      assert Steps(p, req, base, st, 1) == Steps(p, req, base, Step(p, req, base, st), 0);
    } else {
      var next := Step(p, req, base, st);
      n := EvalSimulates(p, k, b, i + 1, next.regs, req, base);
      n := n + 1;
    }
  }

  // The blocks of rules.

  predicate IsScratch(reg: Reg) {
    !(R2 <= reg <= R5)
  }

  lemma BlockIsGood(rule: Rule, scratch: Reg)
    requires Accepted(rule) && IsScratch(scratch)
    ensures GoodBlock(BlockUsing(rule, scratch))
    ensures |BlockUsing(rule, scratch)| == BlockLength(rule)
  {
    var raw, b := RawBlock(rule, scratch), BlockUsing(rule, scratch);
    assert forall i | 0 <= i < |b| :: b[i] == Aimed(raw, i);
  }

  /** The length of a block is what decides whether it can take the place of another. */
  function BlockLength(rule: Rule): nat
    requires Accepted(rule)
  {
    3 + (if Permitted(rule.permissions).value == ALL_ACCESS then 0 else 3)
    + (if rule.major < 0 then 0 else 1) + (if rule.minor < 0 then 0 else 1)
  }

  lemma ToolBlockIsGood(rule: Rule)
    requires Accepted(rule)
    ensures GoodBlock(Block(rule)) && |Block(rule)| == BlockLength(rule)
  {
    BlockIsGood(rule, R6);
  }

  /** The number test of a raw block, seen from the registers. */
  lemma NumberTestPasses(n: int, value: U32)
    requires n <= MAX_UINT32
    ensures n >= 0 ==> (ToU64(Int32(n)) == value <==> Compared(n).Holds(value))
    ensures n < 0 ==> Compared(n).Holds(value)
  {
  }

  /** The block built for a rule implements the rule's effect. */
  lemma BlockImplements(rule: Rule, scratch: Reg)
    requires Accepted(rule) && IsScratch(scratch)
    ensures Implements(BlockUsing(rule, scratch), Effect(rule))
  {
    BlockIsGood(rule, scratch);
    forall regs: Regs, req | Loaded(regs, req)
      ensures var e := Eval(BlockUsing(rule, scratch), 0, regs);
              if Matches(Effect(rule), req) then e == Fires(Verdict(rule.allow)) else e.Falls?
    {
      BlockDecides(rule, scratch, regs, req);
    }
  }

  lemma BlockDecides(rule: Rule, scratch: Reg, regs: Regs, req: Request)
    requires Accepted(rule) && IsScratch(scratch) && GoodBlock(BlockUsing(rule, scratch)) && Loaded(regs, req)
    ensures var e := Eval(BlockUsing(rule, scratch), 0, regs);
            if Matches(Effect(rule), req) then e == Fires(Verdict(rule.allow)) else e.Falls?
  {
    var b := BlockUsing(rule, scratch);
    assert b[0] == Aimed(RawBlock(rule, scratch), 0) == Instruction(JneImm, R2, R0, |b| - 1, BpfType(rule.kind).value);
    if req.devType == BpfType(rule.kind).value {
      assert Eval(b, 0, regs) == Eval(b, 1, regs);
      AccessDecides(rule, scratch, regs, req);
    }
  }

  /** The access test, which a full permission set leaves out. */
  lemma AccessDecides(rule: Rule, scratch: Reg, regs: Regs, req: Request)
    requires Accepted(rule) && IsScratch(scratch) && GoodBlock(BlockUsing(rule, scratch)) && Loaded(regs, req)
    ensures var e, c := Eval(BlockUsing(rule, scratch), 1, regs), Effect(rule);
            if req.access <= c.access && c.major.Holds(req.major) && c.minor.Holds(req.minor)
            then e == Fires(Verdict(rule.allow)) else e.Falls?
  {
    if Permitted(rule.permissions).value == ALL_ACCESS {
      AllAccessIsAll(req.access);
      NumbersDecide(rule, scratch, 1, regs, req);
    } else {
      AccessTestLayout(rule, scratch);
      var masked := MaskRuns(BlockUsing(rule, scratch), scratch, Permitted(rule.permissions).value, regs, req);
      if req.access <= Permitted(rule.permissions).value {
        NumbersDecide(rule, scratch, 4, masked, req);
      }
    }
  }

  lemma AllAccessIsAll(access: set<Access>)
    ensures access <= ALL_ACCESS
  {
    forall x | x in access
      ensures x in ALL_ACCESS
    {
      assert x.Mknod? || x.Read? || x.Write?;
    }
  }

  /** The three instructions of the access test: go on exactly when the access is within the permissions. */
  lemma MaskRuns(b: Program, scratch: Reg, access: set<Access>, regs: Regs, req: Request) returns (masked: Regs)
    requires GoodBlock(b) && Loaded(regs, req) && HasAccessTest(b, scratch, access) && IsScratch(scratch)
    ensures Loaded(masked, req)
    ensures Eval(b, 1, regs) == if req.access <= access then Eval(b, 4, masked) else Falls(masked)
  {
    var copied: Regs := regs[scratch := AccessBits(req.access)];
    assert AluValue(b[1], regs) == AccessBits(req.access);
    EvalAlu(b, 1, regs);
    var x, y := ToU32(copied[b[2].dst]), ToU32(b[2].constant);
    assert AluValue(b[2], copied) == BitAnd(x, y);
    assert x == AccessBits(req.access) && y == AccessBits(access);
    masked := copied[scratch := AluValue(b[2], copied)];
    EvalAlu(b, 2, copied);
    assert JumpTaken(b[3], masked) <==> !(req.access <= access) by {
      MaskKeepsSubset(req.access, access);
    }
  }

  predicate HasAccessTest(b: Program, scratch: Reg, access: set<Access>) {
    && |b| > 4
    && b[1] == Instruction(Mov32Reg, scratch, R3, 0, 0)
    && b[2] == Instruction(And32Imm, scratch, R0, 0, AccessBits(access))
    && b[3] == Instruction(JneReg, scratch, R3, |b| - 4, 0)
  }

  lemma AccessTestLayout(rule: Rule, scratch: Reg)
    requires Accepted(rule) && IsScratch(scratch) && Permitted(rule.permissions).value != ALL_ACCESS
    ensures HasAccessTest(BlockUsing(rule, scratch), scratch, Permitted(rule.permissions).value)
  {
    var raw, b := RawBlock(rule, scratch), BlockUsing(rule, scratch);
    assert b[1] == Aimed(raw, 1) && b[2] == Aimed(raw, 2) && b[3] == Aimed(raw, 3);
  }

  /** From the first number test at `i` on, only the numbers matter. */
  lemma NumbersDecide(rule: Rule, scratch: Reg, i: nat, regs: Regs, req: Request)
    requires Accepted(rule) && IsScratch(scratch) && GoodBlock(BlockUsing(rule, scratch)) && Loaded(regs, req)
    requires i == 1 + |AccessTest(Permitted(rule.permissions).value, scratch)|
    ensures var e := Eval(BlockUsing(rule, scratch), i, regs);
            if Compared(rule.major).Holds(req.major) && Compared(rule.minor).Holds(req.minor)
            then e == Fires(Verdict(rule.allow)) else e.Falls?
  {
    var raw, b := RawBlock(rule, scratch), BlockUsing(rule, scratch);
    assert forall k | 0 <= k < |b| :: b[k] == Aimed(raw, k);
    NumberTestPasses(rule.major, req.major);
    NumberTestPasses(rule.minor, req.minor);
    var j := i + |NumberTest(R4, rule.major)|;
    var k := j + |NumberTest(R5, rule.minor)|;
    assert k == |b| - 2;
    if rule.major >= 0 {
      assert b[i] == Instruction(JneImm, R4, R0, |b| - 1 - i, Int32(rule.major));
    }
    if Compared(rule.major).Holds(req.major) {
      assert Eval(b, i, regs) == Eval(b, j, regs);
      if rule.minor >= 0 {
        assert b[j] == Instruction(JneImm, R5, R0, |b| - 1 - j, Int32(rule.minor));
      }
      if Compared(rule.minor).Holds(req.minor) {
        assert Eval(b, j, regs) == Eval(b, k, regs);
        assert b[k] == Instruction(Mov32Imm, R0, R0, 0, Verdict(rule.allow));
        var done: Regs := regs[R0 := Verdict(rule.allow)];
        assert Eval(b, k, regs) == Eval(b, k + 1, done);
        assert b[k + 1].op.Exit?;
      }
    }
  }
}
