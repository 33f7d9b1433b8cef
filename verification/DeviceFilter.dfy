/**
 What pkg/util/ebpf/device.go computes, as functions on instruction sequences.
 FilterEditor holds the methods that compute these in place.
 */
module DeviceFilter {
  import opened Wrappers
  import opened Bpf

  /** A device rule as the OCI runtime writes it; a negative major or minor is a wildcard. */
  datatype Rule = Rule(kind: char, major: int, minor: int, permissions: string, allow: bool)

  const ALL_ACCESS: set<Access> := {Mknod, Read, Write}

  function BpfType(kind: char): Option<U16> {
    if kind == 'c' then Some(2) else if kind == 'b' then Some(1) else None
  }

  function AccessLetter(c: char): Option<Access> {
    if c == 'r' then Some(Read) else if c == 'w' then Some(Write) else if c == 'm' then Some(Mknod) else None
  }

  /** The accesses a permission string stands for, None when it holds another letter. */
  function Permitted(permissions: string): Option<set<Access>> {
    if permissions == [] then
      Some({})
    else
      var last := AccessLetter(permissions[|permissions| - 1]);
      var front := Permitted(permissions[..|permissions| - 1]);
      if front.None? || last.None? then None else Some(front.value + {last.value})
  }

  /** The access has its letter in the string. */
  predicate HasLetter(permissions: string, access: Access) {
    match access
    case Read => 'r' in permissions
    case Write => 'w' in permissions
    case Mknod => 'm' in permissions
  }

  lemma {:induction false} LettersAre(permissions: string)
    ensures Permitted(permissions).Some? <==> forall c :: c in permissions ==> c == 'r' || c == 'w' || c == 'm'
    ensures Permitted(permissions).Some? ==>
              forall a :: a in Permitted(permissions).value <==> HasLetter(permissions, a)
    decreases |permissions|
  {
    if permissions != [] {
      var front, last := permissions[..|permissions| - 1], permissions[|permissions| - 1];
      LettersAre(front);
      assert permissions == front + [last];
      assert forall c :: c in permissions <==> c in front || c == last;
      assert AccessLetter(last).Some? <==> last == 'r' || last == 'w' || last == 'm';
      assert Permitted(permissions).Some? <==> Permitted(front).Some? && AccessLetter(last).Some?;
      assert last in permissions;
    }
  }

  predicate Accepted(rule: Rule) {
    && BpfType(rule.kind).Some?
    && rule.major <= MAX_UINT32
    && rule.minor <= MAX_UINT32
    && Permitted(rule.permissions).Some?
  }

  // The instructions that the assembler builds for this tool.

  function JneImm32(reg: Reg, imm: int): Instruction {
    Instruction(JneImm, reg, R0, -1, imm)
  }

  function AcceptBlock(allow: bool): (b: Program)
    ensures |b| == 2
  {
    [Instruction(Mov32Imm, R0, R0, 0, if allow then 1 else 0), Instruction(Exit, R0, R0, 0, 0)]
  }

  function AccessTest(access: set<Access>, scratch: Reg): Program {
    if access == ALL_ACCESS then
      []
    else
      [Instruction(Mov32Reg, scratch, R3, 0, 0),
       Instruction(And32Imm, scratch, R0, 0, AccessBits(access)),
       Instruction(JneReg, scratch, R3, -1, 0)]
  }

  function NumberTest(reg: Reg, number: int): Program {
    if number >= 0 then [JneImm32(reg, Int32(number))] else []
  }

  function RawBlock(rule: Rule, scratch: Reg): Program
    requires Accepted(rule)
  {
    [JneImm32(R2, BpfType(rule.kind).value)] + AccessTest(Permitted(rule.permissions).value, scratch)
    + NumberTest(R4, rule.major) + NumberTest(R5, rule.minor) + AcceptBlock(rule.allow)
  }

  function Aimed(b: Program, i: nat): Instruction
    requires i < |b|
  {
    if IsJump(b[i].op) then b[i].(offset := |b| - 1 - i) else b[i]
  }

  /** Points every jump of `b` at the instruction after `b`. */
  function AimJumps(b: Program): (r: Program)
    ensures |r| == |b|
  {
    seq(|b|, i requires 0 <= i < |b| => Aimed(b, i))
  }

  /** The block of a rule. The OCI runtime uses R1 to mask the access, this tool R6. */
  function BlockUsing(rule: Rule, scratch: Reg): Program
    requires Accepted(rule)
  {
    AimJumps(RawBlock(rule, scratch))
  }

  function Block(rule: Rule): Program
    requires Accepted(rule)
  {
    BlockUsing(rule, R6)
  }

  // Splitting at Exit, and joining again.

  predicate Closed(g: Program) {
    && g != []
    && g[|g| - 1].op.Exit?
    && forall i :: 0 <= i < |g| - 1 ==> !g[i].op.Exit?
  }

  predicate Open(g: Program) {
    forall i :: 0 <= i < |g| ==> !g[i].op.Exit?
  }

  function FirstExit(p: Program): (k: nat)
    ensures k <= |p| && Open(p[..k]) && (k < |p| ==> p[k].op.Exit?)
  {
    if p == [] || p[0].op.Exit? then
      0
    else
      var k := FirstExit(p[1..]) + 1;
      assert forall i :: 0 < i < k ==> p[..k][i] == p[1..][..k - 1][i - 1];
      k
  }

  function Groups(p: Program): seq<Program>
    decreases |p|
  {
    if p == [] then
      []
    else
      var k := FirstExit(p);
      if k == |p| then [p] else [p[..k + 1]] + Groups(p[k + 1..])
  }

  function Flatten(gs: seq<Program>): Program {
    if gs == [] then [] else gs[0] + Flatten(gs[1..])
  }

  // Finding the group that already tests for a device.

  predicate Tests(ins: Instruction, reg: Reg, number: int) {
    ins.op.JneImm? && ins.dst == reg && ins.constant == number
  }

  predicate HasTest(g: Program, reg: Reg, number: int) {
    exists ins :: ins in g && Tests(ins, reg, number)
  }

  /** Group `g` tests for the rule's type, major and minor. */
  predicate Names(g: Program, rule: Rule)
    requires Accepted(rule)
  {
    HasTest(g, R2, BpfType(rule.kind).value) && HasTest(g, R4, rule.major) && HasTest(g, R5, rule.minor)
  }

  function LastNaming(gs: seq<Program>, rule: Rule): (i: int)
    requires Accepted(rule)
    ensures -1 <= i < |gs|
    ensures i >= 0 ==> Names(gs[i], rule)
    ensures forall j :: i < j < |gs| ==> !Names(gs[j], rule)
  {
    if gs == [] then -1
    else if Names(gs[|gs| - 1], rule) then |gs| - 1
    else LastNaming(gs[..|gs| - 1], rule)
  }

  /** Put `block` in the place of the last group that names the device if it fits there, else at the end. */
  function Merge(gs: seq<Program>, rule: Rule): seq<Program>
    requires Accepted(rule)
  {
    var i := LastNaming(gs, rule);
    if i < 0 || |gs[i]| > |Block(rule)| then gs + [Block(rule)] else gs[i := Block(rule)]
  }

  function AppendRule(p: Program, rule: Rule): Outcome<Program> {
    if Accepted(rule) then Done(Flatten(Merge(Groups(p), rule))) else Failed
  }

  // The default-deny tail.

  const DENY_TAIL: Program := AcceptBlock(false)

  /** hasEndExit; None where it indexes before the start of the program. */
  function HasEndExit(p: Program): Option<bool> {
    var n := |p|;
    if n < 1 then None
    else if !p[n - 1].op.Exit? then Some(false)
    else if n < 2 then None
    else if p[n - 2].dst != R0 && p[n - 2].constant != 0 then Some(false)
    else if n < 3 then None
    else Some(p[n - 3].op.Exit?)
  }

  /** The programs on which HasEndExit indexes before the start: a bare return is one. */
  predicate TooShort(p: Program) {
    || p == []
    || (|p| == 1 && p[0].op.Exit?)
    || (|p| == 2 && p[1].op.Exit? && (p[0].dst == R0 || p[0].constant == 0))
  }

  /** `inst` is None for a nil slice. */
  function Load(inst: Option<Program>): Outcome<Program> {
    match inst
    case None => Failed
    case Some(p) =>
      match HasEndExit(p)
      case None => Panicked
      case Some(stripped) => if stripped then Done(p[..|p| - 2]) else Done(p)
  }

  function Finalize(p: Program): Outcome<Program> {
    match HasEndExit(p)
    case None => Panicked
    case Some(ended) => if ended then Done(p) else Done(p + DENY_TAIL)
  }

  /** AppendRule over a list; nil rules are skipped and the first error stops. */
  function AppendRules(p: Program, rules: seq<Option<Rule>>): Outcome<Program>
    decreases |rules|
  {
    if rules == [] then
      Done(p)
    else
      match rules[0]
      case None => AppendRules(p, rules[1..])
      case Some(rule) =>
        match AppendRule(p, rule)
        case Done(q) => AppendRules(q, rules[1..])
        case Failed => Failed
        case Panicked => Panicked
  }

  /** The new filter program for the loaded one. */
  function Rewrite(inst: Option<Program>, rules: seq<Option<Rule>>): Outcome<Program> {
    match Load(inst)
    case Failed => Failed
    case Panicked => Panicked
    case Done(p) =>
      match AppendRules(p, rules)
      case Failed => Failed
      case Panicked => Panicked
      case Done(q) => Finalize(q)
  }

  // Splitting and joining undo each other.

  lemma Associates<T>(a: seq<T>, b: seq<T>, c: seq<T>)
    ensures a + (b + c) == (a + b) + c
  {
  }

  lemma FlattenPrepends(g: Program, gs: seq<Program>)
    ensures Flatten([g] + gs) == g + Flatten(gs)
  {
    assert ([g] + gs)[1..] == gs;
  }

  lemma {:induction false} FlattenAppends(a: seq<Program>, b: seq<Program>)
    ensures Flatten(a + b) == Flatten(a) + Flatten(b)
  {
    if a == [] {
      assert a + b == b;
    } else {
      FlattenAppends(a[1..], b);
      assert a + b == [a[0]] + (a[1..] + b);
      FlattenPrepends(a[0], a[1..] + b);
      Associates(a[0], Flatten(a[1..]), Flatten(b));
    }
  }

  lemma FlattenOne(g: Program)
    ensures Flatten([g]) == g
  {
    assert Flatten([]) == [];
  }

  /** Joining the groups of any program gives the program back. */
  lemma {:induction false} FlattenGroups(p: Program)
    ensures Flatten(Groups(p)) == p
    decreases |p|
  {
    if p != [] {
      var k := FirstExit(p);
      if k == |p| {
        FlattenOne(p);
      } else {
        FlattenGroups(p[k + 1..]);
        FlattenPrepends(p[..k + 1], Groups(p[k + 1..]));
        assert p[..k + 1] + p[k + 1..] == p;
      }
    }
  }

  /** Every group but the last ends at its only Exit; the last may also be an unfinished, non-empty rest. */
  predicate IsSplit(gs: seq<Program>) {
    && (forall i :: 0 <= i < |gs| - 1 ==> Closed(gs[i]))
    && (gs != [] ==> Closed(gs[|gs| - 1]) || (Open(gs[|gs| - 1]) && gs[|gs| - 1] != []))
  }

  lemma FirstExitIs(p: Program, k: nat)
    requires k < |p| && Open(p[..k]) && p[k].op.Exit?
    ensures FirstExit(p) == k
  {
    var f := FirstExit(p);
    assert forall i | 0 <= i < k :: p[..k][i] == p[i];
    assert forall i | 0 <= i < f :: p[..f][i] == p[i];
    assert forall i | 0 <= i < k :: !p[i].op.Exit?;
    assert forall i | 0 <= i < f :: !p[i].op.Exit?;
  }

  lemma GroupsPrepend(g: Program, p: Program)
    requires Closed(g)
    ensures Groups(g + p) == [g] + Groups(p)
  {
    var q, k := g + p, |g| - 1;
    assert forall i | 0 <= i < k :: q[..k][i] == g[i];
    FirstExitIs(q, k);
    assert q[..k + 1] == g && q[k + 1..] == p;
  }

  /** Splitting a joined list of groups gives the groups back. */
  lemma {:induction false} GroupsFlatten(gs: seq<Program>)
    requires IsSplit(gs)
    ensures Groups(Flatten(gs)) == gs
    decreases |gs|
  {
    if gs != [] {
      if Closed(gs[0]) {
        GroupsFlatten(gs[1..]);
        GroupsPrepend(gs[0], Flatten(gs[1..]));
      } else {
        assert gs == [gs[0]];
        FlattenOne(gs[0]);
        assert FirstExit(gs[0]) == |gs[0]|;
      }
    }
  }

  lemma SplitPrepends(g: Program, gs: seq<Program>)
    requires Closed(g) && IsSplit(gs)
    ensures IsSplit([g] + gs)
  {
  }

  lemma FirstGroupIsClosed(p: Program)
    requires FirstExit(p) < |p|
    ensures Closed(p[..FirstExit(p) + 1])
  {
    hide FirstExit;
    var k := FirstExit(p);
    var g := p[..k + 1];
    assert g[k] == p[k];
    forall i | 0 <= i < k
      ensures !g[i].op.Exit?
    {
      assert g[i] == p[..k][i];
    }
  }

  /** Groups() always splits. */
  lemma {:induction false} GroupsSplit(p: Program)
    ensures IsSplit(Groups(p))
    decreases |p|
  {
    if p != [] {
      var k := FirstExit(p);
      if k == |p| {
        assert p[..k] == p;
      } else {
        FirstGroupIsClosed(p);
        GroupsSplit(p[k + 1..]);
        SplitPrepends(p[..k + 1], Groups(p[k + 1..]));
      }
    }
  }
}
