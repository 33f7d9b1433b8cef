/**
 The part of eBPF that cgroup device filters use: context loads, 32-bit moves, AND and right shift,
 64-bit JNE, and EXIT. Instruction meanings follow sections 4.1, 4.3 and 5.1 of RFC 9669.
 */
module Bpf {
  import opened Wrappers

  type Reg = r: nat | r < 11

  const R0: Reg := 0
  const R1: Reg := 1
  const R2: Reg := 2
  const R3: Reg := 3
  const R4: Reg := 4
  const R5: Reg := 5
  const R6: Reg := 6

  datatype OpCode =
    | LdxHalf | LdxWord
    | Mov32Reg | Mov32Imm | And32Imm | RSh32Imm
    | JneImm | JneReg | Exit
    | Other(code: nat)

  datatype Instruction = Instruction(op: OpCode, dst: Reg, src: Reg, offset: int, constant: int)

  type Program = seq<Instruction>

  type Regs = s: seq<nat> | |s| == 11 witness [0, 0, 0, 0, 0, 0, 0, 0, 0, 0, 0]

  type U16 = n: nat | n < 0x1_0000
  type U32 = n: nat | n < 0x1_0000_0000

  const MAX_INT32: int := 0x7FFF_FFFF
  const MAX_UINT32: int := 0xFFFF_FFFF

  datatype Access = Mknod | Read | Write

  /** One access the kernel asks the filter about. */
  datatype Request = Request(devType: U16, access: set<Access>, major: U32, minor: U32)

  /** The kernel's encoding of an access set: BPF_DEVCG_ACC_MKNOD | _READ | _WRITE. */
  function AccessBits(access: set<Access>): (bits: nat)
    ensures bits < 8
  {
    (if Mknod in access then 1 else 0) + (if Read in access then 2 else 0) + (if Write in access then 4 else 0)
  }

  function ToU32(x: int): nat {
    x % 0x1_0000_0000
  }

  function ToU64(x: int): nat {
    x % 0x1_0000_0000_0000_0000
  }

  /** Go's conversion int32(x): the low 32 bits, read as a signed number. */
  function Int32(x: int): int {
    if ToU32(x) > MAX_INT32 then ToU32(x) - 0x1_0000_0000 else ToU32(x)
  }

  function ShiftRight(v: nat, n: nat): nat
    decreases n
  {
    if n == 0 then v else ShiftRight(v / 2, n - 1)
  }

  function BitAnd(a: nat, b: nat): nat {
    if a == 0 || b == 0 then 0 else (if a % 2 == 1 == b % 2 then 1 else 0) + 2 * BitAnd(a / 2, b / 2)
  }

  /** The 32-bit word at byte `at` of struct bpf_cgroup_dev_ctx. */
  function ContextWord(req: Request, at: int): Option<nat> {
    if at == 0 then Some(AccessBits(req.access) * 0x1_0000 + req.devType)
    else if at == 4 then Some(req.major)
    else if at == 8 then Some(req.minor)
    else None
  }

  /** The little-endian half word at byte `at`. */
  function ContextHalf(req: Request, at: int): Option<nat> {
    match ContextWord(req, at - at % 4)
    case None => None
    case Some(word) =>
      if at % 4 == 0 then Some(word % 0x1_0000)
      else if at % 4 == 2 then Some(word / 0x1_0000)
      else None
  }

  predicate IsAlu(op: OpCode) {
    op.Mov32Reg? || op.Mov32Imm? || op.And32Imm? || op.RSh32Imm?
  }

  predicate IsLoad(op: OpCode) {
    op.LdxHalf? || op.LdxWord?
  }

  predicate IsJump(op: OpCode) {
    op.JneImm? || op.JneReg?
  }

  function AluValue(ins: Instruction, regs: Regs): nat
    requires IsAlu(ins.op)
  {
    match ins.op
    case Mov32Reg => ToU32(regs[ins.src])
    case Mov32Imm => ToU32(ins.constant)
    case And32Imm => BitAnd(ToU32(regs[ins.dst]), ToU32(ins.constant))
    case RSh32Imm => ShiftRight(ToU32(regs[ins.dst]), ins.constant % 32)
  }

  predicate JumpTaken(ins: Instruction, regs: Regs)
    requires IsJump(ins.op)
  {
    regs[ins.dst] != if ins.op.JneImm? then ToU64(ins.constant) else regs[ins.src]
  }

  /** `base` is the address of the context, which the kernel passes in R1. */
  function LoadValue(ins: Instruction, req: Request, base: nat, regs: Regs): Option<nat>
    requires IsLoad(ins.op)
  {
    var at := regs[ins.src] + ins.offset - base;
    if ins.op.LdxWord? then ContextWord(req, at) else ContextHalf(req, at)
  }

  datatype State = Running(pc: int, regs: Regs) | Returned(r0: nat) | Fault

  function Step(p: Program, req: Request, base: nat, st: State): State
    requires st.Running?
  {
    if !(0 <= st.pc < |p|) then
      Fault
    else
      var ins := p[st.pc];
      if IsAlu(ins.op) then
        Running(st.pc + 1, st.regs[ins.dst := AluValue(ins, st.regs)])
      else if IsLoad(ins.op) then
        match LoadValue(ins, req, base, st.regs)
        case None => Fault
        case Some(v) => Running(st.pc + 1, st.regs[ins.dst := v])
      else if IsJump(ins.op) then
        Running(if JumpTaken(ins, st.regs) then st.pc + 1 + ins.offset else st.pc + 1, st.regs)
      else if ins.op.Exit? then
        Returned(st.regs[R0])
      else
        Fault
  }

  /** At most `n` steps from `st`. */
  function Steps(p: Program, req: Request, base: nat, st: State, n: nat): State
    decreases n
  {
    if n == 0 || !st.Running? then st else Steps(p, req, base, Step(p, req, base, st), n - 1)
  }

  lemma {:induction false} StepsCompose(p: Program, req: Request, base: nat, st: State, n: nat, m: nat)
    ensures Steps(p, req, base, st, n + m) == Steps(p, req, base, Steps(p, req, base, st, n), m)
    decreases n
  {
    if n > 0 && st.Running? {
      StepsCompose(p, req, base, Step(p, req, base, st), n - 1, m);
    }
  }

  lemma Chain(p: Program, req: Request, base: nat, a: State, n: nat, b: State, m: nat, c: State)
    requires Steps(p, req, base, a, n) == b && Steps(p, req, base, b, m) == c
    ensures Steps(p, req, base, a, n + m) == c
  {
    StepsCompose(p, req, base, a, n, m);
  }

  lemma {:induction false} HaltedStays(p: Program, req: Request, base: nat, st: State, n: nat, m: nat)
    requires n <= m && !Steps(p, req, base, st, n).Running?
    ensures Steps(p, req, base, st, m) == Steps(p, req, base, st, n)
  {
    StepsCompose(p, req, base, st, n, m - n);
  }

  lemma {:induction false} ShiftComposes(v: nat, n: nat, m: nat)
    ensures ShiftRight(v, n + m) == ShiftRight(ShiftRight(v, n), m)
    decreases n
  {
    if n > 0 {
      ShiftComposes(v / 2, n - 1, m);
    }
  }

  /** Shifting the access_type word right by 16 leaves the access bits. */
  lemma ShiftBySixteen(v: nat)
    ensures ShiftRight(v, 16) == v / 0x1_0000
  {
    ShiftByFour(v);
    ShiftByFour(v / 16);
    ShiftByFour(v / 256);
    ShiftByFour(v / 4096);
    ShiftComposes(v, 4, 12);
    ShiftComposes(v / 16, 4, 8);
    ShiftComposes(v / 256, 4, 4);
  }

  lemma ShiftByFour(v: nat)
    ensures ShiftRight(v, 4) == v / 16
  {
    assert ShiftRight(v, 4) == ShiftRight(v / 2, 3);
    assert ShiftRight(v / 2, 3) == ShiftRight(v / 2 / 2, 2);
    assert ShiftRight(v / 2 / 2, 2) == ShiftRight(v / 2 / 2 / 2, 1);
  }

  /** Masking an access with the bits of a permission set keeps it whole exactly when it is a subset. */
  lemma MaskKeepsSubset(access: set<Access>, mask: set<Access>)
    ensures BitAnd(AccessBits(access), AccessBits(mask)) == AccessBits(access) <==> access <= mask
  {
    var a, m := AccessBits(access), AccessBits(mask);
    assert a / 2 / 2 == (if Write in access then 1 else 0);
    assert m / 2 / 2 == (if Write in mask then 1 else 0);
    assert a / 2 % 2 == (if Read in access then 1 else 0);
    assert m / 2 % 2 == (if Read in mask then 1 else 0);
    assert a % 2 == (if Mknod in access then 1 else 0);
    assert m % 2 == (if Mknod in mask then 1 else 0);
    BitAndUnfolds(a, m);
    BitAndUnfolds(a / 2, m / 2);
    BitAndUnfolds(a / 2 / 2, m / 2 / 2);
    assert BitAnd(a / 2 / 2 / 2, m / 2 / 2 / 2) == 0;
    assert access <= mask <==> (Mknod in access ==> Mknod in mask) && (Read in access ==> Read in mask)
                               && (Write in access ==> Write in mask) by {
      forall x | x in access
        ensures x == Mknod || x == Read || x == Write
      {
      }
    }
  }

  lemma BitAndUnfolds(a: nat, b: nat)
    ensures BitAnd(a, b) == (if a % 2 == 1 == b % 2 then 1 else 0) + 2 * BitAnd(a / 2, b / 2)
  {
  }
}
