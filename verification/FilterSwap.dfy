/** Exchanging the filter program attached to a cgroup, as in pkg/util/cgroupv2.go. */
module FilterSwap {
  import opened Wrappers
  import opened Bpf
  import opened DeviceFilter
  import opened FilterRefinement
  import opened FilterRuns
  import FilterEditor
  import opened FilterSemantics
  import opened FilterEdits
  import opened FilterTheorems
  import opened FilterRoundTrip

  /**
   A program loaded into the kernel. Its instructions, read back, may be annotated with symbols or line
   information, which the comparison with the rewritten instructions looks at too.
   */
  datatype Prog = Prog(id: nat, code: Program, annotated: bool)

  /** The end of a call: no error, an error, or a run-time panic that unwinds the callers. */
  datatype Exit = Ok | Err | Crash

  /** The rollback closure of a rule change. */
  datatype RuleUndo =
    | NilUndo
    | ReplaceBack(original: Prog, installed: Prog)
    | DetachNew(installed: Prog)

  datatype Descriptor = NotOpened | Open | Closed

  /** The closer returned to the caller: NilCloser or the one that closes the directory. */
  datatype Closer = NilCloser | CloseDir

  /**
   One container's cgroup directory as the kernel shows it to this process. Calls that can fail fail
   arbitrarily. `history` records the attached programs after every change.
   */
  class Cgroup {
    var attached: seq<Prog>
    var nextId: nat
    var fd: Descriptor
    ghost var history: seq<seq<Prog>>
    ghost var undoFailed: bool
    // Some call that could have succeeded has failed.
    ghost var callFailed: bool

    ghost predicate Valid()
      reads this
    {
      forall p :: p in attached ==> p.id < nextId
    }

    method OpenDir() returns (ok: bool)
      requires fd != Open
      modifies this`fd, this`callFailed
      ensures fd == if ok then Open else old(fd)
      ensures callFailed == (old(callFailed) || !ok)
    {
      ok := *;
      if ok {
        fd := Open;
      }
      callFailed := callFailed || !ok;
    }

    /** Listing the attached programs, or reading the instructions of one. */
    method Query() returns (ok: bool)
      requires fd == Open
      modifies this`callFailed
      ensures callFailed == (old(callFailed) || !ok)
    {
      ok := *;
      callFailed := callFailed || !ok;
    }

    method CloseDir()
      requires Valid() && fd == Open
      modifies this`fd
      ensures Valid() && fd == Closed
    {
      fd := Closed;
    }

    method LoadProgram(code: Program) returns (prog: Option<Prog>)
      requires Valid()
      modifies this`nextId, this`callFailed
      ensures Valid() && nextId >= old(nextId)
      ensures callFailed == (old(callFailed) || prog.None?)
      ensures prog.Some? ==> prog.value.code == code && old(nextId) <= prog.value.id < nextId
    {
      var ok: bool := *;
      if ok {
        var annotated: bool := *;
        prog := Some(Prog(nextId, code, annotated));
        nextId := nextId + 1;
      } else {
        prog := None;
        callFailed := true;
      }
    }

    /** BPF_PROG_ATTACH with BPF_F_ALLOW_MULTI. */
    method Attach(prog: Prog) returns (ok: bool)
      requires fd == Open
      modifies this`attached, this`history, this`callFailed
      ensures attached == if ok then old(attached) + [prog] else old(attached)
      ensures history == if ok then old(history) + [attached] else old(history)
      ensures callFailed == (old(callFailed) || !ok)
    {
      ok := *;
      if ok {
        attached := attached + [prog];
        history := history + [attached];
      }
      callFailed := callFailed || !ok;
    }

    /** BPF_PROG_ATTACH with BPF_F_REPLACE: fails unless `original` is attached, else puts `prog` in its place. */
    method Replace(original: Prog, prog: Prog) returns (ok: bool)
      requires fd == Open
      modifies this`attached, this`history, this`callFailed
      ensures ok ==> original in old(attached) && attached == Exchanged(old(attached), original, prog)
      ensures !ok ==> attached == old(attached)
      ensures history == if ok then old(history) + [attached] else old(history)
      ensures callFailed == (old(callFailed) || !ok)
    {
      ok := *;
      if original !in attached {
        ok := false;
      }
      if ok {
        attached := Exchanged(attached, original, prog);
        history := history + [attached];
      }
      callFailed := callFailed || !ok;
    }

    method Detach(prog: Prog) returns (ok: bool)
      requires fd == Open
      modifies this`attached, this`history, this`callFailed
      ensures ok ==> prog in old(attached) && attached == Without(old(attached), prog)
      ensures !ok ==> attached == old(attached)
      ensures history == if ok then old(history) + [attached] else old(history)
      ensures callFailed == (old(callFailed) || !ok)
    {
      ok := *;
      if prog !in attached {
        ok := false;
      }
      if ok {
        attached := Without(attached, prog);
        history := history + [attached];
      }
      callFailed := callFailed || !ok;
    }

    /** Runs a rollback closure; its error is only logged by the callers, and recorded here. */
    method RollBackRules(undo: RuleUndo)
      requires Valid() && (undo.NilUndo? || fd == Open)
      requires undo.ReplaceBack? ==> undo.original.id < nextId
      modifies this`attached, this`history, this`undoFailed, this`callFailed
      ensures Valid() && (old(undoFailed) ==> undoFailed) && (old(callFailed) ==> callFailed)
      ensures history == old(history) || (!undo.NilUndo? && history == old(history) + [Undone(old(attached), undo)])
      ensures attached == old(attached) || attached == Undone(old(attached), undo)
      ensures !undoFailed ==> attached == Undone(old(attached), undo)
    {
      var ok := true;
      match undo {
        case NilUndo =>
        case ReplaceBack(original, installed) => ok := Replace(installed, original);
        case DetachNew(installed) => ok := Detach(installed);
      }
      if !ok {
        undoFailed := true;
      }
    }
  }

  /** The attached programs after a rollback whose kernel call succeeds. */
  function Undone(s: seq<Prog>, undo: RuleUndo): seq<Prog> {
    match undo
    case NilUndo => s
    case ReplaceBack(original, installed) => Exchanged(s, installed, original)
    case DetachNew(installed) => Without(s, installed)
  }

  function Exchanged(s: seq<Prog>, original: Prog, prog: Prog): (r: seq<Prog>)
    ensures |r| == |s| && forall p :: p in r ==> p in s || p == prog
  {
    if s == [] then [] else [if s[0] == original then prog else s[0]] + Exchanged(s[1..], original, prog)
  }

  function Without(s: seq<Prog>, prog: Prog): (r: seq<Prog>)
    ensures forall p :: p in r ==> p in s
  {
    if s == [] then [] else if s[0] == prog then s[1..] else [s[0]] + Without(s[1..], prog)
  }

  /** The states a swap may pass through. */
  predicate SwapState(s: seq<Prog>, original: Prog, renewed: Prog) {
    s == [original] || s == [renewed] || s == [original, renewed]
  }

  /** The kernel allows an access when every attached program does. */
  ghost predicate EffectivelyAllows(s: seq<Prog>, req: Request) {
    forall p :: p in s ==> Decides(p.code, req, true)
  }

  lemma SwapSteps(original: Prog, renewed: Prog)
    ensures Exchanged([original], original, renewed) == [renewed]
    ensures Without([original, renewed], original) == [renewed]
  {
    assert [original, renewed][1..] == [renewed];
  }

  /** Every state that was added to the history is one of the swap's. */
  ghost predicate SwapPath(before: seq<seq<Prog>>, after: seq<seq<Prog>>, origin: seq<Prog>, undo: RuleUndo) {
    && |before| <= |after|
    && (undo.NilUndo? ==> |before| == |after|)
    && (!undo.NilUndo? ==>
          |origin| == 1
          && forall i :: |before| <= i < |after| ==> SwapState(after[i], origin[0], undo.installed))
  }

  /** In every state of a swap something is attached, and nothing is allowed that neither program allows. */
  lemma SwapNeverOpens(s: seq<Prog>, original: Prog, renewed: Prog, req: Request)
    requires SwapState(s, original, renewed) && EffectivelyAllows(s, req)
    ensures s != [] && (Decides(original.code, req, true) || Decides(renewed.code, req, true))
  {
    assert s[0] in s;
  }

  /** Undoing a finished swap without BPF_F_REPLACE leaves no filter, and then every access is allowed. */
  lemma NoFilterAllowsAll(original: Prog, renewed: Prog, req: Request)
    requires original != renewed
    ensures Without([renewed], renewed) == [] && EffectivelyAllows(Without([renewed], renewed), req)
    ensures Without([original, renewed], renewed) == [original]
  {
    assert [original, renewed][1..] == [renewed];
  }

  /** There is not exactly one old program, or one of the rules is refused. */
  predicate Unchangeable(before: seq<Prog>, rules: seq<Option<Rule>>) {
    |before| != 1 || Rewrite(Some(before[0].code), rules).Failed?
  }

  /**
   loadAttachCgroupDeviceFilter. `replace` says whether the kernel has BPF_F_REPLACE. The single old
   program keeps its place or gives it to the rewritten one; `undo` is what the caller gets.
   */
  method LoadAttachCgroupDeviceFilter(c: Cgroup, rules: seq<Option<Rule>>, replace: bool)
    returns (undo: RuleUndo, exit: Exit)
    requires c.Valid() && c.fd == Open
    modifies c`attached, c`nextId, c`history, c`callFailed
    ensures c.Valid() && c.nextId >= old(c.nextId) && (old(c.callFailed) ==> c.callFailed)
    ensures |old(c.attached)| != 1 ==> exit == Err
    ensures exit == Err ==> c.callFailed || Unchangeable(old(c.attached), rules)
    ensures undo.NilUndo? ==> c.attached == old(c.attached) && c.history == old(c.history)
    // A new program is attached only in the form that the rules ask for.
    ensures !undo.NilUndo? ==>
              && exit != Crash && |old(c.attached)| == 1 && undo.installed != old(c.attached)[0]
              && Rewrite(Some(old(c.attached)[0].code), rules) == Done(undo.installed.code)
              && (undo.installed.code != old(c.attached)[0].code || old(c.attached)[0].annotated)
    ensures exit == Ok && undo.NilUndo? ==>
              Rewrite(Some(old(c.attached)[0].code), rules) == Done(old(c.attached)[0].code)
    ensures exit == Crash ==>
              |old(c.attached)| == 1 && Rewrite(Some(old(c.attached)[0].code), rules).Panicked? && undo.NilUndo?
    ensures !c.callFailed && |old(c.attached)| == 1 && Rewrite(Some(old(c.attached)[0].code), rules).Panicked? ==>
              exit == Crash
    ensures undo.ReplaceBack? ==>
              replace && exit == Ok && undo.original == old(c.attached)[0] && c.attached == [undo.installed]
    ensures undo.DetachNew? ==>
              !replace && c.attached == if exit == Ok then [undo.installed] else [old(c.attached)[0], undo.installed]
    // Every state on the way is one of the swap's.
    ensures SwapPath(old(c.history), c.history, old(c.attached), undo)
  {
    hide Rewrite, Exchanged, Without;
    undo := NilUndo;
    var listed := c.Query();
    if !listed || |c.attached| != 1 {
      return undo, Err;
    }
    var current := c.attached[0];
    var readable := c.Query();
    if !readable {
      return undo, Err;
    }
    var rewritten := FilterEditor.RewriteProgram(Some(current.code), rules);
    match rewritten {
      case Failed => return undo, Err;
      case Panicked => return undo, Crash;
      case Done(code) =>
        var alike: bool := *;
        if code == current.code && (alike || !current.annotated) {
          return undo, Ok;
        }
        var prog := c.LoadProgram(code);
        if prog.None? {
          return undo, Err;
        }
        assert c.attached == [current];
        SwapSteps(current, prog.value);
        if replace {
          var ok := c.Replace(current, prog.value);
          if !ok {
            return undo, Err;
          }
          return ReplaceBack(current, prog.value), Ok;
        }
        var ok := c.Attach(prog.value);
        if !ok {
          return undo, Err;
        }
        undo := DetachNew(prog.value);
        assert c.attached == [current, prog.value];
        ok := c.Detach(current);
        if !ok {
          return undo, Err;
        }
        return undo, Ok;
    }
  }

  /** A rollback right after a swap, finished or not, on a kernel with BPF_F_REPLACE or after a failed detach. */
  lemma UndoRestores(before: seq<Prog>, after: seq<Prog>, undo: RuleUndo)
    requires |before| == 1 && !undo.NilUndo? && undo.installed != before[0]
    requires undo.ReplaceBack? ==> undo.original == before[0] && after == [undo.installed]
    requires undo.DetachNew? ==> after == [undo.installed] || after == [before[0], undo.installed]
    ensures undo.ReplaceBack? ==> Undone(after, undo) == before
    ensures undo.DetachNew? ==> (Undone(after, undo) == before <==> after != [undo.installed])
    ensures undo.DetachNew? && after == [undo.installed] ==> Undone(after, undo) == []
  {
    if undo.DetachNew? {
      NoFilterAllowsAll(before[0], undo.installed, Request(0, {}, 0, 0));
    } else {
      assert after[1..] == [];
    }
  }

  predicate IsRWM(permissions: string) {
    'r' in permissions && 'w' in permissions && 'm' in permissions
  }

  /** For an accepted rule, the letters r, w and m mean all accesses. */
  lemma IsRWMIff(rule: Rule)
    requires Accepted(rule)
    ensures IsRWM(rule.permissions) <==> Permitted(rule.permissions) == Some(ALL_ACCESS)
  {
    LettersAre(rule.permissions);
    var access := Permitted(rule.permissions).value;
    AllAccessIsAll(access);
    if IsRWM(rule.permissions) {
      assert HasLetter(rule.permissions, Read) && HasLetter(rule.permissions, Write);
      assert HasLetter(rule.permissions, Mknod);
      assert access == ALL_ACCESS;
    } else {
      assert !HasLetter(rule.permissions, Read) || !HasLetter(rule.permissions, Write)
             || !HasLetter(rule.permissions, Mknod);
    }
  }

  /** Every rule allows all accesses, so a failed BPF call is passed over. */
  predicate OnlyFullAllows(rules: seq<Rule>) {
    forall i :: 0 <= i < |rules| ==> rules[i].allow && IsRWM(rules[i].permissions)
  }

  method CanSkipEbpfError(rules: seq<Rule>) returns (skip: bool)
    ensures skip == OnlyFullAllows(rules)
  {
    for i := 0 to |rules|
      invariant forall j :: 0 <= j < i ==> rules[j].allow && IsRWM(rules[j].permissions)
    {
      var r, w, m := false, false, false;
      for k := 0 to |rules[i].permissions|
        invariant r == ('r' in rules[i].permissions[..k])
        invariant w == ('w' in rules[i].permissions[..k])
        invariant m == ('m' in rules[i].permissions[..k])
      {
        match rules[i].permissions[k]
        case 'r' => r := true;
        case 'w' => w := true;
        case 'm' => m := true;
        case _ =>
      }
      assert rules[i].permissions[..|rules[i].permissions|] == rules[i].permissions;
      if !rules[i].allow || !(r && w && m) {
        return false;
      }
    }
    return true;
  }

  /** The rewritten program is the only attached one. */
  ghost predicate InForce(before: seq<Prog>, after: seq<Prog>, rules: seq<Rule>) {
    |before| == |after| == 1 && Rewrite(Some(before[0].code), Somes(rules)) == Done(after[0].code)
  }

  /** The rollback closure goes with what has happened to the attached programs. */
  ghost predicate UndoFits(before: seq<Prog>, after: seq<Prog>, rules: seq<Rule>, replace: bool, undo: RuleUndo) {
    && (undo.NilUndo? ==> after == before)
    && (!undo.NilUndo? ==>
          |before| == 1 && undo.installed != before[0]
          && Rewrite(Some(before[0].code), Somes(rules)) == Done(undo.installed.code)
          && (undo.installed.code != before[0].code || before[0].annotated))
    && (undo.ReplaceBack? ==> replace && undo.original == before[0] && after == [undo.installed])
    && (undo.DetachNew? ==> !replace && (after == [undo.installed] || after == [before[0], undo.installed]))
  }

  /**
   What a caller of the rule setter may rely on, for the attached programs before and after. `failed`
   says that some kernel call has failed.
   */
  ghost predicate RulesOutcome(before: seq<Prog>, after: seq<Prog>, rules: seq<Rule>, replace: bool,
                               undo: RuleUndo, exit: Exit, failed: bool) {
    && UndoFits(before, after, rules, replace, undo)
    && (exit == Err && undo.DetachNew? ==> after == [before[0], undo.installed])
    && (exit == Crash || rules == [] ==> undo.NilUndo?)
    // The only panic is that of a program that is too short, and it comes unless a call fails before.
    && (exit == Crash ==> rules != [] && |before| == 1 && TooShort(before[0].code))
    && (!failed && rules != [] && |before| == 1 && TooShort(before[0].code) ==> exit == Crash)
    // Success without the new rules in force happens only when an error was passed over.
    && (exit == Ok ==>
          || rules == []
          || InForce(before, after, rules)
          || (OnlyFullAllows(rules) && (failed || Unchangeable(before, Somes(rules)))))
    && (exit == Err ==> failed || Unchangeable(before, Somes(rules)))
  }

  /** SetDeviceRulesByCgroupv2, behind the test of DeviceRuleSetFunc for an empty rule list. */
  method SetDeviceRules(c: Cgroup, rules: seq<Rule>, replace: bool)
    returns (closer: Closer, undo: RuleUndo, exit: Exit)
    requires c.Valid() && c.fd != Open
    modifies c`attached, c`nextId, c`history, c`fd, c`callFailed
    ensures c.Valid() && c.nextId >= old(c.nextId) && (old(c.callFailed) ==> c.callFailed)
    ensures c.fd == old(c.fd) || c.fd == Open
    ensures if exit == Crash then c.fd == Open && closer.NilCloser? else closer.CloseDir? <==> c.fd == Open
    ensures !undo.NilUndo? ==> c.fd == Open
    // Once the directory is open, errors are passed over exactly for rules that are all full allows.
    ensures exit == Err && c.fd == Open ==> !OnlyFullAllows(rules)
    ensures RulesOutcome(old(c.attached), c.attached, rules, replace, undo, exit, c.callFailed)
    ensures SwapPath(old(c.history), c.history, old(c.attached), undo)
  {
    closer, undo, exit := NilCloser, NilUndo, Ok;
    if rules == [] {
      return;
    }
    var ok := c.OpenDir();
    if !ok {
      return NilCloser, NilUndo, Err;
    }
    if |c.attached| == 1 {
      assert Somes(rules)[0] in Somes(rules);
      RewritePanicsIff(c.attached[0].code, Somes(rules));
    }
    undo, exit := LoadAttachCgroupDeviceFilter(c, Somes(rules), replace);
    if exit == Crash {
      return;
    }
    closer := CloseDir;
    if exit == Err {
      var skip := CanSkipEbpfError(rules);
      if skip {
        exit := Ok;
      }
    }
  }

  /**
   Setting the same rules a second time leaves the kernel alone: for concrete devices, each always by the
   same rule and with numbers that fit, and a program that is read back without annotations.
   */
  lemma SecondSettingLeavesKernelAlone(
    s0: seq<Prog>, s1: seq<Prog>, s2: seq<Prog>, rules: seq<Rule>, replace: bool, undo2: RuleUndo, exit2: Exit,
    failed2: bool, pro: Program, bs: seq<Program>, cs: seq<Clause>, otherwise: bool)
    requires |s0| == 1 && Encodes(s0[0].code, pro, bs, cs, otherwise)
    requires FilterRuns.Valid(rules) && Consistent(rules) && forall i :: 0 <= i < |rules| ==> Fits(rules[i])
    requires InForce(s0, s1, rules) && !s1[0].annotated
    requires RulesOutcome(s1, s2, rules, replace, undo2, exit2, failed2)
    ensures undo2.NilUndo? && s2 == s1
  {
    hide Rewrite, Encodes, OnlyFullAllows, Unchangeable, TooShort;
    SecondRequestChangesNothing(s0[0].code, pro, bs, cs, otherwise, rules);
  }

  /**
   The whole round trip on the attached filters: a successful mount and a successful unmount of the same
   rules leave every access as it was, also when the mount passed over an error. The rules are for concrete
   devices that the attached default-deny program does not name, always the same for one device.
   */
  lemma AccessRoundTrip(s0: seq<Prog>, s1: seq<Prog>, s2: seq<Prog>, rules: seq<Rule>, replace: bool,
                        undo1: RuleUndo, undo2: RuleUndo, failed1: bool, failed2: bool,
                        pro: Program, bs: seq<Program>, cs: seq<Clause>, req: Request)
    requires |s0| == 1 && Encodes(s0[0].code, pro, bs, cs, false)
    requires FilterRuns.Valid(rules) && Consistent(rules)
    requires forall r :: r in rules ==> Unnamed(pro, bs, r)
    requires RulesOutcome(s0, s1, rules, replace, undo1, Ok, failed1)
    requires RulesOutcome(s1, s2, DeniedAll(rules), replace, undo2, Ok, failed2)
    ensures EffectivelyAllows(s2, req) <==> EffectivelyAllows(s0, req)
  {
    hide Rewrite, Encodes, Decides, Unnamed, SameDecisions, EffectivelyAllows, TooShort, FilterRuns.Valid, Consistent;
    if rules != [] {
      assert !OnlyFullAllows(DeniedAll(rules)) by {
        assert !DeniedAll(rules)[0].allow;
      }
      assert InForce(s1, s2, DeniedAll(rules));
      assert SameDecisions(s0[0].code, s2[0].code) by {
        if InForce(s0, s1, rules) {
          MountThenUnmount(s0[0].code, pro, bs, cs, rules);
          var q, z :| MountedThenUnmounted(s0[0].code, q, z, rules) && SameDecisions(s0[0].code, z);
        } else {
          DenyOnly(s0[0].code, pro, bs, cs, rules);
        }
      }
      SameAccess(s0[0], s2[0], pro, bs, cs, req);
      assert s0 == [s0[0]] && s2 == [s2[0]];
    }
  }

  /** Single programs with the same decisions allow the same accesses. */
  lemma SameAccess(a: Prog, b: Prog, pro: Program, bs: seq<Program>, cs: seq<Clause>, req: Request)
    requires Encodes(a.code, pro, bs, cs, false) && SameDecisions(a.code, b.code)
    ensures EffectivelyAllows([b], req) <==> EffectivelyAllows([a], req)
  {
    hide Encodes, Decides;
    ProgramRefinesClauses(a.code, pro, bs, cs, false, req);
    var allow := FirstMatch(cs, false, req);
    assert Decides(b.code, req, allow);
    assert a in [a] && b in [b];
    if Decides(b.code, req, true) {
      DecisionIsUnique(b.code, req, true, allow);
    }
    if Decides(a.code, req, true) {
      DecisionIsUnique(a.code, req, true, allow);
    }
  }
}
