/** The instruction editor of pkg/util/ebpf/device.go, which rewrites its own instruction list in place. */
module FilterEditor {
  import opened Wrappers
  import opened Bpf
  import opened DeviceFilter

  /** Splits at every Exit; a rest without an Exit becomes the last group. */
  method SplitAtExits(insts: Program) returns (groups: seq<Program>)
    ensures groups == Groups(insts)
    ensures Flatten(groups) == insts && IsSplit(groups)
  {
    groups := [];
    var tmp: Program := [];
    for i := 0 to |insts|
      invariant forall g :: g in groups ==> Closed(g)
      invariant Open(tmp)
      invariant Flatten(groups) + tmp == insts[..i]
    {
      tmp := tmp + [insts[i]];
      assert insts[..i + 1] == insts[..i] + [insts[i]];
      if insts[i].op.Exit? {
        FlattenAppends(groups, [tmp]);
        FlattenOne(tmp);
        groups := groups + [tmp];
        tmp := [];
      }
    }
    assert insts[..|insts|] == insts;
    if tmp != [] {
      FlattenAppends(groups, [tmp]);
      FlattenOne(tmp);
      groups := groups + [tmp];
    }
    GroupsFlatten(groups);
  }

  /** Reads a permission string letter by letter; fails at the first letter that is not r, w or m. */
  method ReadPermissions(permissions: string) returns (access: Option<set<Access>>)
    ensures access == Permitted(permissions)
    ensures access.None? <==> exists c :: c in permissions && c != 'r' && c != 'w' && c != 'm'
    ensures access.Some? ==>
              && (Read in access.value <==> 'r' in permissions)
              && (Write in access.value <==> 'w' in permissions)
              && (Mknod in access.value <==> 'm' in permissions)
  {
    var bits: set<Access> := {};
    for i := 0 to |permissions|
      invariant Permitted(permissions[..i]) == Some(bits)
    {
      assert permissions[..i + 1][..i] == permissions[..i];
      match AccessLetter(permissions[i])
      case Some(a) => bits := bits + {a};
      case None =>
        RejectedPrefix(permissions, i + 1);
        LettersAre(permissions);
        return None;
    }
    assert permissions[..|permissions|] == permissions;
    LettersAre(permissions);
    assert HasLetter(permissions, Read) <==> Read in bits;
    assert HasLetter(permissions, Write) <==> Write in bits;
    assert HasLetter(permissions, Mknod) <==> Mknod in bits;
    return Some(bits);
  }

  lemma {:induction false} RejectedPrefix(permissions: string, i: nat)
    requires i <= |permissions| && Permitted(permissions[..i]).None?
    ensures Permitted(permissions).None?
    decreases |permissions| - i
  {
    if i == |permissions| {
      assert permissions[..i] == permissions;
    } else {
      assert permissions[..i + 1][..i] == permissions[..i];
      RejectedPrefix(permissions, i + 1);
    }
  }

  /** Searches one group for the three immediate tests of the rule's device. */
  method GroupNames(group: Program, rule: Rule) returns (found: bool)
    requires Accepted(rule)
    ensures found == Names(group, rule)
  {
    var foundType, foundMajor, foundMinor := false, false, false;
    var bpfType := BpfType(rule.kind).value;
    for i := 0 to |group|
      invariant foundType == HasTest(group[..i], R2, bpfType)
      invariant foundMajor == HasTest(group[..i], R4, rule.major)
      invariant foundMinor == HasTest(group[..i], R5, rule.minor)
    {
      var ins := group[i];
      HasTestExtends(group, i, R2, bpfType);
      HasTestExtends(group, i, R4, rule.major);
      HasTestExtends(group, i, R5, rule.minor);
      if !foundType && Tests(ins, R2, bpfType) {
        foundType := true;
      } else if !foundMajor && Tests(ins, R4, rule.major) {
        foundMajor := true;
      } else if !foundMinor && Tests(ins, R5, rule.minor) {
        foundMinor := true;
      }
    }
    assert group[..|group|] == group;
    found := foundType && foundMajor && foundMinor;
  }

  lemma HasTestExtends(g: Program, i: nat, reg: Reg, number: int)
    requires i < |g|
    ensures HasTest(g[..i + 1], reg, number) == (HasTest(g[..i], reg, number) || Tests(g[i], reg, number))
  {
    assert g[..i + 1] == g[..i] + [g[i]];
    assert g[i] in g[..i + 1];
  }

  /** The new rule's instructions, with the jump offsets filled in afterwards. */
  method BuildBlock(rule: Rule, access: set<Access>) returns (insert: Program)
    requires Accepted(rule) && Permitted(rule.permissions) == Some(access)
    ensures insert == Block(rule)
  {
    insert := [JneImm32(R2, BpfType(rule.kind).value)];
    if access != ALL_ACCESS {
      insert := insert + AccessTest(access, R6);
    }
    if rule.major >= 0 {
      insert := insert + [JneImm32(R4, Int32(rule.major))];
    }
    if rule.minor >= 0 {
      insert := insert + [JneImm32(R5, Int32(rule.minor))];
    }
    insert := insert + AcceptBlock(rule.allow);
    assert insert == RawBlock(rule, R6);
    insert := FillOffsets(insert);
  }

  /** Every jump gets the distance to the end of the block. */
  method FillOffsets(raw: Program) returns (insert: Program)
    ensures insert == AimJumps(raw)
  {
    insert := raw;
    for i := 0 to |insert|
      invariant |insert| == |raw|
      invariant forall j :: 0 <= j < i ==> insert[j] == Aimed(raw, j)
      invariant forall j :: i <= j < |raw| ==> insert[j] == raw[j]
    {
      var offset := |insert| - 1 - i;
      if IsJump(insert[i].op) {
        insert := insert[i := insert[i].(offset := offset)];
      }
    }
    assert insert == AimJumps(raw);
  }

  /** Searches from the last group, because new rules are added at the end. */
  method FindGroup(groups: seq<Program>, rule: Rule) returns (index: int)
    requires Accepted(rule)
    ensures index == LastNaming(groups, rule)
  {
    index := -1;
    var i := |groups| - 1;
    while i >= 0
      invariant -1 <= i < |groups|
      invariant forall j :: i < j < |groups| ==> !Names(groups[j], rule)
    {
      var found := GroupNames(groups[i], rule);
      if found {
        return i;
      }
      i := i - 1;
    }
  }

  method JoinGroups(groups: seq<Program>) returns (insts: Program)
    ensures insts == Flatten(groups)
  {
    insts := [];
    for k := 0 to |groups|
      invariant insts == Flatten(groups[..k])
    {
      assert groups[..k + 1] == groups[..k] + [groups[k]];
      FlattenAppends(groups[..k], [groups[k]]);
      FlattenOne(groups[k]);
      insts := insts + groups[k];
    }
    assert groups[..|groups|] == groups;
  }

  class Instructions {
    var insts: Program

    constructor (insts: Program)
      ensures this.insts == insts
    {
      this.insts := insts;
    }

    /** On success the list holds the loaded program without its default-deny tail. */
    static method LoadInstructions(inst: Option<Program>) returns (r: Outcome<Instructions>)
      ensures match r
              case Done(i) => fresh(i) && Load(inst) == Done(i.insts)
              case Failed => Load(inst).Failed?
              case Panicked => Load(inst).Panicked?
    {
      match inst
      case None => return Failed;
      case Some(p) =>
        match HasEndExit(p)
        case None => return Panicked;
        case Some(ended) =>
          var i := new Instructions(if ended then p[..|p| - 2] else p);
          return Done(i);
    }

    /** Replaces or appends the rule's block; an invalid rule leaves the list alone. */
    method AppendRule(rule: Rule) returns (ok: bool)
      modifies this
      ensures ok == Accepted(rule)
      ensures ok ==> DeviceFilter.AppendRule(old(insts), rule) == Done(insts)
      ensures !ok ==> insts == old(insts) && DeviceFilter.AppendRule(old(insts), rule).Failed?
    {
      if BpfType(rule.kind).None? || rule.major > MAX_UINT32 || rule.minor > MAX_UINT32 {
        return false;
      }
      var access := ReadPermissions(rule.permissions);
      if access.None? {
        return false;
      }
      var groups := SplitAtExits(insts);
      ghost var split := groups;
      var index := FindGroup(groups, rule);
      var insert := BuildBlock(rule, access.value);
      if index < 0 || |groups[index]| > |insert| {
        groups := groups + [insert];
      } else {
        groups := groups[index := insert];
      }
      assert groups == Merge(split, rule);
      insts := JoinGroups(groups);
      return true;
    }

    /** Adds the default-deny tail unless it is there; false stands for an index panic. */
    method Finalize() returns (ok: bool)
      modifies this
      ensures ok ==> DeviceFilter.Finalize(old(insts)) == Done(insts)
      ensures !ok ==> DeviceFilter.Finalize(old(insts)).Panicked? && insts == old(insts)
    {
      match HasEndExit(insts)
      case None => return false;
      case Some(ended) =>
        if !ended {
          insts := insts + DENY_TAIL;
        }
        return true;
    }
  }

  /** The rewriting part of loadAttachCgroupDeviceFilter: load, apply every non-nil rule, finalize. */
  method RewriteProgram(current: Option<Program>, rules: seq<Option<Rule>>) returns (r: Outcome<Program>)
    ensures r == Rewrite(current, rules)
  {
    var loaded := Instructions.LoadInstructions(current);
    match loaded
    case Failed => return Failed;
    case Panicked => return Panicked;
    case Done(tmp) =>
      ghost var start := tmp.insts;
      for i := 0 to |rules|
        invariant fresh(tmp)
        invariant AppendRules(start, rules) == AppendRules(tmp.insts, rules[i..])
      {
        assert rules[i..][1..] == rules[i + 1..];
        match rules[i]
        case None =>
        case Some(rule) =>
          var ok := tmp.AppendRule(rule);
          if !ok {
            return Failed;
          }
      }
      assert rules[|rules|..] == [];
      var ok := tmp.Finalize();
      if !ok {
        return Panicked;
      }
      return Done(tmp.insts);
  }
}
