/** The cgroup v1 device controller in whitelist mode, as driven by pkg/util/cgroup.go. */
module CgroupV1 {
  import opened Bpf

  datatype DeviceKey = DeviceKey(kind: char, major: int, minor: int)

  datatype DeviceRule = DeviceRule(key: DeviceKey, access: set<Access>, allow: bool)

  type Whitelist = map<DeviceKey, set<Access>>

  function Perm(m: Whitelist, k: DeviceKey): set<Access> {
    if k in m then m[k] else {}
  }

  predicate Exist(rules: seq<DeviceRule>, k: DeviceKey) {
    exists r :: r in rules && r.key == k
  }

  /** What a list of rules, applied in order to an empty whitelist, grants to one device. */
  function Granted(rules: seq<DeviceRule>, k: DeviceKey): set<Access> {
    if rules == [] then {}
    else
      var last, before := rules[|rules| - 1], Granted(rules[..|rules| - 1], k);
      if last.key != k then before else if last.allow then before + last.access else before - last.access
  }

  /** Some rule for the device allows the access, and no later one for it denies it. */
  ghost predicate LastAllows(rules: seq<DeviceRule>, k: DeviceKey, x: Access) {
    exists i :: 0 <= i < |rules| && rules[i].key == k && rules[i].allow && x in rules[i].access
                && forall j :: i < j < |rules| && rules[j].key == k && !rules[j].allow ==> x !in rules[j].access
  }

  /** A last rule that does not concern the access of the device makes no difference. */
  lemma LastAllowsFront(rules: seq<DeviceRule>, k: DeviceKey, x: Access)
    requires rules != [] && var last := rules[|rules| - 1]; last.key != k || x !in last.access
    ensures LastAllows(rules, k, x) <==> LastAllows(rules[..|rules| - 1], k, x)
  {
    var n, front := |rules| - 1, rules[..|rules| - 1];
    assert forall i | 0 <= i < n :: front[i] == rules[i];
    if LastAllows(front, k, x) {
      var i :| 0 <= i < n && front[i].key == k && front[i].allow && x in front[i].access
               && forall j :: i < j < n && front[j].key == k && !front[j].allow ==> x !in front[j].access;
      assert rules[i].key == k;
    }
    if LastAllows(rules, k, x) {
      var i :| 0 <= i < |rules| && rules[i].key == k && rules[i].allow && x in rules[i].access
               && forall j :: i < j < |rules| && rules[j].key == k && !rules[j].allow ==> x !in rules[j].access;
      assert front[i].key == k;
    }
  }

  /** What a list grants, access by access. */
  lemma {:induction false} GrantedIff(rules: seq<DeviceRule>, k: DeviceKey, x: Access)
    ensures x in Granted(rules, k) <==> LastAllows(rules, k, x)
    decreases |rules|
  {
    if rules != [] {
      var last := rules[|rules| - 1];
      if last.key == k && x in last.access {
        assert LastAllows(rules, k, x) <==> last.allow;
      } else {
        LastAllowsFront(rules, k, x);
        GrantedIff(rules[..|rules| - 1], k, x);
      }
    }
  }

  /** The rules that describe a whitelist: one allow rule for each device, in some order. */
  ghost predicate Lists(rules: seq<DeviceRule>, m: Whitelist) {
    && (forall r :: r in rules ==> r.key in m && r.allow && r.access == m[r.key])
    && (forall k :: k in m ==> Exist(rules, k))
    && (forall i, j :: 0 <= i < j < |rules| ==> rules[i].key != rules[j].key)
  }

  /** The request on every device it mentions, the present whitelist elsewhere. */
  function Wanted(request: seq<DeviceRule>, m: Whitelist, k: DeviceKey): set<Access> {
    if Exist(request, k) then Granted(request, k) else Perm(m, k)
  }

  /** Every device has what it had and should keep, and nothing that it neither had nor should get. */
  ghost predicate OnTheWay(m: Whitelist, before: Whitelist, request: seq<DeviceRule>) {
    forall k ::
      Perm(before, k) * Wanted(request, before, k) <= Perm(m, k) <= Perm(before, k) + Wanted(request, before, k)
  }

  /** The new list in terms of the request's rules and of the old list. */
  ghost predicate AsRequested(after: Whitelist, before: Whitelist, request: seq<DeviceRule>) {
    forall k ::
      if exists r :: r in request && r.key == k
      then forall x :: (k in after && x in after[k]) <==> LastAllows(request, k, x)
      else (k in after <==> k in before) && (k in after ==> after[k] == before[k])
  }

  /** The resources object whose rule list the setter extends in place. */
  class Resources {
    var devices: seq<DeviceRule>

    constructor (devices: seq<DeviceRule>)
      ensures this.devices == devices
    {
      this.devices := devices;
    }
  }

  lemma {:induction false} GrantedAppends(a: seq<DeviceRule>, b: seq<DeviceRule>, k: DeviceKey)
    requires !Exist(b, k)
    ensures Granted(a + b, k) == Granted(a, k)
    decreases |b|
  {
    if b == [] {
      assert a + b == a;
    } else {
      assert (a + b)[..|a + b| - 1] == a + b[..|b| - 1];
      assert b[|b| - 1] in b;
      GrantedAppends(a, b[..|b| - 1], k);
    }
  }

  lemma {:induction false} GrantedOnlyBy(a: seq<DeviceRule>, b: seq<DeviceRule>, k: DeviceKey)
    requires !Exist(a, k)
    ensures Granted(a + b, k) == Granted(b, k)
    decreases |b|
  {
    if b == [] {
      assert a + b == [] + a;
      GrantedAppends([], a, k);
    } else {
      assert (a + b)[..|a + b| - 1] == a + b[..|b| - 1];
      GrantedOnlyBy(a, b[..|b| - 1], k);
    }
  }

  lemma GrantedAt(rules: seq<DeviceRule>, i: nat)
    requires i < |rules| && rules[i].allow
    requires forall a, b :: 0 <= a < b < |rules| ==> rules[a].key != rules[b].key
    ensures Granted(rules, rules[i].key) == rules[i].access
  {
    var r, k := rules[i], rules[i].key;
    assert Granted([r], k) == r.access;
    hide Granted;
    assert !Exist(rules[..i], k) && !Exist(rules[i + 1..], k);
    assert rules == rules[..i] + [r] + rules[i + 1..];
    GrantedAppends(rules[..i] + [r], rules[i + 1..], k);
    GrantedOnlyBy(rules[..i], [r], k);
  }

  lemma GrantedByList(rules: seq<DeviceRule>, m: Whitelist, k: DeviceKey)
    requires Lists(rules, m)
    ensures Granted(rules, k) == Perm(m, k)
  {
    if k in m {
      var r :| r in rules && r.key == k;
      var i :| 0 <= i < |rules| && rules[i] == r;
      GrantedAt(rules, i);
    } else {
      GrantedAppends([], rules, k);
      assert [] + rules == rules;
    }
  }

  /** The rules of the present whitelist that the request does not mention. */
  function Unmentioned(request: seq<DeviceRule>, rules: seq<DeviceRule>): seq<DeviceRule> {
    if rules == [] then []
    else
      var last := rules[|rules| - 1];
      Unmentioned(request, rules[..|rules| - 1]) + if Exist(request, last.key) then [] else [last]
  }

  lemma {:induction false} UnmentionedFrom(request: seq<DeviceRule>, rules: seq<DeviceRule>)
    ensures forall r :: r in Unmentioned(request, rules) ==> r in rules && !Exist(request, r.key)
    decreases |rules|
  {
    if rules != [] {
      UnmentionedFrom(request, rules[..|rules| - 1]);
    }
  }

  lemma {:induction false} UnmentionedGrants(request: seq<DeviceRule>, rules: seq<DeviceRule>, k: DeviceKey)
    requires !Exist(request, k)
    ensures Granted(Unmentioned(request, rules), k) == Granted(rules, k)
    decreases |rules|
  {
    if rules != [] {
      var front, last := rules[..|rules| - 1], rules[|rules| - 1];
      UnmentionedGrants(request, front, k);
      var u := Unmentioned(request, front);
      assert (u + [last])[..|u + [last]| - 1] == u;
      assert u + [] == u;
    }
  }

  /** Merging the present rules behind the request grants what is wanted. */
  lemma MergedGrants(request: seq<DeviceRule>, rules: seq<DeviceRule>, m: Whitelist, k: DeviceKey)
    requires Lists(rules, m)
    ensures Granted(request + Unmentioned(request, rules), k) == Wanted(request, m, k)
  {
    UnmentionedFrom(request, rules);
    if Exist(request, k) {
      GrantedAppends(request, Unmentioned(request, rules), k);
    } else {
      GrantedOnlyBy(request, Unmentioned(request, rules), k);
      UnmentionedGrants(request, rules, k);
      GrantedByList(rules, m, k);
    }
  }

  function Changed(perm: set<Access>, rule: DeviceRule): set<Access> {
    if rule.allow then perm + rule.access else perm - rule.access
  }

  /** The kernel's list after a write; a device without permissions leaves it. */
  function Written(m: Whitelist, rule: DeviceRule): (w: Whitelist)
    ensures forall k :: Perm(w, k) == if k == rule.key then Changed(Perm(m, k), rule) else Perm(m, k)
  {
    var perm := Changed(Perm(m, rule.key), rule);
    if perm == {} then m - {rule.key} else m[rule.key := perm]
  }

  /** The emulator's map after a rule; only a denial removes an entry. */
  function Applied(m: Whitelist, rule: DeviceRule): (w: Whitelist)
    ensures forall k :: Perm(w, k) == if k == rule.key then Changed(Perm(m, k), rule) else Perm(m, k)
  {
    var perm := Changed(Perm(m, rule.key), rule);
    if perm == {} && !rule.allow then m - {rule.key} else m[rule.key := perm]
  }

  /** An allow rule without accesses leaves an entry that the kernel's list never has. */
  predicate Vain(rule: DeviceRule) {
    rule.allow && rule.access == {}
  }

  predicate NoEmptyEntries(m: Whitelist) {
    forall k :: k in m ==> m[k] != {}
  }

  /** Applies the rules to a new emulator, which may refuse one. */
  method BuildTarget(rules: seq<DeviceRule>) returns (target: Whitelist, ok: bool)
    ensures ok ==> forall k :: Perm(target, k) == Granted(rules, k)
    ensures (forall rule :: rule in rules ==> !Vain(rule)) ==> NoEmptyEntries(target)
  {
    target := map[];
    for i := 0 to |rules|
      invariant forall k :: Perm(target, k) == Granted(rules[..i], k)
      invariant (forall rule :: rule in rules ==> !Vain(rule)) ==> NoEmptyEntries(target)
    {
      assert rules[i] in rules;
      assert rules[..i + 1][..i] == rules[..i];
      var applied: bool := *;
      if !applied {
        return target, false;
      }
      target := Applied(target, rules[i]);
    }
    assert rules[..|rules|] == rules;
    return target, true;
  }

  /** Appends every present rule whose device the list does not mention yet. */
  method MergeRules(r: Resources, rules: seq<DeviceRule>)
    requires forall a, b :: 0 <= a < b < |rules| ==> rules[a].key != rules[b].key
    modifies r
    ensures r.devices == old(r.devices) + Unmentioned(old(r.devices), rules)
  {
    ghost var request := r.devices;
    for i := 0 to |rules|
      invariant r.devices == request + Unmentioned(request, rules[..i])
    {
      assert rules[..i + 1][..i] == rules[..i];
      MergedExist(request, rules, i);
      var exist := Contains(r.devices, rules[i].key);
      if !exist {
        r.devices := r.devices + [rules[i]];
      }
    }
    assert rules[..|rules|] == rules;
  }

  /** Outside `todo`, nothing is granted that the target does not grant. */
  ghost predicate Within(m: Whitelist, target: Whitelist, todo: set<DeviceKey>) {
    forall k :: k !in todo ==> Perm(m, k) <= Perm(target, k)
  }

  /** Outside `todo`, everything is granted that the target grants. */
  ghost predicate Reaches(m: Whitelist, target: Whitelist, todo: set<DeviceKey>) {
    forall k :: k !in todo ==> Perm(target, k) <= Perm(m, k)
  }

  lemma StartsWithin(m: Whitelist, target: Whitelist)
    ensures Within(m, target, m.Keys) && Reaches(m, target, target.Keys)
  {
  }

  /** On every device, what `start` and `target` both grant is granted, and nothing that neither grants. */
  ghost predicate Between(m: Whitelist, start: Whitelist, target: Whitelist) {
    forall k :: Perm(start, k) * Perm(target, k) <= Perm(m, k) <= Perm(start, k) + Perm(target, k)
  }

  lemma StartsBetween(start: Whitelist, target: Whitelist)
    ensures Between(start, start, target)
  {
  }

  lemma StepStaysBetween(m: Whitelist, start: Whitelist, target: Whitelist, k: DeviceKey)
    requires Between(m, start, target)
    ensures Between(Written(m, DeviceRule(k, Perm(m, k) - Perm(target, k), false)), start, target)
    ensures Between(Written(m, DeviceRule(k, Perm(target, k) - Perm(m, k), true)), start, target)
  {
  }

  lemma BothWays(m: Whitelist, target: Whitelist)
    requires Within(m, target, {}) && Reaches(m, target, {})
    ensures forall k :: Perm(m, k) == Perm(target, k)
  {
  }

  lemma Dropped(m: Whitelist, target: Whitelist, todo: set<DeviceKey>, k: DeviceKey)
    requires Within(m, target, todo) && k in todo
    ensures Within(Written(m, DeviceRule(k, Perm(m, k) - Perm(target, k), false)), target, todo - {k})
    ensures Perm(m, k) - Perm(target, k) == {} ==> Within(m, target, todo - {k})
  {
  }

  lemma Gained(m: Whitelist, target: Whitelist, todo: set<DeviceKey>, k: DeviceKey)
    requires Within(m, target, {}) && Reaches(m, target, todo) && k in todo
    ensures Within(Written(m, DeviceRule(k, Perm(target, k) - Perm(m, k), true)), target, {})
    ensures Reaches(Written(m, DeviceRule(k, Perm(target, k) - Perm(m, k), true)), target, todo - {k})
    ensures Perm(target, k) - Perm(m, k) == {} ==> Reaches(m, target, todo - {k})
  {
  }

  /** With no empty entries, an entry is its device's permissions. */
  lemma EntriesArePerms(a: Whitelist, b: Whitelist, k: DeviceKey)
    requires NoEmptyEntries(a) && NoEmptyEntries(b) && Perm(a, k) == Perm(b, k)
    ensures (k in a <==> k in b) && (k in a ==> a[k] == b[k])
  {
  }

  lemma WantedIsRequested(after: Whitelist, before: Whitelist, request: seq<DeviceRule>)
    requires NoEmptyEntries(after) && NoEmptyEntries(before)
    requires forall k :: Perm(after, k) == Wanted(request, before, k)
    ensures AsRequested(after, before, request)
  {
    hide LastAllows, Granted, NoEmptyEntries;
    forall k
      ensures if exists r :: r in request && r.key == k
              then forall x :: (k in after && x in after[k]) <==> LastAllows(request, k, x)
              else (k in after <==> k in before) && (k in after ==> after[k] == before[k])
    {
      if exists r :: r in request && r.key == k {
        forall x
          ensures (k in after && x in after[k]) <==> LastAllows(request, k, x)
        {
          GrantedIff(request, k, x);
          assert Perm(after, k) == Granted(request, k);
        }
      } else {
        EntriesArePerms(after, before, k);
      }
    }
  }

  lemma SamePermsSameMap(a: Whitelist, b: Whitelist)
    requires NoEmptyEntries(a) && NoEmptyEntries(b) && forall k :: Perm(a, k) == Perm(b, k)
    ensures a == b
  {
    forall k
      ensures k in a <==> k in b
    {
      assert Perm(a, k) == Perm(b, k);
    }
    forall k | k in a
      ensures a[k] == b[k]
    {
      assert Perm(a, k) == Perm(b, k);
    }
  }

  lemma NothingVain(request: seq<DeviceRule>, rules: seq<DeviceRule>, m: Whitelist)
    requires Lists(rules, m) && NoEmptyEntries(m) && forall rule :: rule in request ==> !Vain(rule)
    ensures forall rule :: rule in request + Unmentioned(request, rules) ==> !Vain(rule)
  {
    UnmentionedFrom(request, rules);
  }

  class Controller {
    var list: Whitelist
    // A read, a write or the emulator has failed.
    ghost var callFailed: bool

    ghost predicate Valid()
      reads this
    {
      NoEmptyEntries(list)
    }

    /** The rules of the whitelist, in an arbitrary order. */
    method Rules() returns (rules: seq<DeviceRule>)
      ensures Lists(rules, list)
    {
      rules := [];
      var todo := list.Keys;
      while todo != {}
        invariant todo <= list.Keys
        invariant forall r :: r in rules ==> r.key in list && r.key !in todo && r.allow && r.access == list[r.key]
        invariant forall k :: k in list && k !in todo ==> Exist(rules, k)
        invariant forall i, j :: 0 <= i < j < |rules| ==> rules[i].key != rules[j].key
        decreases |todo|
      {
        var k :| k in todo;
        var rule := DeviceRule(k, list[k], true);
        ghost var before := rules;
        rules := rules + [rule];
        todo := todo - {k};
        forall x | x in list && x !in todo
          ensures Exist(rules, x)
        {
          if x == k {
            assert rule in rules;
          } else {
            var r :| r in before && r.key == x;
            assert r in rules;
          }
        }
      }
    }

    /** Writing to devices.allow or devices.deny; a write may fail. */
    method Write(rule: DeviceRule) returns (ok: bool)
      requires Valid()
      modifies this
      ensures Valid() && callFailed == (old(callFailed) || !ok)
      ensures list == if ok then Written(old(list), rule) else old(list)
    {
      ok := *;
      if ok {
        list := Written(list, rule);
      } else {
        callFailed := true;
      }
    }

    /** The transition: first what the target takes away, then what it adds. A failed write stops it. */
    method Transition(target: Whitelist) returns (ok: bool)
      requires Valid()
      modifies this
      ensures Valid() && callFailed == (old(callFailed) || !ok)
      ensures ok ==> forall k :: Perm(list, k) == Perm(target, k)
      ensures Between(list, old(list), target)
    {
      hide Perm, Within, Reaches, Between, Written, NoEmptyEntries;
      StartsBetween(list, target);
      var drops := list.Keys;
      StartsWithin(list, target);
      while drops != {}
        invariant Valid() && callFailed == old(callFailed) && Between(list, old(list), target)
        invariant Within(list, target, drops)
        decreases |drops|
      {
        var k :| k in drops;
        var dropped := Perm(list, k) - Perm(target, k);
        Dropped(list, target, drops, k);
        StepStaysBetween(list, old(list), target, k);
        if dropped != {} {
          ok := Write(DeviceRule(k, dropped, false));
          if !ok {
            return;
          }
        }
        drops := drops - {k};
      }
      var gains := target.Keys;
      StartsWithin(list, target);
      while gains != {}
        invariant Valid() && callFailed == old(callFailed) && Between(list, old(list), target)
        invariant Within(list, target, {}) && Reaches(list, target, gains)
        decreases |gains|
      {
        var k :| k in gains;
        var gained := Perm(target, k) - Perm(list, k);
        Gained(list, target, gains, k);
        StepStaysBetween(list, old(list), target, k);
        if gained != {} {
          ok := Write(DeviceRule(k, gained, true));
          if !ok {
            return;
          }
        }
        gains := gains - {k};
      }
      BothWays(list, target);
      ok := true;
    }

    /**
     SetDeviceRulesByCgroupv1. The old rules become the rollback's once the writes may have begun; `r`
     ends up with the merged list. Loading the list and applying a rule to the emulator may fail.
     */
    method SetDeviceRules(r: Resources) returns (ok: bool, armed: bool, undo: seq<DeviceRule>)
      requires Valid()
      modifies this, r
      ensures Valid() && (old(callFailed) ==> callFailed)
      ensures !armed ==> !ok && list == old(list)
      ensures armed ==> Lists(undo, old(list)) && r.devices == old(r.devices) + Unmentioned(old(r.devices), undo)
      ensures ok ==> forall k :: Perm(list, k) == Wanted(old(r.devices), old(list), k)
      // A device of the request has exactly the accesses that the request allows last, any other its old ones.
      ensures ok ==> AsRequested(list, old(list), old(r.devices))
      // However it ends, every device is between its old permissions and the wanted ones.
      ensures OnTheWay(list, old(list), old(r.devices))
      // Without a failed call it only fails the final check, and only for an allow rule without accesses.
      ensures !ok && !callFailed ==> armed && exists rule :: rule in old(r.devices) && Vain(rule)
    {
      ok, armed, undo := false, false, [];
      var loaded: bool := *;
      if !loaded {
        callFailed := true;
        return;
      }
      var rules := Rules();
      ghost var request := r.devices;
      MergeRules(r, rules);
      var target, applied := BuildTarget(r.devices);
      if !applied {
        callFailed := true;
        return;
      }
      if forall rule :: rule in request ==> !Vain(rule) {
        NothingVain(request, rules, list);
      }
      forall k
        ensures Perm(target, k) == Wanted(request, list, k)
      {
        MergedGrants(request, rules, list, k);
      }
      armed, undo := true, rules;
      ok := Transition(target);
      if !ok {
        return;
      }
      WantedIsRequested(list, old(list), request);
      var reloaded: bool := *;
      if !reloaded {
        callFailed := true;
        return false, armed, undo;
      }
      if NoEmptyEntries(target) {
        SamePermsSameMap(list, target);
      }
      if list != target {
        ok := false;
      }
    }

    /** The rollback: the old rules are requested again. Without old rules it does nothing. */
    method RollBack(rules: seq<DeviceRule>, ghost before: Whitelist) returns (ok: bool)
      requires Valid() && Lists(rules, before) && NoEmptyEntries(before)
      modifies this
      ensures Valid() && (!callFailed ==> ok)
      ensures OnTheWay(list, old(list), rules)
      ensures ok ==> forall k ::
                if k in before then k in list && list[k] == before[k]
                else (k in list <==> k in old(list)) && (k in list ==> list[k] == old(list)[k])
      ensures ok ==> forall k :: Perm(list, k) == if k in before then before[k] else old(Perm(list, k))
    {
      if rules == [] {
        return true;
      }
      var r := new Resources(rules);
      ghost var mid := list;
      var armed, undo;
      ok, armed, undo := SetDeviceRules(r);
      if ok {
        forall k
          ensures Wanted(rules, mid, k) == if k in before then before[k] else Perm(mid, k)
        {
          GrantedByList(rules, before, k);
        }
      }
    }
  }

  method Contains(rules: seq<DeviceRule>, k: DeviceKey) returns (found: bool)
    ensures found == Exist(rules, k)
  {
    for i := 0 to |rules|
      invariant !Exist(rules[..i], k)
    {
      assert rules[..i + 1] == rules[..i] + [rules[i]];
      if rules[i].key == k {
        assert rules[i] in rules;
        return true;
      }
    }
    assert rules[..|rules|] == rules;
    return false;
  }

  /** Whether a listed rule is already in the merged list depends on the request alone. */
  lemma MergedExist(request: seq<DeviceRule>, rules: seq<DeviceRule>, i: nat)
    requires i < |rules| && forall a, b :: 0 <= a < b < |rules| ==> rules[a].key != rules[b].key
    ensures Exist(request + Unmentioned(request, rules[..i]), rules[i].key) <==> Exist(request, rules[i].key)
  {
    var u, k := Unmentioned(request, rules[..i]), rules[i].key;
    UnmentionedFrom(request, rules[..i]);
    if r :| r in request && r.key == k {
      assert r in request + u;
    }
  }

  ghost predicate SamePermissions(a: Whitelist, b: Whitelist) {
    forall k :: Perm(a, k) == Perm(b, k)
  }

  /** The request grants nothing to a device that has no entry yet. */
  ghost predicate GrantsNothingNew(request: seq<DeviceRule>, before: Whitelist) {
    forall k :: k !in before ==> Granted(request, k) == {}
  }

  /** `after` is what a completed rollback to `before` makes of `mid`. */
  ghost predicate RolledBack(before: Whitelist, mid: Whitelist, after: Whitelist) {
    forall k :: Perm(after, k) == if k in before then before[k] else Perm(mid, k)
  }

  lemma WantedIsNew(request: seq<DeviceRule>, before: Whitelist, k: DeviceKey)
    requires k !in before
    ensures Wanted(request, before, k) == Granted(request, k)
  {
    if !Exist(request, k) {
      GrantedAppends([], request, k);
      assert [] + request == request;
    }
  }

  /**
   After a request that succeeded and its completed rollback, the permissions are the old ones exactly when
   the request grants nothing to a device without an entry.
   */
  lemma RollBackRestoresIff(request: seq<DeviceRule>, before: Whitelist, mid: Whitelist, after: Whitelist)
    requires forall k :: Perm(mid, k) == Wanted(request, before, k)
    requires RolledBack(before, mid, after)
    ensures SamePermissions(after, before) <==> GrantsNothingNew(request, before)
  {
    hide Granted, Wanted;
    forall k | k !in before
      ensures Perm(after, k) == Granted(request, k)
    {
      WantedIsNew(request, before, k);
    }
    if !GrantsNothingNew(request, before) {
      var k :| k !in before && Granted(request, k) != {};
      assert Perm(after, k) != Perm(before, k);
    }
  }

  /** The same request is undone also when it stopped half-way. */
  lemma PartialRollBackRestores(request: seq<DeviceRule>, before: Whitelist, mid: Whitelist, after: Whitelist)
    requires OnTheWay(mid, before, request) && RolledBack(before, mid, after) && GrantsNothingNew(request, before)
    ensures SamePermissions(after, before)
  {
    hide Granted, Wanted;
    forall k | k !in before
      ensures Perm(after, k) == {}
    {
      WantedIsNew(request, before, k);
    }
  }

  lemma {:induction false} DenialsGrantNothing(request: seq<DeviceRule>, k: DeviceKey)
    requires forall r :: r in request ==> !r.allow
    ensures Granted(request, k) == {}
    decreases |request|
  {
    if request != [] {
      assert request[|request| - 1] in request;
      DenialsGrantNothing(request[..|request| - 1], k);
    }
  }

  /**
   Sets the rules and then runs the rollback that the setter returned, whether or not it succeeded. `ok` is
   the setter's success and `done` the rollback's.
   */
  method SetAndRollBack(c: Controller, r: Resources) returns (ok: bool, done: bool)
    requires c.Valid()
    modifies c, r
    ensures c.Valid() && (!c.callFailed ==> done)
    ensures done && GrantsNothingNew(old(r.devices), old(c.list)) ==> SamePermissions(c.list, old(c.list))
    ensures ok && done ==>
              (SamePermissions(c.list, old(c.list)) <==> GrantsNothingNew(old(r.devices), old(c.list)))
  {
    hide OnTheWay, SamePermissions, GrantsNothingNew;
    ghost var before, request := c.list, r.devices;
    var armed, undo;
    ok, armed, undo := c.SetDeviceRules(r);
    if !armed {
      SameAsItself(before);
      return false, true;
    }
    ghost var mid := c.list;
    done := c.RollBack(undo, before);
    if done && GrantsNothingNew(request, before) {
      PartialRollBackRestores(request, before, mid, c.list);
    }
    if ok && done {
      RollBackRestoresIff(request, before, mid, c.list);
    }
  }

  lemma SameAsItself(m: Whitelist)
    ensures SamePermissions(m, m)
  {
  }

  /** A deny-only request, set or failed half-way, and rolled back, leaves the permissions as they were. */
  method DenyAndRollBack(c: Controller, r: Resources) returns (done: bool)
    requires c.Valid() && forall x :: x in r.devices ==> !x.allow
    modifies c, r
    ensures c.Valid() && (!c.callFailed ==> done)
    ensures done ==> SamePermissions(c.list, old(c.list))
  {
    forall k
      ensures Granted(r.devices, k) == {}
    {
      DenialsGrantNothing(r.devices, k);
    }
    var ok;
    ok, done := SetAndRollBack(c, r);
  }
}
