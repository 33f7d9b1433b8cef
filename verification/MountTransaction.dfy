/**
 MountDevice and UnMountDevice of pkg/server/mounter/server.go from the creation of slave pods, or the
 setting of device rules, on. What the device plugin and the kubelet answer is arbitrary.
 */
module MountTransaction {
  import opened Bpf
  import opened DeviceFilter
  import opened DeviceFiles
  import opened FilterRefinement
  import FilterEdits
  import FilterRoundTrip
  import FilterRuns
  import FilterSemantics
  import FilterTheorems
  import opened FilterSwap
  import opened SlavePods

  function RulesOf(infos: seq<DeviceInfo>): (r: seq<Rule>)
    ensures |r| == |infos| && forall i :: 0 <= i < |r| ==> r[i] == infos[i].rule
  {
    seq(|infos|, i requires 0 <= i < |infos| => infos[i].rule)
  }

  function KeysOf(pods: seq<Pod>): (r: seq<ObjectKey>)
    ensures |r| == |pods|
    ensures forall i :: 0 <= i < |r| ==> r[i] == KeyOf(pods[i])
  {
    seq(|pods|, i requires 0 <= i < |pods| => KeyOf(pods[i]))
  }

  function PodNames(pods: seq<Pod>): set<PodName> {
    set p | p in pods :: p.name
  }

  /** `keys` are the pods that were added to `before` to give `after`. */
  ghost predicate Added(before: map<PodName, Uid>, after: map<PodName, Uid>, keys: seq<ObjectKey>) {
    && after.Keys == before.Keys + PodsOf(keys)
    && (forall n :: n in before ==> after[n] == before[n])
    && (forall k :: k in keys ==> k.pod !in before && Means(k, after))
    && (forall i, j :: 0 <= i < j < |keys| ==> keys[i].pod != keys[j].pod)
  }

  lemma AddedOne(before: map<PodName, Uid>, mid: map<PodName, Uid>, after: map<PodName, Uid>, keys: seq<ObjectKey>,
                 key: ObjectKey)
    requires Added(before, mid, keys) && key.pod !in mid && key.uid.Some? && after == mid[key.pod := key.uid.value]
    ensures Added(before, after, keys + [key])
  {
    var more := keys + [key];
    assert PodsOf(more) == PodsOf(keys) + {key.pod};
    forall i, j | 0 <= i < j < |more|
      ensures more[i].pod != more[j].pod
    {
      assert keys[i] in keys;
    }
    forall x | x in more
      ensures x.pod !in before && Means(x, after)
    {
      assert x in keys || x == key;
    }
  }

  lemma NameIsTaken(before: map<PodName, Uid>, mid: map<PodName, Uid>, keys: seq<ObjectKey>, templates: seq<PodName>,
                    i: nat)
    requires Added(before, mid, keys) && |keys| == i < |templates|
    requires forall j :: 0 <= j < i ==> keys[j].pod == templates[j]
    ensures templates[i] in mid ==> !NamesFree(templates, before)
  {
    if templates[i] in mid && templates[i] !in before {
      var x :| x in keys && x.pod == templates[i];
      var j :| 0 <= j < |keys| && keys[j] == x;
      assert templates[j] == templates[i];
    }
  }

  /** No pod has one of the names, and no name is used twice. */
  predicate NamesFree(templates: seq<PodName>, pods: map<PodName, Uid>) {
    && (forall i :: 0 <= i < |templates| ==> templates[i] !in pods)
    && (forall i, j :: 0 <= i < j < |templates| ==> templates[i] != templates[j])
  }

  /** The create loop: stops at the first failure, and keeps the keys of what was created. */
  method CreateSlavePods(k: Cluster, templates: seq<PodName>) returns (keys: seq<ObjectKey>, ok: bool)
    requires k.Valid()
    modifies k
    ensures k.Valid() && Added(old(k.pods), k.pods, keys)
    ensures |keys| <= |templates| && (ok <==> |keys| == |templates|)
    ensures forall i :: 0 <= i < |keys| ==> keys[i].pod == templates[i]
    ensures (old(k.callFailed) ==> k.callFailed) && (ok || k.callFailed || !NamesFree(templates, old(k.pods)))
  {
    keys := [];
    for i := 0 to |templates|
      invariant k.Valid() && Added(old(k.pods), k.pods, keys)
      invariant |keys| == i && forall j :: 0 <= j < i ==> keys[j].pod == templates[j]
      invariant old(k.callFailed) ==> k.callFailed
    {
      ghost var mid := k.pods;
      var key := k.Create(templates[i]);
      if key.None? {
        NameIsTaken(old(k.pods), mid, keys, templates, i);
        return keys, false;
      }
      AddedOne(old(k.pods), mid, k.pods, keys, key.value);
      keys := keys + [key.value];
    }
    return keys, true;
  }

  lemma {:induction false} ChosenNames(keys: seq<ObjectKey>, n: nat, round: Round, status: Status)
    requires n <= |keys|
    ensures forall i :: 0 <= i < n && Found(keys, i, round) && StatusAt(keys, i, round) == status ==>
              keys[i].pod in PodNames(Chosen(keys, n, round, status))
    decreases n
  {
    if n > 0 {
      ChosenNames(keys, n - 1, round, status);
      var front := Chosen(keys, n - 1, round, status);
      var all := Chosen(keys, n, round, status);
      assert forall p :: p in front ==> p in all;
      if Found(keys, n - 1, round) && StatusAt(keys, n - 1, round) == status {
        assert PodAt(keys, n - 1, round) in all;
      }
    }
  }

  /** Of pods with different names, each is either ready or skipped. */
  lemma ReadyAndSkippedSplit(keys: seq<ObjectKey>, round: Round)
    requires Passes(keys, |keys|, round)
    requires forall i, j :: 0 <= i < j < |keys| ==> keys[i].pod != keys[j].pod
    ensures var ready := PodNames(Chosen(keys, |keys|, round, Success));
            var skipped := PodNames(Chosen(keys, |keys|, round, Skip));
            ready !! skipped && ready + skipped == PodsOf(keys)
  {
    var ready, skipped := Chosen(keys, |keys|, round, Success), Chosen(keys, |keys|, round, Skip);
    ChosenNames(keys, |keys|, round, Success);
    ChosenNames(keys, |keys|, round, Skip);
    forall n | n in PodsOf(keys)
      ensures n in PodNames(ready) + PodNames(skipped)
    {
      var i :| 0 <= i < |keys| && keys[i].pod == n;
      assert Found(keys, i, round);
    }
    forall a | 0 <= a < |ready|
      ensures ready[a].name in PodsOf(keys) && ready[a].name !in PodNames(skipped)
    {
      var i := ChosenComesFrom(keys, |keys|, round, Success, a);
      assert keys[i] in keys;
      forall b | 0 <= b < |skipped|
        ensures skipped[b].name != ready[a].name
      {
        var j := ChosenComesFrom(keys, |keys|, round, Skip, b);
      }
    }
    forall b | 0 <= b < |skipped|
      ensures skipped[b].name in PodsOf(keys)
    {
      var j := ChosenComesFrom(keys, |keys|, round, Skip, b);
      assert keys[j] in keys;
    }
  }

  /** How far a transaction came: the rule rollback, the filters it starts from, whether files were touched. */
  datatype Progress = Progress(rules: RuleUndo, swapped: seq<Prog>, files: bool)

  /**
   What the deferred function leaves of the filter when its kernel call succeeds: the original, except
   after a finished swap without BPF_F_REPLACE, which leaves none.
   */
  ghost predicate FilterUndone(before: seq<Prog>, after: seq<Prog>, replace: bool, reached: Progress) {
    if !replace && reached.rules.DetachNew? && reached.swapped == [reached.rules.installed] then after == []
    else after == before
  }

  lemma RulesAreUndone(before: seq<Prog>, rules: seq<Rule>, replace: bool, reached: Progress)
    requires UndoFits(before, reached.swapped, rules, replace, reached.rules)
    ensures FilterUndone(before, Undone(reached.swapped, reached.rules), replace, reached)
  {
    if !reached.rules.NilUndo? {
      UndoRestores(before, reached.swapped, reached.rules);
    }
  }

  lemma NothingToUndo(before: seq<Prog>, history: seq<seq<Prog>>, rules: seq<Rule>, replace: bool)
    ensures UndoFits(before, before, rules, replace, NilUndo) && SwapPath(history, history, before, NilUndo)
    ensures SwapAndBack(history, history, before, replace, NilUndo)
  {
  }

  /**
   Every state that was added to the history is one of the swap's, but for one that has no filter: where a
   finished swap without BPF_F_REPLACE was undone.
   */
  ghost predicate SwapAndBack(before: seq<seq<Prog>>, after: seq<seq<Prog>>, origin: seq<Prog>, replace: bool,
                              undo: RuleUndo) {
    || SwapPath(before, after, origin, undo)
    || (!replace && after != [] && after[|after| - 1] == [] && SwapPath(before, after[..|after| - 1], origin, undo))
  }

  lemma UndoGoesBack(start: seq<seq<Prog>>, mid: seq<seq<Prog>>, end: seq<seq<Prog>>, before: seq<Prog>,
                     rules: seq<Rule>, replace: bool, reached: Progress)
    requires SwapPath(start, mid, before, reached.rules)
    requires UndoFits(before, reached.swapped, rules, replace, reached.rules)
    requires end == mid || (!reached.rules.NilUndo? && end == mid + [Undone(reached.swapped, reached.rules)])
    ensures SwapAndBack(start, end, before, replace, reached.rules)
  {
    RulesAreUndone(before, rules, replace, reached);
    if end != mid {
      assert end[..|end| - 1] == mid;
    }
  }

  lemma PodsAreFromView(keys: seq<ObjectKey>, round: Round)
    ensures forall status, p :: p in Chosen(keys, |keys|, round, status) ==>
              p.name in round.view && p.uid == round.view[p.name]
  {
    forall status, p | p in Chosen(keys, |keys|, round, status)
      ensures p.name in round.view && p.uid == round.view[p.name]
    {
      var a :| 0 <= a < |Chosen(keys, |keys|, round, status)| && Chosen(keys, |keys|, round, status)[a] == p;
      var i := ChosenComesFrom(keys, |keys|, round, status, a);
    }
  }

  /** Ready and skipped pods share out the created ones. */
  predicate SharedOut(keys: seq<ObjectKey>, pods: map<PodName, Uid>, ready: seq<Pod>, skipped: seq<Pod>) {
    && ready != [] && PodNames(ready) !! PodNames(skipped)
    && PodNames(ready) + PodNames(skipped) == PodsOf(keys) && |ready| + |skipped| == |keys|
    && (forall p :: p in ready ==> p.name in pods && p.uid == pods[p.name])
    && (forall p :: p in skipped ==> p.name in pods && p.uid == pods[p.name])
  }

  predicate Passing(reply: Reply) {
    reply == Judged(Success) || reply == Judged(Skip)
  }

  /**
   The replies for `n` keys let the wait succeed: in some round all keys pass, one of them as ready, and in
   every round before the first key that does not pass has to be waited for.
   */
  predicate ReadyInTime(n: nat, replies: seq<nat -> Reply>) {
    exists last :: 0 <= last < |replies| && AllPass(n, replies[last]) && SomeReady(n, replies[last])
                   && forall r :: 0 <= r < last ==> SomeWait(n, replies[r])
  }

  predicate AllPass(n: nat, reply: nat -> Reply) {
    forall i :: 0 <= i < n ==> Passing(reply(i))
  }

  predicate SomeReady(n: nat, reply: nat -> Reply) {
    exists i :: 0 <= i < n && reply(i) == Judged(Success)
  }

  predicate SomeWait(n: nat, reply: nat -> Reply) {
    exists i :: 0 <= i < n && reply(i) == Judged(Wait) && AllPass(i, reply)
  }

  /** In one round all these pods, found under keys, were judged so. */
  predicate JudgedAs(keys: seq<ObjectKey>, replies: seq<nat -> Reply>, pods: seq<Pod>, status: Status) {
    exists r :: 0 <= r < |replies| && AllJudged(keys, replies[r], pods, status)
  }

  predicate AllJudged(keys: seq<ObjectKey>, reply: nat -> Reply, pods: seq<Pod>, status: Status) {
    forall a :: 0 <= a < |pods| ==>
      exists i :: 0 <= i < |keys| && keys[i].pod == pods[a].name && reply(i) == Judged(status)
  }

  predicate KeysIn(keys: seq<ObjectKey>, pods: map<PodName, Uid>) {
    forall i :: 0 <= i < |keys| ==> keys[i].pod in pods
  }

  lemma PassesIff(keys: seq<ObjectKey>, n: nat, pods: map<PodName, Uid>, reply: nat -> Reply)
    requires n <= |keys| && KeysIn(keys, pods)
    ensures Passes(keys, n, Round(pods, reply)) <==> AllPass(n, reply)
  {
    forall i | 0 <= i < n
      ensures Passing(reply(i)) <==>
                && Found(keys, i, Round(pods, reply))
                && StatusAt(keys, i, Round(pods, reply)) in {Success, Skip}
    {
    }
  }

  lemma MustWaitIff(keys: seq<ObjectKey>, pods: map<PodName, Uid>, reply: nat -> Reply)
    requires KeysIn(keys, pods)
    ensures MustWait(keys, Round(pods, reply)) <==> SomeWait(|keys|, reply)
  {
    forall i | 0 <= i < |keys|
      ensures Passes(keys, i, Round(pods, reply)) <==> AllPass(i, reply)
      ensures Found(keys, i, Round(pods, reply)) <==> reply(i).Judged?
    {
      PassesIff(keys, i, pods, reply);
    }
    hide Passes, AllPass;
  }

  lemma ChosenIff(keys: seq<ObjectKey>, pods: map<PodName, Uid>, reply: nat -> Reply, status: Status)
    requires KeysIn(keys, pods)
    ensures var chosen := Chosen(keys, |keys|, Round(pods, reply), status);
            && AllJudged(keys, reply, chosen, status)
            && (chosen != [] <==> exists i :: 0 <= i < |keys| && reply(i) == Judged(status))
  {
    var round := Round(pods, reply);
    var chosen := Chosen(keys, |keys|, round, status);
    forall a | 0 <= a < |chosen|
      ensures exists i :: 0 <= i < |keys| && keys[i].pod == chosen[a].name && reply(i) == Judged(status)
    {
      var i := ChosenComesFrom(keys, |keys|, round, status, a);
    }
    if chosen != [] {
      var i := ChosenComesFrom(keys, |keys|, round, status, 0);
    }
    if i :| 0 <= i < |keys| && reply(i) == Judged(status) {
      ChosenNames(keys, |keys|, round, status);
      assert Found(keys, i, round) && StatusAt(keys, i, round) == status;
    }
  }

  /** The rounds of a wait in which the pods stay as they are. */
  function Rounds(pods: map<PodName, Uid>, replies: seq<nat -> Reply>): (r: seq<Round>)
    ensures |r| == |replies| && forall i :: 0 <= i < |r| ==> r[i] == Round(pods, replies[i])
  {
    seq(|replies|, r requires 0 <= r < |replies| => Round(pods, replies[r]))
  }

  lemma SettlesIff(keys: seq<ObjectKey>, pods: map<PodName, Uid>, replies: seq<nat -> Reply>, last: nat)
    requires KeysIn(keys, pods)
    ensures Settles(keys, Rounds(pods, replies), last) <==>
              && last < |replies| && AllPass(|keys|, replies[last])
              && forall r :: 0 <= r < last ==> SomeWait(|keys|, replies[r])
  {
    hide Passes, MustWait, AllPass, SomeWait;
    forall r | 0 <= r < |replies|
      ensures Passes(keys, |keys|, Rounds(pods, replies)[r]) <==> AllPass(|keys|, replies[r])
      ensures MustWait(keys, Rounds(pods, replies)[r]) <==> SomeWait(|keys|, replies[r])
    {
      PassesIff(keys, |keys|, pods, replies[r]);
      MustWaitIff(keys, pods, replies[r]);
    }
  }

  lemma RoundsAgree(n: nat, replies: seq<nat -> Reply>, a: nat, b: nat)
    requires a < |replies| && AllPass(n, replies[a]) && forall r :: 0 <= r < a ==> SomeWait(n, replies[r])
    requires b < |replies| && AllPass(n, replies[b]) && forall r :: 0 <= r < b ==> SomeWait(n, replies[r])
    ensures a == b
  {
  }

  /** Waits for the created pods, and fails too when none of them is ready. */
  method AwaitPods(keys: seq<ObjectKey>, pods: map<PodName, Uid>, replies: seq<nat -> Reply>)
    returns (ready: seq<Pod>, skipped: seq<Pod>, ok: bool)
    requires forall i, j :: 0 <= i < j < |keys| ==> keys[i].pod != keys[j].pod
    requires KeysIn(keys, pods)
    ensures ok <==> ReadyInTime(|keys|, replies)
    ensures ok ==> SharedOut(keys, pods, ready, skipped)
    ensures ok ==> JudgedAs(keys, replies, ready, Success) && JudgedAs(keys, replies, skipped, Skip)
  {
    hide Passes, MustWait, AllPass, SomeWait, SharedOut, AllJudged, Settles, GivesUp, KeysIn;
    var rounds := Rounds(pods, replies);
    ghost var last, starts;
    ready, skipped, ok, last, starts := WaitSupportPodsReady(keys, rounds);
    forall r: nat
      ensures Settles(keys, rounds, r) <==>
                && r < |replies| && AllPass(|keys|, replies[r])
                && forall q :: 0 <= q < r ==> SomeWait(|keys|, replies[q])
    {
      SettlesIff(keys, pods, replies, r);
    }
    if ok {
      ChosenIff(keys, pods, replies[last], Success);
      ChosenIff(keys, pods, replies[last], Skip);
      SplitRound(keys, pods, rounds, last);
      forall r: nat | Settles(keys, rounds, r)
        ensures r == last
      {
        RoundsAgree(|keys|, replies, r, last);
      }
    }
    if ready == [] {
      ok := false;
    }
  }

  lemma SplitRound(keys: seq<ObjectKey>, pods: map<PodName, Uid>, rounds: seq<Round>, last: nat)
    requires forall i, j :: 0 <= i < j < |keys| ==> keys[i].pod != keys[j].pod
    requires Settles(keys, rounds, last) && rounds[last].view == pods
    ensures var ready := Chosen(keys, |keys|, rounds[last], Success);
            var skipped := Chosen(keys, |keys|, rounds[last], Skip);
            ready != [] ==> SharedOut(keys, pods, ready, skipped)
  {
    ChosenCount(keys, |keys|, rounds[last]);
    ReadyAndSkippedSplit(keys, rounds[last]);
    PodsAreFromView(keys, rounds[last]);
  }

  /** There is nothing to create, a name is taken, or the pods do not get ready. */
  predicate Unready(templates: seq<PodName>, pods: map<PodName, Uid>, replies: seq<nat -> Reply>) {
    templates == [] || !NamesFree(templates, pods) || !ReadyInTime(|templates|, replies)
  }

  /** The part of MountDevice that creates the slave pods and waits for them. */
  method PreparePods(k: Cluster, templates: seq<PodName>, replies: seq<nat -> Reply>)
    returns (keys: seq<ObjectKey>, ready: seq<Pod>, skipped: seq<Pod>, ok: bool)
    requires k.Valid()
    modifies k
    ensures k.Valid() && (old(k.callFailed) ==> k.callFailed)
    ensures Added(old(k.pods), k.pods, keys) && PodsKept(old(k.pods), k.pods)
    ensures ok ==> keys != [] && |keys| == |templates| && SharedOut(keys, k.pods, ready, skipped)
    ensures ok ==> JudgedAs(keys, replies, ready, Success) && JudgedAs(keys, replies, skipped, Skip)
    ensures !ok ==> k.callFailed || Unready(templates, old(k.pods), replies)
  {
    hide Added, PodsKept, SharedOut, JudgedAs, NamesFree, ReadyInTime, KeysIn;
    ready, skipped := [], [];
    keys, ok := CreateSlavePods(k, templates);
    AddedKeeps(old(k.pods), k.pods, keys);
    if !ok || keys == [] {
      ok := false;
      return;
    }
    ready, skipped, ok := AwaitPods(keys, k.pods, replies);
  }

  /** Every pod of `before` is still there. */
  ghost predicate PodsKept(before: map<PodName, Uid>, after: map<PodName, Uid>) {
    forall n :: n in before ==> n in after && after[n] == before[n]
  }

  /** What the plugin and the lookup of cgroup path and processes answer. */
  datatype Answers = Answers(listed: Exit, pathsFound: bool, actions: Exit)

  /** There is not exactly one filter, or a rule is refused. */
  predicate Unsettable(before: seq<Prog>, infos: seq<DeviceInfo>) {
    |before| != 1 || exists d :: d in infos && !Accepted(d.rule)
  }

  /** No error was passed over: none came up, or not all rules allow everything. */
  predicate NothingPassedOver(infos: seq<DeviceInfo>, failed: bool) {
    !failed || exists d :: d in infos && !(d.rule.allow && IsRWM(d.rule.permissions))
  }

  /** The filter to be rewritten is too short, as a bare return is. */
  predicate TooShortIn(attached: seq<Prog>) {
    |attached| == 1 && TooShort(attached[0].code)
  }

  /**
   The devices of the list can be set on a filter with the added rules `s`: its other blocks name none of
   them, and rules for one device are the same, with the permissions that `s` has for it.
   */
  ghost predicate Settable(pro: Program, bs: seq<Program>, s: seq<Rule>, infos: seq<DeviceInfo>)
    requires bs != []
  {
    && (forall d :: d in infos ==>
          Accepted(d.rule) && FilterSemantics.Concrete(d.rule) && FilterRoundTrip.Unnamed(pro, bs, d.rule))
    && (forall a, b :: a in infos && b in infos && FilterRuns.SameName(a.rule, b.rule) ==> a.rule == b.rule)
    && (forall x, d :: x in s && d in infos && FilterRuns.SameName(x, d.rule) ==> x.permissions == d.rule.permissions)
  }

  /** Every request that a listed device's rule speaks of is decided by it, unless an old clause matches. */
  ghost predicate DecidesAsListed(before: seq<Prog>, after: seq<Prog>, infos: seq<DeviceInfo>) {
    forall pro, bs, cs, s ::
      |before| == 1 && FilterRoundTrip.Extends(before[0].code, pro, bs, cs, false, s) && Settable(pro, bs, s, infos) ==>
        forall d, req :: d in infos && FilterSemantics.AsWritten(d.rule, req) ==>
          (EffectivelyAllows(after, req) <==> FilterSemantics.FirstMatch(cs, d.rule.allow, req))
  }

  lemma InfosAreRules(infos: seq<DeviceInfo>)
    ensures forall d :: d in infos ==> d.rule in RulesOf(infos)
    ensures forall x :: x in RulesOf(infos) ==> exists d :: d in infos && d.rule == x
  {
    forall d | d in infos
      ensures d.rule in RulesOf(infos)
    {
      var i :| 0 <= i < |infos| && infos[i] == d;
      assert RulesOf(infos)[i] == d.rule;
    }
    forall x | x in RulesOf(infos)
      ensures exists d :: d in infos && d.rule == x
    {
      var i :| 0 <= i < |infos| && RulesOf(infos)[i] == x;
      assert infos[i] in infos;
    }
  }

  lemma SettableRules(pro: Program, bs: seq<Program>, s: seq<Rule>, infos: seq<DeviceInfo>)
    requires bs != [] && Settable(pro, bs, s, infos)
    ensures FilterRoundTrip.CanPlace(pro, bs, s, RulesOf(infos))
  {
    InfosAreRules(infos);
    hide FilterRoundTrip.Unnamed, Accepted;
    var rules := RulesOf(infos);
    forall i | 0 <= i < |rules|
      ensures Accepted(rules[i]) && FilterSemantics.Concrete(rules[i])
    {
      assert infos[i] in infos;
    }
  }

  lemma OneProgramAllows(p: Prog, req: Request, allow: bool)
    requires Decides(p.code, req, allow)
    ensures EffectivelyAllows([p], req) <==> allow
  {
    hide Decides;
    assert p in [p];
    if Decides(p.code, req, true) {
      FilterTheorems.DecisionIsUnique(p.code, req, true, allow);
    }
  }

  lemma InForceDecides(before: seq<Prog>, after: seq<Prog>, infos: seq<DeviceInfo>)
    requires InForce(before, after, RulesOf(infos))
    ensures DecidesAsListed(before, after, infos)
  {
    hide Rewrite, Encodes, FilterRoundTrip.Blocks, FilterRoundTrip.Effects, FilterRoundTrip.OneEach, Settable;
    hide FilterSemantics.AsWritten, EffectivelyAllows, RulesOf, Decides;
    forall pro, bs, cs, s | FilterRoundTrip.Extends(before[0].code, pro, bs, cs, false, s) && bs != []
                            && Settable(pro, bs, s, infos)
      ensures forall d, req :: d in infos && FilterSemantics.AsWritten(d.rule, req) ==>
                (EffectivelyAllows(after, req) <==> FilterSemantics.FirstMatch(cs, d.rule.allow, req))
    {
      forall d, req | d in infos && FilterSemantics.AsWritten(d.rule, req)
        ensures EffectivelyAllows(after, req) <==> FilterSemantics.FirstMatch(cs, d.rule.allow, req)
      {
        InfosAreRules(infos);
        SettableRules(pro, bs, s, infos);
        FilterRoundTrip.SetRuleDecides(before[0].code, pro, bs, cs, false, s, RulesOf(infos), d.rule, req);
        assert after == [after[0]];
        OneProgramAllows(after[0], req, FilterSemantics.FirstMatch(cs, d.rule.allow, req));
      }
    }
  }

  /** When rewriting refuses a rule, a device of the list has it. */
  lemma RefusedRule(before: seq<Prog>, infos: seq<DeviceInfo>)
    requires Unchangeable(before, FilterRuns.Somes(RulesOf(infos)))
    ensures |before| != 1 || exists d :: d in infos && !Accepted(d.rule)
  {
    hide Rewrite, Accepted;
    if |before| == 1 {
      var rules := FilterRuns.Somes(RulesOf(infos));
      FilterEdits.RewriteFailsIff(before[0].code, rules);
      var r :| r in rules && r.Some? && !Accepted(r.value);
      var i :| 0 <= i < |rules| && rules[i] == r;
      assert infos[i] in infos;
    }
  }

  /** Setting rules fails only for a cause, and a success that passed over no error puts them in force. */
  lemma SettingHasCause(before: seq<Prog>, after: seq<Prog>, infos: seq<DeviceInfo>, replace: bool, undo: RuleUndo,
                        exit: Exit, failed: bool)
    requires RulesOutcome(before, after, RulesOf(infos), replace, undo, exit, failed)
    ensures exit == Err ==> failed || Unsettable(before, infos)
    ensures exit == Ok && NothingPassedOver(infos, failed) ==> DecidesAsListed(before, after, infos)
  {
    hide UndoFits, RulesOf, Unchangeable, TooShort, Accepted, IsRWM;
    var rules := RulesOf(infos);
    if Unchangeable(before, FilterRuns.Somes(rules)) {
      RefusedRule(before, infos);
    }
    if exit == Ok && NothingPassedOver(infos, failed) {
      InfosAreRules(infos);
      if InForce(before, after, rules) {
        InForceDecides(before, after, infos);
      } else if infos != [] {
        assert rules != [] && OnlyFullAllows(rules);
        assert forall x :: x in rules ==> x.allow && IsRWM(x.permissions);
        assert !failed && Unchangeable(before, FilterRuns.Somes(rules));
        assert |before| == 1 ==> forall pro, bs, s :: bs != [] ==> !Settable(pro, bs, s, infos);
      }
    }
  }

  /** The part of MountDevice that changes the container: rules, then files, then the plugin's own actions. */
  method OpenDevices(c: Cgroup, f: Container, infos: seq<DeviceInfo>, replace: bool, actions: Exit)
    returns (closer: Closer, undo: RuleUndo, exit: Exit, undoFiles: bool)
    requires c.Valid() && c.fd != Open
    modifies c`attached, c`nextId, c`history, c`fd, c`callFailed, f`files, f`callFailed
    ensures c.Valid() && (old(c.callFailed) ==> c.callFailed)
    ensures (undo.ReplaceBack? ==> undo.original.id < c.nextId)
    ensures if exit == Crash && !undoFiles then c.fd == Open && closer.NilCloser?
            else closer.CloseDir? <==> c.fd == Open
    ensures exit == Crash && !undoFiles ==> TooShortIn(old(c.attached)) && c.attached == old(c.attached)
    ensures !undo.NilUndo? ==> c.fd == Open
    ensures RulesOutcome(old(c.attached), c.attached, RulesOf(infos), replace, undo,
                         if undoFiles then Ok else exit, c.callFailed)
    ensures UndoFits(old(c.attached), c.attached, RulesOf(infos), replace, undo)
    ensures SwapPath(old(c.history), c.history, old(c.attached), undo)
    ensures SwapAndBack(old(c.history), c.history, old(c.attached), replace, undo)
    ensures exit == Ok ==> undoFiles
    ensures undoFiles ==> exit == actions
    ensures exit == Err && !undoFiles ==> c.callFailed || Unsettable(old(c.attached), infos)
    ensures undoFiles && NothingPassedOver(infos, c.callFailed) ==> DecidesAsListed(old(c.attached), c.attached, infos)
    ensures if undoFiles then Created(old(f.files), f.files, infos) else f.files == old(f.files)
    ensures undoFiles ==> AsCreated(old(f.files), f.files, infos)
    ensures undoFiles && !f.callFailed ==> forall d :: d in infos && d.rule.allow ==> d.path in f.files
  {
    undoFiles := false;
    closer, undo, exit := SetDeviceRules(c, RulesOf(infos), replace);
    SettingHasCause(old(c.attached), c.attached, infos, replace, undo, exit, c.callFailed);
    if exit != Ok {
      return;
    }
    f.CreateDeviceFiles(infos);
    undoFiles := true;
    exit := actions;
  }

  /** The part of MountDevice between the wait and the end: the plugin's answers, then the container. */
  method MountContainer(c: Cgroup, f: Container, infos: seq<DeviceInfo>, replace: bool, answers: Answers)
    returns (closer: Closer, undo: RuleUndo, exit: Exit, undoFiles: bool)
    requires c.Valid() && c.fd != Open
    modifies c`attached, c`nextId, c`history, c`fd, c`callFailed, f`files, f`callFailed
    ensures c.Valid() && (old(c.callFailed) ==> c.callFailed)
    ensures undo.ReplaceBack? ==> undo.original.id < c.nextId
    ensures closer.CloseDir? ==> c.fd == Open
    ensures closer.NilCloser? && c.fd == Open ==> exit == Crash && !undoFiles && TooShortIn(old(c.attached))
    ensures !undo.NilUndo? ==> c.fd == Open
    ensures exit == Crash && !undoFiles ==> c.attached == old(c.attached)
    ensures undoFiles ==>
              RulesOutcome(old(c.attached), c.attached, RulesOf(infos), replace, undo, Ok, c.callFailed)
    ensures UndoFits(old(c.attached), c.attached, RulesOf(infos), replace, undo)
    ensures SwapPath(old(c.history), c.history, old(c.attached), undo)
    ensures SwapAndBack(old(c.history), c.history, old(c.attached), replace, undo)
    ensures if undoFiles then exit == answers.actions else exit != Ok
    ensures exit == Err && !undoFiles ==>
              answers.listed == Err || !answers.pathsFound || c.callFailed || Unsettable(old(c.attached), infos)
    ensures exit == Crash && !undoFiles ==> answers.listed == Crash || TooShortIn(old(c.attached))
    ensures undoFiles && NothingPassedOver(infos, c.callFailed) ==> DecidesAsListed(old(c.attached), c.attached, infos)
    ensures if undoFiles then Created(old(f.files), f.files, infos) else f.files == old(f.files)
    ensures undoFiles ==> AsCreated(old(f.files), f.files, infos)
    ensures undoFiles && !f.callFailed ==> forall d :: d in infos && d.rule.allow ==> d.path in f.files
  {
    hide RulesOutcome, UndoFits, SwapPath, SwapAndBack, Created, AsCreated, DecidesAsListed, Unsettable, TooShortIn;
    closer, undo, exit, undoFiles := NilCloser, NilUndo, Err, false;
    if answers.listed == Ok && answers.pathsFound {
      closer, undo, exit, undoFiles := OpenDevices(c, f, infos, replace, answers.actions);
    } else {
      NothingToUndo(c.attached, c.history, RulesOf(infos), replace);
      if answers.listed == Crash {
        exit := Crash;
      }
    }
  }

  /** The pods after a successful mount: the old ones and the ready ones. */
  ghost predicate MountedPods(before: map<PodName, Uid>, after: map<PodName, Uid>, keys: seq<ObjectKey>,
                              ready: seq<Pod>, skipped: seq<Pod>) {
    && ready != [] && PodNames(ready) !! PodNames(skipped) && PodNames(ready) !! before.Keys
    && PodNames(ready) + PodNames(skipped) == PodsOf(keys) && |ready| + |skipped| == |keys|
    && after.Keys == before.Keys + PodNames(ready)
    && (forall p :: p in ready ==> after[p.name] == p.uid)
  }

  /** The keys of pods as the view shows them, deleted without failure: exactly these pods are gone. */
  lemma SkippedAreGone(before: map<PodName, Uid>, mid: map<PodName, Uid>, after: map<PodName, Uid>,
                       keys: seq<ObjectKey>, ready: seq<Pod>, skipped: seq<Pod>)
    requires Added(before, mid, keys) && SharedOut(keys, mid, ready, skipped)
    requires after == mid - PodsOf(KeysOf(skipped))
    ensures MountedPods(before, after, keys, ready, skipped)
  {
    KeysOfNames(skipped);
    forall k | k in PodsOf(keys)
      ensures k !in before
    {
    }
    assert after.Keys == before.Keys + PodNames(ready);
  }

  lemma KeysOfNames(pods: seq<Pod>)
    ensures PodsOf(KeysOf(pods)) == PodNames(pods)
  {
    forall p | p in pods
      ensures p.name in PodsOf(KeysOf(pods))
    {
      var i :| 0 <= i < |pods| && pods[i] == p;
      assert KeysOf(pods)[i] in KeysOf(pods);
    }
  }

  lemma AddedKeeps(before: map<PodName, Uid>, mid: map<PodName, Uid>, keys: seq<ObjectKey>)
    requires Added(before, mid, keys)
    ensures PodsKept(before, mid)
    ensures forall i, j :: 0 <= i < j < |keys| ==> keys[i].pod != keys[j].pod
    ensures KeysIn(keys, mid)
  {
    assert forall i | 0 <= i < |keys| :: keys[i] in keys;
  }

  /** Deleting skipped pods leaves the pods that were there before the mount. */
  lemma SkippedKeepOld(before: map<PodName, Uid>, mid: map<PodName, Uid>, after: map<PodName, Uid>,
                       keys: seq<ObjectKey>, ready: seq<Pod>, skipped: seq<Pod>)
    requires Added(before, mid, keys) && SharedOut(keys, mid, ready, skipped)
    requires forall n :: n in after ==> n in mid && after[n] == mid[n]
    requires forall n :: n in mid && n !in after ==>
               exists x :: x in KeysOf(skipped) && x.pod == n && Means(x, mid)
    ensures PodsKept(before, after)
  {
    KeysOfNames(skipped);
    assert PodNames(skipped) <= PodsOf(keys);
    forall n | n in before
      ensures n in after
    {
      assert n !in PodsOf(keys);
    }
  }

  /** Deleting the created pods leaves what was there before, and nothing else if no deletion failed. */
  lemma CreatedAreGone(before: map<PodName, Uid>, mid: map<PodName, Uid>, after: map<PodName, Uid>,
                       keys: seq<ObjectKey>, left: seq<ObjectKey>)
    requires Added(before, mid, keys)
    requires forall n :: n in after ==> n in mid && after[n] == mid[n]
    requires forall n :: n in mid && n !in after ==> exists k :: k in keys && k.pod == n && Means(k, mid)
    requires left == [] ==> after == mid - PodsOf(keys)
    ensures PodsKept(before, after) && (left == [] ==> after == before)
  {
    assert forall n :: n in before ==> n !in PodsOf(keys);
  }

  /** Keys of pods that are there are not reported, unless a call fails. */
  lemma NothingLeft(keys: seq<ObjectKey>, pods: map<PodName, Uid>, left: seq<ObjectKey>)
    requires forall k :: k in left ==> k in keys && !Means(k, pods)
    requires forall k :: k in keys ==> Means(k, pods)
    ensures left == []
  {
    EmptyOrMember(left);
  }

  lemma EmptyOrMember<T>(s: seq<T>)
    ensures s == [] || exists x :: x in s
  {
    if s != [] {
      assert s[0] in s;
    }
  }

  lemma CreatedAreMeant(before: map<PodName, Uid>, mid: map<PodName, Uid>, keys: seq<ObjectKey>)
    requires Added(before, mid, keys)
    ensures forall k :: k in keys ==> Means(k, mid)
  {
  }

  lemma SkippedAreMeant(keys: seq<ObjectKey>, pods: map<PodName, Uid>, ready: seq<Pod>, skipped: seq<Pod>)
    requires SharedOut(keys, pods, ready, skipped)
    ensures forall k :: k in KeysOf(skipped) ==> Means(k, pods)
  {
    forall k | k in KeysOf(skipped)
      ensures Means(k, pods)
    {
      var i :| 0 <= i < |skipped| && KeysOf(skipped)[i] == k;
      KeyMeansItsPod(skipped[i], pods);
      assert skipped[i] in skipped;
    }
  }

  /** The end of a successful mount: the skipped pods are deleted. */
  method DeleteSkipped(k: Cluster, ghost keys: seq<ObjectKey>, ghost ready: seq<Pod>, skipped: seq<Pod>,
                       ghost pods: map<PodName, Uid>)
    returns (left: seq<ObjectKey>)
    requires k.Valid() && Added(pods, k.pods, keys) && SharedOut(keys, k.pods, ready, skipped)
    modifies k`pods, k`callFailed
    ensures k.Valid() && (old(k.callFailed) ==> k.callFailed) && PodsKept(pods, k.pods)
    ensures left == [] ==> MountedPods(pods, k.pods, keys, ready, skipped)
    ensures !k.callFailed ==> left == []
  {
    hide Added, SharedOut, MountedPods, PodsKept, Means;
    ghost var created := k.pods;
    left := k.GarbageCollect(KeysOf(skipped));
    SkippedAreMeant(keys, created, ready, skipped);
    if !k.callFailed {
      NothingLeft(KeysOf(skipped), created, left);
    }
    SkippedKeepOld(pods, created, k.pods, keys, ready, skipped);
    if left == [] {
      SkippedAreGone(pods, created, k.pods, keys, ready, skipped);
    }
  }

  /**
   The deferred function of a failed mount: files first, then the filter, then the created pods. The ghost
   parameters tell the state before the mount, and how far it came.
   */
  method RollBackMount(c: Cgroup, k: Cluster, f: Container, infos: seq<DeviceInfo>, undoFiles: bool, undo: RuleUndo,
                       keys: seq<ObjectKey>, ghost before: seq<Prog>, ghost path: seq<seq<Prog>>, ghost files: Files,
                       ghost pods: map<PodName, Uid>, ghost replace: bool, ghost reached: Progress)
    returns (left: seq<ObjectKey>)
    requires c.Valid() && k.Valid() && (undo.NilUndo? || c.fd == Open)
    requires undo.ReplaceBack? ==> undo.original.id < c.nextId
    requires reached == Progress(undo, c.attached, undoFiles)
    requires UndoFits(before, c.attached, RulesOf(infos), replace, undo) && SwapPath(path, c.history, before, undo)
    requires if undoFiles then Created(files, f.files, infos) else f.files == files
    requires Added(pods, k.pods, keys)
    modifies c`attached, c`history, c`undoFailed, c`callFailed, k`pods, k`callFailed, f
    ensures c.Valid() && k.Valid() && (old(k.callFailed) ==> k.callFailed) && (old(c.callFailed) ==> c.callFailed)
    ensures SwapAndBack(path, c.history, before, replace, undo)
    ensures !c.undoFailed ==> FilterUndone(before, c.attached, replace, reached)
    ensures !f.undoFailed ==> (f.files == files <==> !undoFiles || Paths(infos) !! files.Keys)
    ensures left == [] ==> k.pods == pods
    ensures !k.callFailed ==> left == []
    ensures PodsKept(pods, k.pods)
  {
    hide UndoFits, FilterUndone, SwapAndBack, SwapPath, Created, Undone, RulesOf, Added, PodsKept;
    RulesAreUndone(before, RulesOf(infos), replace, reached);
    if undoFiles {
      CreateUndoneIff(files, f.files, infos);
      f.RollBackCreate(infos);
    }
    ghost var mid := c.history;
    c.RollBackRules(undo);
    UndoGoesBack(path, mid, c.history, before, RulesOf(infos), replace, reached);
    ghost var created := k.pods;
    left := k.GarbageCollect(keys);
    CreatedAreGone(pods, created, k.pods, keys, left);
    CreatedAreMeant(pods, created, keys);
    if !k.callFailed {
      NothingLeft(keys, created, left);
    }
  }

  /**
   MountDevice. `left` are the keys whose deletion failed; the source ignores them. A panic finds
   no error recorded, so the deferred function then rolls nothing back; it closes the directory if the rule
   setter has returned.
   */
  method MountDevice(c: Cgroup, k: Cluster, f: Container, templates: seq<PodName>, replies: seq<nat -> Reply>,
                     infos: seq<DeviceInfo>, replace: bool, answers: Answers)
    returns (exit: Exit, keys: seq<ObjectKey>, ready: seq<Pod>, skipped: seq<Pod>, left: seq<ObjectKey>,
             ghost reached: Progress)
    requires c.Valid() && c.fd != Open && k.Valid()
    modifies c, k, f
    ensures c.Valid() && k.Valid()
    // The directory is closed exactly when it was opened.
    ensures exit != Crash ==> c.fd != Open
    // The attached filters only go through states of the swap and back.
    ensures SwapAndBack(old(c.history), c.history, old(c.attached), replace, reached.rules)
    // An error or a panic has a cause: a run succeeds when all calls do and all answers allow it.
    ensures exit == Err ==>
              || k.callFailed || Unready(templates, old(k.pods), replies)
              || answers.listed == Err || !answers.pathsFound || answers.actions == Err
              || c.callFailed || Unsettable(old(c.attached), infos)
    ensures exit == Crash ==>
              answers.listed == Crash || answers.actions == Crash || TooShortIn(old(c.attached))
    // A failed run is undone: filter, files and pods.
    ensures exit == Err && !c.undoFailed ==> FilterUndone(old(c.attached), c.attached, replace, reached)
    ensures exit == Err && !f.undoFailed ==>
              (f.files == old(f.files) <==> !reached.files || Paths(infos) !! old(f.files).Keys)
    ensures exit == Err && left == [] ==> k.pods == old(k.pods)
    // A successful run keeps the ready pods and no other, and has set the rules and created the files.
    ensures exit == Ok && left == [] ==> MountedPods(old(k.pods), k.pods, keys, ready, skipped)
    ensures exit == Ok ==> |keys| == |templates|
    ensures exit == Ok ==> JudgedAs(keys, replies, ready, Success) && JudgedAs(keys, replies, skipped, Skip)
    ensures exit == Ok && NothingPassedOver(infos, c.callFailed) ==>
              DecidesAsListed(old(c.attached), c.attached, infos)
    ensures exit == Ok ==> RulesOutcome(old(c.attached), c.attached, RulesOf(infos), replace, reached.rules, Ok,
                                      c.callFailed)
    ensures exit == Ok ==> Created(old(f.files), f.files, infos) && AsCreated(old(f.files), f.files, infos)
    ensures exit == Ok && !f.callFailed ==> forall d :: d in infos && d.rule.allow ==> d.path in f.files
    // A panic leaves all created pods. It comes from the plugin's queries before anything else is changed, or
    // from a filter that is too short, and then leaves the directory open, or from the plugin's own actions,
    // and then leaves the new filter and files.
    ensures exit == Crash ==> keys != [] && Added(old(k.pods), k.pods, keys)
    ensures exit == Crash && c.fd == Open ==> TooShortIn(old(c.attached)) && !reached.files
    ensures exit == Crash && !reached.files ==> c.attached == old(c.attached) && f.files == old(f.files)
    ensures exit == Crash && reached.files ==>
              && c.fd != Open && Created(old(f.files), f.files, infos)
              && RulesOutcome(old(c.attached), c.attached, RulesOf(infos), replace, reached.rules, Ok, c.callFailed)
    ensures exit != Crash && !k.callFailed ==> left == []
    // No pod that was there before is touched, however the run ends.
    ensures PodsKept(old(k.pods), k.pods)
  {
    hide RulesOutcome, UndoFits, TooShortIn, FilterUndone, SwapPath, SharedOut, MountedPods, Created, Undone;
    hide Unsettable, NothingPassedOver, DecidesAsListed, AsCreated, Unready, JudgedAs;
    hide Cgroup.Valid, Cluster.Valid, PodNames, RulesOf, Added, PodsOf, PodsKept, Paths, SwapAndBack, Means;
    reached := Progress(NilUndo, c.attached, false);
    NothingToUndo(c.attached, c.history, RulesOf(infos), replace);
    left, exit := [], Err;
    var undo, closer, undoFiles := NilUndo, NilCloser, false;
    var ok: bool;
    keys, ready, skipped, ok := PreparePods(k, templates, replies);
    if ok {
      closer, undo, exit, undoFiles := MountContainer(c, f, infos, replace, answers);
      reached := Progress(undo, c.attached, undoFiles);
    }
    if exit == Ok {
      left := DeleteSkipped(k, keys, ready, skipped, old(k.pods));
    }
    if exit == Err {
      left := RollBackMount(c, k, f, infos, undoFiles, undo, keys, old(c.attached), old(c.history), old(f.files),
                            old(k.pods), replace, reached);
    }
    if closer == CloseDir {
      c.CloseDir();
    }
  }

  /** The part of UnMountDevice that changes the container: rules, then files, then the plugin's own actions. */
  method ShutDevices(c: Cgroup, f: Container, infos: seq<DeviceInfo>, replace: bool, actions: Exit)
    returns (closer: Closer, undo: RuleUndo, exit: Exit, undoFiles: bool)
    requires c.Valid() && c.fd != Open
    modifies c`attached, c`nextId, c`history, c`fd, c`callFailed, f`files, f`callFailed
    ensures c.Valid() && (undo.ReplaceBack? ==> undo.original.id < c.nextId)
    ensures if exit == Crash && !undoFiles then c.fd == Open && closer.NilCloser?
            else closer.CloseDir? <==> c.fd == Open
    ensures exit == Crash && !undoFiles ==> TooShortIn(old(c.attached)) && c.attached == old(c.attached)
    ensures !undo.NilUndo? ==> c.fd == Open
    ensures RulesOutcome(old(c.attached), c.attached, RulesOf(infos), replace, undo,
                         if undoFiles then Ok else exit, c.callFailed)
    ensures UndoFits(old(c.attached), c.attached, RulesOf(infos), replace, undo)
    ensures SwapPath(old(c.history), c.history, old(c.attached), undo)
    ensures SwapAndBack(old(c.history), c.history, old(c.attached), replace, undo)
    ensures exit == Ok ==> undoFiles
    ensures undoFiles ==> exit == actions
    ensures exit == Err && !undoFiles ==> c.callFailed || Unsettable(old(c.attached), infos)
    ensures undoFiles && NothingPassedOver(infos, c.callFailed) ==> DecidesAsListed(old(c.attached), c.attached, infos)
    ensures if undoFiles then Deleted(old(f.files), f.files, infos) else f.files == old(f.files)
    ensures undoFiles && !f.callFailed ==> f.files == old(f.files) - DeniedPaths(infos)
  {
    undoFiles := false;
    closer, undo, exit := SetDeviceRules(c, RulesOf(infos), replace);
    SettingHasCause(old(c.attached), c.attached, infos, replace, undo, exit, c.callFailed);
    if exit != Ok {
      return;
    }
    f.DeleteDeviceFiles(infos);
    undoFiles := true;
    exit := actions;
  }

  /** The deferred function of a failed unmount: files first, then the filter. */
  method RollBackUnmount(c: Cgroup, f: Container, infos: seq<DeviceInfo>, undoFiles: bool, undo: RuleUndo,
                         ghost before: seq<Prog>, ghost path: seq<seq<Prog>>, ghost files: Files, ghost replace: bool,
                         ghost reached: Progress)
    requires c.Valid() && (undo.NilUndo? || c.fd == Open) && (undo.ReplaceBack? ==> undo.original.id < c.nextId)
    requires reached == Progress(undo, c.attached, undoFiles)
    requires UndoFits(before, c.attached, RulesOf(infos), replace, undo) && SwapPath(path, c.history, before, undo)
    requires if undoFiles then Deleted(files, f.files, infos) else f.files == files
    modifies c`attached, c`history, c`undoFailed, c`callFailed, f
    ensures c.Valid() && SwapAndBack(path, c.history, before, replace, undo)
    ensures old(c.callFailed) ==> c.callFailed
    ensures !c.undoFailed ==> FilterUndone(before, c.attached, replace, reached)
    ensures !f.undoFailed && AsListed(files, infos) ==> f.files == files
  {
    hide UndoFits, FilterUndone, SwapAndBack, SwapPath, Deleted, Undone, RulesOf, AsListed;
    RulesAreUndone(before, RulesOf(infos), replace, reached);
    if undoFiles {
      if AsListed(files, infos) {
        DeleteUndone(files, f.files, infos);
      }
      f.RollBackDelete(infos);
    }
    ghost var mid := c.history;
    c.RollBackRules(undo);
    UndoGoesBack(path, mid, c.history, before, RulesOf(infos), replace, reached);
  }

  /**
   UnMountDevice, from the setting of device rules on. Its deferred function is armed after that call, and
   pods are deleted only when everything has succeeded.
   */
  method UnMountDevice(c: Cgroup, k: Cluster, f: Container, infos: seq<DeviceInfo>, cleanup: seq<ObjectKey>,
                       replace: bool, actions: Exit)
    returns (exit: Exit, left: seq<ObjectKey>, ghost reached: Progress)
    requires c.Valid() && c.fd != Open && k.Valid()
    modifies c, k, f
    ensures c.Valid() && k.Valid()
    ensures exit != Crash ==> c.fd != Open
    ensures SwapAndBack(old(c.history), c.history, old(c.attached), replace, reached.rules)
    // A panic comes from a filter that is too short, and then changes nothing but leaves the directory open,
    // or from the plugin's own actions, and then leaves the new filter and files. No pod is deleted.
    ensures exit == Crash && c.fd == Open ==> TooShortIn(old(c.attached)) && !reached.files
    ensures exit == Crash && !reached.files ==>
              c.fd == Open && c.attached == old(c.attached) && f.files == old(f.files)
    ensures exit == Crash && reached.files ==>
              && c.fd != Open && Deleted(old(f.files), f.files, infos)
              && RulesOutcome(old(c.attached), c.attached, RulesOf(infos), replace, reached.rules, Ok, c.callFailed)
    // An error or a panic has a cause.
    ensures exit == Err ==> actions == Err || c.callFailed || Unsettable(old(c.attached), infos)
    ensures exit == Crash ==> actions == Crash || TooShortIn(old(c.attached))
    // A failed run restores the filter and the files, and deletes no pod.
    ensures exit != Ok ==> k.pods == old(k.pods)
    ensures exit == Err && !c.undoFailed ==> FilterUndone(old(c.attached), c.attached, replace, reached)
    ensures exit == Err && !f.undoFailed && AsListed(old(f.files), infos) ==> f.files == old(f.files)
    // A successful run deletes only pods that the cleanup list means.
    ensures exit == Ok ==>
              forall n :: n in old(k.pods) && n !in k.pods ==>
                exists key :: key in cleanup && key.pod == n && Means(key, old(k.pods))
    ensures exit == Ok && left == [] ==> k.pods == old(k.pods) - PodsOf(cleanup)
    ensures PodsKept(k.pods, old(k.pods))
    ensures forall n :: n in old(k.pods) && Spared(n, old(k.pods)[n], cleanup) ==> n in k.pods
    ensures exit == Ok && !k.callFailed ==> forall key :: key in left ==> !Means(key, old(k.pods))
    ensures exit == Ok && NothingPassedOver(infos, c.callFailed) ==>
              DecidesAsListed(old(c.attached), c.attached, infos)
    ensures exit == Ok ==> RulesOutcome(old(c.attached), c.attached, RulesOf(infos), replace, reached.rules, Ok,
                                      c.callFailed)
    ensures exit == Ok ==> Deleted(old(f.files), f.files, infos)
    ensures exit == Ok && !f.callFailed ==> f.files == old(f.files) - DeniedPaths(infos)
  {
    hide Unsettable, NothingPassedOver, DecidesAsListed, Means, Spared;
    hide RulesOutcome, UndoFits, TooShortIn, FilterUndone, SwapAndBack, SwapPath, Deleted;
    hide RulesOf, AsListed, DeniedPaths;
    left := [];
    var closer, undo, undoFiles;
    closer, undo, exit, undoFiles := ShutDevices(c, f, infos, replace, actions);
    reached := Progress(undo, c.attached, undoFiles);
    if exit == Crash && !undoFiles {
      return;
    }
    if exit == Ok {
      left := k.GarbageCollect(cleanup);
    } else if exit == Err {
      RollBackUnmount(c, f, infos, undoFiles, undo, old(c.attached), old(c.history), old(f.files), replace, reached);
    }
    if closer == CloseDir {
      c.CloseDir();
    }
  }

  // Mount, then unmount.

  /** The device list of an unmount: the same devices, not allowed any more. */
  function DeniedInfos(infos: seq<DeviceInfo>): (r: seq<DeviceInfo>)
    ensures |r| == |infos|
  {
    seq(|infos|, i requires 0 <= i < |infos| => infos[i].(rule := FilterRoundTrip.Denied(infos[i].rule)))
  }

  lemma DeniedInfosAre(infos: seq<DeviceInfo>)
    ensures RulesOf(DeniedInfos(infos)) == FilterRoundTrip.DeniedAll(RulesOf(infos))
    ensures DeniedPaths(DeniedInfos(infos)) == Paths(infos)
  {
    var denied := DeniedInfos(infos);
    forall d | d in infos
      ensures d.path in DeniedPaths(denied)
    {
      var i :| 0 <= i < |infos| && infos[i] == d;
      assert denied[i] in denied;
    }
  }

  /** Deleting the ready pods of a mount leaves the pods from before it. */
  lemma ReadyAreGone(before: map<PodName, Uid>, mid: map<PodName, Uid>, keys: seq<ObjectKey>, ready: seq<Pod>,
                     skipped: seq<Pod>)
    requires MountedPods(before, mid, keys, ready, skipped) && PodsKept(before, mid)
    ensures mid - PodsOf(KeysOf(ready)) == before
  {
    KeysOfNames(ready);
  }

  lemma FilesAreGone(before: Files, mid: Files, infos: seq<DeviceInfo>)
    requires Created(before, mid, infos) && Paths(infos) !! before.Keys
    ensures mid - DeniedPaths(DeniedInfos(infos)) == before
  {
    DeniedInfosAre(infos);
    CreateUndoneIff(before, mid, infos);
  }

  lemma AccessIsBack(s0: seq<Prog>, s1: seq<Prog>, s2: seq<Prog>, infos: seq<DeviceInfo>, replace: bool,
                     undo1: RuleUndo, undo2: RuleUndo, failed1: bool, failed2: bool,
                     pro: Program, bs: seq<Program>, cs: seq<FilterSemantics.Clause>)
    requires |s0| == 1 && Encodes(s0[0].code, pro, bs, cs, false)
    requires FilterRuns.Valid(RulesOf(infos)) && FilterRuns.Consistent(RulesOf(infos))
    requires forall r :: r in RulesOf(infos) ==> FilterRoundTrip.Unnamed(pro, bs, r)
    requires RulesOutcome(s0, s1, RulesOf(infos), replace, undo1, Ok, failed1)
    requires RulesOutcome(s1, s2, RulesOf(DeniedInfos(infos)), replace, undo2, Ok, failed2)
    ensures forall req :: EffectivelyAllows(s2, req) <==> EffectivelyAllows(s0, req)
  {
    DeniedInfosAre(infos);
    hide *;
    forall req
      ensures EffectivelyAllows(s2, req) <==> EffectivelyAllows(s0, req)
    {
      AccessRoundTrip(s0, s1, s2, RulesOf(infos), replace, undo1, undo2, failed1, failed2, pro, bs, cs, req);
    }
  }

  /**
   A mount and then an unmount of the same devices and of the pods that it kept. When both succeed, every
   access, the files and the pods are as they were, the latter two as far as no removal failed.
   */
  method MountAndUnmount(c: Cgroup, k: Cluster, f: Container, templates: seq<PodName>, replies: seq<nat -> Reply>,
                         infos: seq<DeviceInfo>, replace: bool, answers: Answers, actions: Exit,
                         ghost pro: Program, ghost bs: seq<Program>, ghost cs: seq<FilterSemantics.Clause>)
    returns (mounted: Exit, unmounted: Exit, left: seq<ObjectKey>)
    requires c.Valid() && c.fd != Open && k.Valid()
    requires |c.attached| == 1 && Encodes(c.attached[0].code, pro, bs, cs, false)
    requires FilterRuns.Valid(RulesOf(infos)) && FilterRuns.Consistent(RulesOf(infos))
    requires forall r :: r in RulesOf(infos) ==> FilterRoundTrip.Unnamed(pro, bs, r)
    requires Paths(infos) !! f.files.Keys
    modifies c, k, f
    ensures mounted == Ok && unmounted == Ok ==>
              forall req :: EffectivelyAllows(c.attached, req) <==> EffectivelyAllows(old(c.attached), req)
    ensures mounted == Ok && unmounted == Ok && !f.callFailed ==> f.files == old(f.files)
    ensures mounted == Ok && unmounted == Ok && left == [] ==> k.pods == old(k.pods)
  {
    hide RulesOutcome, EffectivelyAllows, Encodes, FilterRuns.Valid, FilterRuns.Consistent, FilterRoundTrip.Unnamed;
    hide SwapAndBack, TooShortIn, FilterUndone, MountedPods, PodsKept, Created, Deleted, Added, AsListed, Paths;
    hide DeniedPaths, DeniedInfos, KeysOf, PodsOf, Means, RulesOf;
    unmounted := Err;
    var keys, ready, skipped, left1, left2;
    ghost var reached1, reached2;
    mounted, keys, ready, skipped, left1, reached1 := MountDevice(c, k, f, templates, replies, infos, replace,
                                                                    answers);
    left := left1;
    if mounted != Ok {
      return;
    }
    ghost var s1, files1, pods1, failed1 := c.attached, f.files, k.pods, c.callFailed;
    unmounted, left2, reached2 := UnMountDevice(c, k, f, DeniedInfos(infos), KeysOf(ready), replace, actions);
    left := left1 + left2;
    if unmounted == Ok {
      AccessIsBack(old(c.attached), s1, c.attached, infos, replace, reached1.rules, reached2.rules, failed1,
                   c.callFailed, pro, bs, cs);
      FilesAreGone(old(f.files), files1, infos);
      if left == [] {
        ReadyAreGone(old(k.pods), pods1, keys, ready, skipped);
      }
    }
  }
}
