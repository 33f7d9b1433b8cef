/** Creating, awaiting and deleting slave pods, as in pkg/server/mounter. */
module SlavePods {
  import opened Wrappers

  datatype PodName = PodName(namespace: string, name: string)

  type Uid = nat

  /** A key with the UID of the object it was made from; without one, any pod of that name is meant. */
  datatype ObjectKey = ObjectKey(pod: PodName, uid: Option<Uid>)

  datatype Pod = Pod(name: PodName, uid: Uid)

  function KeyOf(pod: Pod): ObjectKey {
    ObjectKey(pod.name, Some(pod.uid))
  }

  /** The key means the pod that has its name, if that pod has its UID. */
  predicate Means(key: ObjectKey, pods: map<PodName, Uid>) {
    key.pod in pods && (key.uid.None? || key.uid.value == pods[key.pod])
  }

  /** The pods of the cluster. Calls that can fail fail arbitrarily. */
  class Cluster {
    var pods: map<PodName, Uid>
    var nextUid: Uid
    // Some creation or deletion that could have succeeded has failed.
    ghost var callFailed: bool

    ghost predicate Valid()
      reads this
    {
      forall n :: n in pods ==> pods[n] < nextUid
    }

    method Create(name: PodName) returns (key: Option<ObjectKey>)
      requires Valid()
      modifies this
      ensures Valid()
      ensures key.None? ==> pods == old(pods)
      ensures callFailed == (old(callFailed) || (key.None? && name !in old(pods)))
      ensures key.Some? ==>
                && name !in old(pods) && pods == old(pods)[name := old(nextUid)]
                && key.value == ObjectKey(name, Some(old(nextUid)))
    {
      var ok: bool := *;
      if !ok || name in pods {
        callFailed := callFailed || name !in pods;
        return None;
      }
      pods := pods[name := nextUid];
      key := Some(ObjectKey(name, Some(nextUid)));
      nextUid := nextUid + 1;
    }

    /** Delete with the UID of the key as precondition; a missing pod counts as deleted. */
    method Delete(key: ObjectKey) returns (ok: bool)
      requires Valid()
      modifies this`pods, this`callFailed
      ensures Valid()
      ensures pods == if ok && Means(key, old(pods)) then old(pods) - {key.pod} else old(pods)
      ensures ok <==> key.pod !in pods
      // Another pod of that name is left alone, and so is any other pod.
      ensures key.pod in old(pods) && key.uid.Some? && key.uid.value != old(pods)[key.pod] ==> !ok && pods == old(pods)
      ensures forall n :: n in old(pods) && n != key.pod ==> n in pods && pods[n] == old(pods)[n]
      ensures callFailed == (old(callFailed) || (!ok && Means(key, old(pods))))
    {
      if key.pod !in pods {
        return true;
      }
      ok := *;
      if !Means(key, pods) {
        ok := false;
      } else if !ok {
        callFailed := true;
      }
      if ok {
        pods := pods - {key.pod};
      }
    }

    /**
     GarbageCollectionPods. Whatever the cluster holds: a pod disappears only when a key means it, and a
     key that is not reported as failed has no pod left.
     */
    method GarbageCollect(keys: seq<ObjectKey>) returns (failed: seq<ObjectKey>)
      requires Valid()
      modifies this`pods, this`callFailed
      ensures Valid() && (old(callFailed) ==> callFailed)
      ensures pods.Keys <= old(pods).Keys && forall n :: n in pods ==> pods[n] == old(pods)[n]
      ensures forall n :: n in old(pods) && n !in pods ==>
                exists k :: k in keys && k.pod == n && Means(k, old(pods))
      ensures forall k :: k in keys && k !in failed ==> k.pod !in pods
      ensures forall k :: k in failed ==> k in keys
      ensures failed == [] ==> pods == old(pods) - PodsOf(keys)
      // A pod stays when every key for its name has another UID.
      ensures forall n :: n in old(pods) && Spared(n, old(pods)[n], keys) ==> n in pods
      // Unless a call fails, only keys for another pod of the name are reported.
      ensures !callFailed ==> forall k :: k in failed ==> !Means(k, old(pods))
    {
      failed := [];
      for i := 0 to |keys|
        invariant Valid()
        invariant pods.Keys <= old(pods).Keys && forall n :: n in pods ==> pods[n] == old(pods)[n]
        invariant forall n :: n in old(pods) && n !in pods ==>
                    exists k :: k in keys && k.pod == n && Means(k, old(pods))
        invariant forall j :: 0 <= j < i && keys[j] !in failed ==> keys[j].pod !in pods
        invariant forall k :: k in failed ==> k in keys
        invariant (old(callFailed) ==> callFailed)
        invariant !callFailed ==> forall k :: k in failed ==> k.pod in old(pods) && !Means(k, old(pods))
      {
        ghost var before := pods;
        var ok := Delete(keys[i]);
        assert keys[i] in keys;
        if !ok {
          failed := failed + [keys[i]];
        }
      }
    }
  }

  /** No key means the pod: those with its name were made from another one. */
  predicate Spared(name: PodName, uid: Uid, keys: seq<ObjectKey>) {
    forall k :: k in keys && k.pod == name ==> k.uid.Some? && k.uid.value != uid
  }

  /** The key of a pod means this pod and no other. */
  lemma KeyMeansItsPod(pod: Pod, pods: map<PodName, Uid>)
    ensures Means(KeyOf(pod), pods) <==> pod.name in pods && pods[pod.name] == pod.uid
  {
  }

  function PodsOf(keys: seq<ObjectKey>): set<PodName> {
    set k | k in keys :: k.pod
  }

  // Waiting until every slave pod is ready or can be skipped.

  datatype Status = Success | Wait | Skip | Unschedulable | Fail | Unknown

  /** What a poll sees of one key: the lookup fails, or the plugin judges the pod found under the name. */
  datatype Reply = LookupError | Judged(status: Status)

  /** One round of polling: the pods as the lookup finds them, and the reply for each key. */
  datatype Round = Round(view: map<PodName, Uid>, reply: nat -> Reply)

  predicate Found(keys: seq<ObjectKey>, i: nat, round: Round)
    requires i < |keys|
  {
    keys[i].pod in round.view && round.reply(i).Judged?
  }

  function StatusAt(keys: seq<ObjectKey>, i: nat, round: Round): Status
    requires i < |keys| && Found(keys, i, round)
  {
    round.reply(i).status
  }

  function PodAt(keys: seq<ObjectKey>, i: nat, round: Round): Pod
    requires i < |keys| && keys[i].pod in round.view
  {
    Pod(keys[i].pod, round.view[keys[i].pod])
  }

  /** The pods among the first `n` keys that have the status, in key order. */
  function Chosen(keys: seq<ObjectKey>, n: nat, round: Round, status: Status): seq<Pod>
    requires n <= |keys|
  {
    if n == 0 then []
    else
      Chosen(keys, n - 1, round, status)
      + if Found(keys, n - 1, round) && StatusAt(keys, n - 1, round) == status then [PodAt(keys, n - 1, round)] else []
  }

  /** Every one of the first `n` keys was found ready or to be skipped. */
  predicate Passes(keys: seq<ObjectKey>, n: nat, round: Round)
    requires n <= |keys|
  {
    forall i :: 0 <= i < n ==>
      Found(keys, i, round) && (StatusAt(keys, i, round) == Success || StatusAt(keys, i, round) == Skip)
  }

  /** The first key of the round that is neither ready nor to be skipped has to be waited for. */
  predicate MustWait(keys: seq<ObjectKey>, round: Round) {
    exists i :: 0 <= i < |keys| && Passes(keys, i, round) && Found(keys, i, round) && StatusAt(keys, i, round) == Wait
  }

  /** In the round every key is ready or skipped, and all rounds before end in waiting. */
  predicate Settles(keys: seq<ObjectKey>, rounds: seq<Round>, last: nat) {
    && last < |rounds| && Passes(keys, |keys|, rounds[last])
    && forall r :: 0 <= r < last ==> MustWait(keys, rounds[r])
  }

  /** The key stops the round with an error. */
  predicate Stops(keys: seq<ObjectKey>, i: nat, round: Round) {
    && i < |keys| && Passes(keys, i, round)
    && (Found(keys, i, round) ==> StatusAt(keys, i, round) in {Unschedulable, Fail, Unknown})
  }

  /** No round settles: all rounds wait, or the first that does not stops with an error. */
  ghost predicate GivesUp(keys: seq<ObjectKey>, rounds: seq<Round>) {
    || (forall r :: 0 <= r < |rounds| ==> MustWait(keys, rounds[r]))
    || exists r, i ::
         && 0 <= r < |rounds| && Stops(keys, i, rounds[r])
         && forall q :: 0 <= q < r ==> MustWait(keys, rounds[q])
  }

  lemma WaitsAreNoPasses(keys: seq<ObjectKey>, round: Round)
    requires MustWait(keys, round) || exists i :: Stops(keys, i, round)
    ensures !Passes(keys, |keys|, round)
  {
  }

  lemma StopsAreNoWaits(keys: seq<ObjectKey>, i: nat, round: Round)
    requires Stops(keys, i, round)
    ensures !MustWait(keys, round)
  {
  }

  lemma GivesUpOrSettles(keys: seq<ObjectKey>, rounds: seq<Round>)
    requires GivesUp(keys, rounds)
    ensures forall last :: !Settles(keys, rounds, last)
  {
    hide Passes, MustWait, Stops;
    forall last: nat
      ensures !Settles(keys, rounds, last)
    {
      if Settles(keys, rounds, last) {
        if r, i :| 0 <= r < |rounds| && Stops(keys, i, rounds[r])
                   && forall q :: 0 <= q < r ==> MustWait(keys, rounds[q]) {
          StopsAreNoWaits(keys, i, rounds[r]);
          assert r >= last;
        }
        WaitsAreNoPasses(keys, rounds[last]);
      }
    }
  }

  /** The two lists that live across rounds. */
  datatype Lists = Lists(ready: seq<Pod>, skipped: seq<Pod>)

  /**
   WaitSupportPodsReady, for a context that is cancelled after the given rounds. `starts` records the lists
   at the start of every round: they are empty again whenever a round ends in waiting, so a success reports
   one round only.
   */
  method WaitSupportPodsReady(keys: seq<ObjectKey>, rounds: seq<Round>)
    returns (ready: seq<Pod>, skipped: seq<Pod>, ok: bool, ghost last: nat, ghost starts: seq<Lists>)
    ensures forall s :: s in starts ==> s == Lists([], [])
    ensures |starts| == if rounds == [] then 0 else last + 1
    ensures ok ==>
              && Settles(keys, rounds, last)
              && ready == Chosen(keys, |keys|, rounds[last], Success)
              && skipped == Chosen(keys, |keys|, rounds[last], Skip)
    ensures !ok ==> GivesUp(keys, rounds) && forall l :: !Settles(keys, rounds, l)
  {
    hide Passes, MustWait, Stops, Chosen;
    ready, skipped, ok, last, starts := [], [], false, 0, [];
    for r := 0 to |rounds|
      invariant ready == [] && skipped == []
      invariant |starts| == r && last == (if r == 0 then 0 else r - 1)
      invariant forall s :: s in starts ==> s == Lists([], [])
      invariant forall q :: 0 <= q < r ==> MustWait(keys, rounds[q])
    {
      last := r;
      starts := starts + [Lists(ready, skipped)];
      var verdict;
      ready, skipped, verdict := Poll(keys, rounds[r], ready, skipped);
      match verdict {
        case Ready => return ready, skipped, true, last, starts;
        case NotYet =>
        case Broken =>
          GivesUpOrSettles(keys, rounds);
          return ready, skipped, false, last, starts;
      }
    }
    GivesUpOrSettles(keys, rounds);
  }

  /** What one call of the polling condition says. */
  datatype Verdict = Ready | NotYet | Broken

  /** The polling condition, which adds to the lists, and empties them to be called again. */
  method Poll(keys: seq<ObjectKey>, round: Round, readySoFar: seq<Pod>, skippedSoFar: seq<Pod>)
    returns (ready: seq<Pod>, skipped: seq<Pod>, verdict: Verdict)
    ensures verdict.Ready? ==>
              && Passes(keys, |keys|, round)
              && ready == readySoFar + Chosen(keys, |keys|, round, Success)
              && skipped == skippedSoFar + Chosen(keys, |keys|, round, Skip)
    ensures verdict.NotYet? ==> MustWait(keys, round) && ready == [] && skipped == []
    ensures verdict.Broken? ==> exists i :: Stops(keys, i, round)
  {
    hide Stops, MustWait;
    ready, skipped := readySoFar, skippedSoFar;
    for i := 0 to |keys|
      invariant Passes(keys, i, round)
      invariant ready == readySoFar + Chosen(keys, i, round, Success)
      invariant skipped == skippedSoFar + Chosen(keys, i, round, Skip)
    {
      if keys[i].pod !in round.view || round.reply(i).LookupError? {
        StopsHere(keys, i, round);
        return ready, skipped, Broken;
      }
      match round.reply(i).status {
        case Success => ready := ready + [PodAt(keys, i, round)];
        case Wait =>
          WaitsHere(keys, i, round);
          return [], [], NotYet;
        case Skip => skipped := skipped + [PodAt(keys, i, round)];
        case Unschedulable =>
          StopsHere(keys, i, round);
          return ready, skipped, Broken;
        case Fail =>
          StopsHere(keys, i, round);
          return ready, skipped, Broken;
        case Unknown =>
          StopsHere(keys, i, round);
          return ready, skipped, Broken;
      }
    }
    verdict := Ready;
  }

  lemma StopsHere(keys: seq<ObjectKey>, i: nat, round: Round)
    requires i < |keys| && Passes(keys, i, round)
    requires Found(keys, i, round) ==> StatusAt(keys, i, round) in {Unschedulable, Fail, Unknown}
    ensures Stops(keys, i, round)
  {
  }

  lemma WaitsHere(keys: seq<ObjectKey>, i: nat, round: Round)
    requires i < |keys| && Passes(keys, i, round) && Found(keys, i, round) && StatusAt(keys, i, round) == Wait
    ensures MustWait(keys, round)
  {
  }

  /** The pods of the first `n` keys. */
  function PodsAt(keys: seq<ObjectKey>, n: nat, round: Round): (r: seq<Pod>)
    requires n <= |keys| && Passes(keys, n, round)
    ensures |r| == n
  {
    if n == 0 then [] else
    assert Found(keys, n - 1, round);
    PodsAt(keys, n - 1, round) + [PodAt(keys, n - 1, round)]
  }

  lemma ChosenStep(keys: seq<ObjectKey>, n: nat, round: Round, status: Status)
    requires 0 < n <= |keys| && Passes(keys, n, round)
    ensures Passes(keys, n - 1, round) && Found(keys, n - 1, round)
    ensures PodsAt(keys, n, round) == PodsAt(keys, n - 1, round) + [PodAt(keys, n - 1, round)]
    ensures StatusAt(keys, n - 1, round) == status ==>
              Chosen(keys, n, round, status) == Chosen(keys, n - 1, round, status) + [PodAt(keys, n - 1, round)]
    ensures StatusAt(keys, n - 1, round) != status ==>
              Chosen(keys, n, round, status) == Chosen(keys, n - 1, round, status)
    ensures StatusAt(keys, n - 1, round) == Success || StatusAt(keys, n - 1, round) == Skip
  {
    assert Found(keys, n - 1, round);
  }

  /** In a round that passes, the ready and the skipped pods together are the keys' pods, each once. */
  lemma {:induction false} ChosenPartition(keys: seq<ObjectKey>, n: nat, round: Round)
    requires n <= |keys| && Passes(keys, n, round)
    ensures multiset(Chosen(keys, n, round, Success)) + multiset(Chosen(keys, n, round, Skip))
         == multiset(PodsAt(keys, n, round))
    decreases n
  {
    if n > 0 {
      hide Chosen, PodsAt, Passes, Found, StatusAt, PodAt;
      ChosenStep(keys, n, round, Success);
      ChosenStep(keys, n, round, Skip);
      ChosenPartition(keys, n - 1, round);
      var ready, skipped := Chosen(keys, n - 1, round, Success), Chosen(keys, n - 1, round, Skip);
      var pods, pod := PodsAt(keys, n - 1, round), PodAt(keys, n - 1, round);
      if StatusAt(keys, n - 1, round) == Success {
        OneMore(ready, skipped, pods, pod);
      } else {
        OneMoreRight(ready, skipped, pods, pod);
      }
    }
  }

  lemma {:induction false} ChosenCount(keys: seq<ObjectKey>, n: nat, round: Round)
    requires n <= |keys| && Passes(keys, n, round)
    ensures |Chosen(keys, n, round, Success)| + |Chosen(keys, n, round, Skip)| == n
    decreases n
  {
    if n > 0 {
      ChosenStep(keys, n, round, Success);
      ChosenStep(keys, n, round, Skip);
      ChosenCount(keys, n - 1, round);
    }
  }

  lemma OneMoreRight<T>(a: seq<T>, b: seq<T>, all: seq<T>, x: T)
    requires multiset(a) + multiset(b) == multiset(all)
    ensures multiset(a) + multiset(b + [x]) == multiset(all + [x])
  {
  }

  lemma OneMore<T>(a: seq<T>, b: seq<T>, all: seq<T>, x: T)
    requires multiset(a) + multiset(b) == multiset(all)
    ensures multiset(a + [x]) + multiset(b) == multiset(all + [x])
  {
  }

  /** The chosen pods stand in key order: the pod of an earlier key comes first. */
  lemma {:induction false} ChosenInOrder(keys: seq<ObjectKey>, n: nat, round: Round, status: Status, a: nat, b: nat)
    returns (i: nat, j: nat)
    requires n <= |keys| && a < b < |Chosen(keys, n, round, status)|
    ensures i < j < n && keys[i].pod in round.view && keys[j].pod in round.view
    ensures Chosen(keys, n, round, status)[a] == PodAt(keys, i, round)
    ensures Chosen(keys, n, round, status)[b] == PodAt(keys, j, round)
    decreases n
  {
    var front := Chosen(keys, n - 1, round, status);
    if b < |front| {
      i, j := ChosenInOrder(keys, n - 1, round, status, a, b);
    } else {
      j := n - 1;
      i := ChosenComesFrom(keys, n - 1, round, status, a);
    }
  }

  lemma {:induction false} ChosenComesFrom(keys: seq<ObjectKey>, n: nat, round: Round, status: Status, a: nat)
    returns (i: nat)
    requires n <= |keys| && a < |Chosen(keys, n, round, status)|
    ensures i < n && Found(keys, i, round) && StatusAt(keys, i, round) == status
    ensures Chosen(keys, n, round, status)[a] == PodAt(keys, i, round)
    ensures keys[i].pod in round.view && round.reply(i) == Judged(status)
    ensures Chosen(keys, n, round, status)[a] == Pod(keys[i].pod, round.view[keys[i].pod])
    decreases n
  {
    if a < |Chosen(keys, n - 1, round, status)| {
      i := ChosenComesFrom(keys, n - 1, round, status, a);
    } else {
      i := n - 1;
    }
  }
}
