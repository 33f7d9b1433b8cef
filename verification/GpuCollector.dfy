/** The GPU index of pkg/devices/nvidia/gpu/collector.go, refreshed from the kubelet's listing. */
module GpuCollector {
  import opened Wrappers

  datatype State = Free | Allocated

  datatype Owner = Owner(podName: string, podNamespace: string, containerName: string)

  class NvidiaGPU {
    const minorNumber: int
    const uuid: string
    var state: State
    var owner: Owner

    constructor (minorNumber: int, uuid: string)
      ensures this.minorNumber == minorNumber && this.uuid == uuid
      ensures state == Free && owner == NO_OWNER
    {
      this.minorNumber := minorNumber;
      this.uuid := uuid;
      state := Free;
      owner := NO_OWNER;
    }

    method ResetState()
      modifies this
      ensures state == Free && owner == NO_OWNER
    {
      owner := NO_OWNER;
      state := Free;
    }
  }

  const NO_OWNER: Owner := Owner("", "", "")

  // The kubelet's answer.

  datatype ContainerDevices = ContainerDevices(resourceName: string, deviceIds: seq<string>)

  datatype Container = Container(name: string, devices: seq<ContainerDevices>)

  datatype PodResources = PodResources(name: string, namespace: string, containers: seq<Container>)

  /** One mention of a GPU: by which container, under which UUID. */
  datatype Claim = Claim(owner: Owner, uuid: string)

  function DeviceClaims(o: Owner, d: ContainerDevices, resource: string): (r: seq<Claim>) {
    if d.resourceName != resource then []
    else seq(|d.deviceIds|, i requires 0 <= i < |d.deviceIds| => Claim(o, d.deviceIds[i]))
  }

  function ContainerClaims(o: Owner, ds: seq<ContainerDevices>, resource: string): seq<Claim> {
    if ds == [] then [] else ContainerClaims(o, ds[..|ds| - 1], resource) + DeviceClaims(o, ds[|ds| - 1], resource)
  }

  function PodClaims(pod: PodResources, cs: seq<Container>, resource: string): seq<Claim> {
    if cs == [] then []
    else
      var c := cs[|cs| - 1];
      PodClaims(pod, cs[..|cs| - 1], resource)
      + ContainerClaims(Owner(pod.name, pod.namespace, c.name), c.devices, resource)
  }

  /** All mentions, in the order of the listing. */
  function Claims(pods: seq<PodResources>, resource: string): seq<Claim> {
    if pods == [] then []
    else
      var pod := pods[|pods| - 1];
      Claims(pods[..|pods| - 1], resource) + PodClaims(pod, pod.containers, resource)
  }

  /** The container that mentions the UUID last, None when none does. */
  function LastOwner(claims: seq<Claim>, uuid: string): Option<Owner> {
    if claims == [] then None
    else if claims[|claims| - 1].uuid == uuid then Some(claims[|claims| - 1].owner)
    else LastOwner(claims[..|claims| - 1], uuid)
  }

  // Mentions in the listing itself.

  /** Pod `i`, its container `j`, the container's entry `k` and the entry's id `l`. */
  datatype Spot = Spot(i: nat, j: nat, k: nat, l: nat)

  /** The id at the spot, in an entry for the resource, is the UUID. */
  predicate Mentions(pods: seq<PodResources>, resource: string, uuid: string, s: Spot) {
    && s.i < |pods| && s.j < |pods[s.i].containers| && s.k < |pods[s.i].containers[s.j].devices|
    && var d := pods[s.i].containers[s.j].devices[s.k];
       d.resourceName == resource && s.l < |d.deviceIds| && d.deviceIds[s.l] == uuid
  }

  /** The order of the listing. */
  predicate Later(s: Spot, t: Spot) {
    || s.i > t.i
    || (s.i == t.i && (s.j > t.j || (s.j == t.j && (s.k > t.k || (s.k == t.k && s.l > t.l)))))
  }

  /** The spot mentions the UUID, and no later one does. */
  ghost predicate LastMention(pods: seq<PodResources>, resource: string, uuid: string, s: Spot) {
    Mentions(pods, resource, uuid, s) && forall t :: Mentions(pods, resource, uuid, t) ==> !Later(t, s)
  }

  /** The container at the spot, with its pod. */
  function OwnerAt(pods: seq<PodResources>, s: Spot): Owner
    requires s.i < |pods| && s.j < |pods[s.i].containers|
  {
    Owner(pods[s.i].name, pods[s.i].namespace, pods[s.i].containers[s.j].name)
  }

  /** The spot is the last of those before `end` that mention the UUID. */
  ghost predicate LastBefore(pods: seq<PodResources>, resource: string, uuid: string, s: Spot, end: Spot) {
    && Mentions(pods, resource, uuid, s) && Later(end, s)
    && forall t :: Mentions(pods, resource, uuid, t) && Later(end, t) ==> !Later(t, s)
  }

  /** The claims tell who owns the UUID as far as the listing was searched, up to `end`. */
  ghost predicate Searched(pods: seq<PodResources>, resource: string, uuid: string, claims: seq<Claim>, end: Spot) {
    match LastOwner(claims, uuid)
    case None => forall t :: Mentions(pods, resource, uuid, t) ==> !Later(end, t)
    case Some(o) => exists s :: LastBefore(pods, resource, uuid, s, end) && o == OwnerAt(pods, s)
  }

  /** Between `end` and `next` nothing mentions the UUID. */
  lemma SearchGoesOn(pods: seq<PodResources>, resource: string, uuid: string, claims: seq<Claim>, end: Spot, next: Spot)
    requires Searched(pods, resource, uuid, claims, end)
    requires forall t :: Mentions(pods, resource, uuid, t) ==> (Later(end, t) <==> Later(next, t))
    ensures Searched(pods, resource, uuid, claims, next)
  {
    hide Later;
    if LastOwner(claims, uuid).Some? {
      var s :| LastBefore(pods, resource, uuid, s, end) && LastOwner(claims, uuid) == Some(OwnerAt(pods, s));
      assert LastBefore(pods, resource, uuid, s, next);
    }
  }

  lemma SearchId(pods: seq<PodResources>, resource: string, uuid: string, claims: seq<Claim>, s: Spot)
    requires s.i < |pods| && s.j < |pods[s.i].containers| && s.k < |pods[s.i].containers[s.j].devices|
    requires var d := pods[s.i].containers[s.j].devices[s.k]; d.resourceName == resource && s.l < |d.deviceIds|
    requires Searched(pods, resource, uuid, claims, s)
    ensures var id := pods[s.i].containers[s.j].devices[s.k].deviceIds[s.l];
            Searched(pods, resource, uuid, claims + [Claim(OwnerAt(pods, s), id)], s.(l := s.l + 1))
  {
    var id := pods[s.i].containers[s.j].devices[s.k].deviceIds[s.l];
    var more, next := claims + [Claim(OwnerAt(pods, s), id)], s.(l := s.l + 1);
    assert more[..|claims|] == claims;
    if id == uuid {
      assert LastBefore(pods, resource, uuid, s, next);
    } else {
      assert forall t :: Mentions(pods, resource, uuid, t) ==> t != s;
      SearchGoesOn(pods, resource, uuid, claims, s, next);
      hide Mentions, Later, OwnerAt;
      assert LastOwner(more, uuid) == LastOwner(claims, uuid);
    }
  }

  lemma {:induction false} SearchIds(pods: seq<PodResources>, resource: string, uuid: string, claims: seq<Claim>,
                                     s: Spot, n: nat)
    requires s.i < |pods| && s.j < |pods[s.i].containers| && s.k < |pods[s.i].containers[s.j].devices| && s.l == 0
    requires var d := pods[s.i].containers[s.j].devices[s.k]; d.resourceName == resource && n <= |d.deviceIds|
    requires Searched(pods, resource, uuid, claims, s)
    ensures var d := pods[s.i].containers[s.j].devices[s.k];
            Searched(pods, resource, uuid, claims + DeviceClaims(OwnerAt(pods, s), d, resource)[..n], s.(l := n))
    decreases n
  {
    var o, d := OwnerAt(pods, s), pods[s.i].containers[s.j].devices[s.k];
    var mine := DeviceClaims(o, d, resource);
    hide Searched;
    if n == 0 {
      assert claims + mine[..0] == claims;
    } else {
      SearchIds(pods, resource, uuid, claims, s, n - 1);
      SearchId(pods, resource, uuid, claims + mine[..n - 1], s.(l := n - 1));
      assert claims + mine[..n] == claims + mine[..n - 1] + [Claim(o, d.deviceIds[n - 1])];
    }
  }

  lemma SearchEntry(pods: seq<PodResources>, resource: string, uuid: string, claims: seq<Claim>, s: Spot)
    requires s.i < |pods| && s.j < |pods[s.i].containers| && s.k < |pods[s.i].containers[s.j].devices| && s.l == 0
    requires Searched(pods, resource, uuid, claims, s)
    ensures var d := pods[s.i].containers[s.j].devices[s.k];
            Searched(pods, resource, uuid, claims + DeviceClaims(OwnerAt(pods, s), d, resource), s.(k := s.k + 1))
  {
    var d := pods[s.i].containers[s.j].devices[s.k];
    var mine := DeviceClaims(OwnerAt(pods, s), d, resource);
    if d.resourceName == resource {
      var n := |d.deviceIds|;
      SearchIds(pods, resource, uuid, claims, s, n);
      assert mine[..n] == mine;
      SearchGoesOn(pods, resource, uuid, claims + mine, s.(l := n), s.(k := s.k + 1));
    } else {
      assert claims + mine == claims;
      SearchGoesOn(pods, resource, uuid, claims, s, s.(k := s.k + 1));
    }
  }

  lemma {:induction false} SearchContainer(pods: seq<PodResources>, resource: string, uuid: string, claims: seq<Claim>,
                                           i: nat, j: nat, n: nat)
    requires i < |pods| && j < |pods[i].containers| && n <= |pods[i].containers[j].devices|
    requires Searched(pods, resource, uuid, claims, Spot(i, j, 0, 0))
    ensures var c, o := pods[i].containers[j], OwnerAt(pods, Spot(i, j, 0, 0));
            Searched(pods, resource, uuid, claims + ContainerClaims(o, c.devices[..n], resource), Spot(i, j, n, 0))
    decreases n
  {
    hide Searched, DeviceClaims;
    var c, o := pods[i].containers[j], OwnerAt(pods, Spot(i, j, 0, 0));
    var mine := ContainerClaims(o, c.devices[..n], resource);
    if n == 0 {
      assert claims + mine == claims;
    } else {
      assert c.devices[..n][..n - 1] == c.devices[..n - 1];
      var before := ContainerClaims(o, c.devices[..n - 1], resource);
      SearchContainer(pods, resource, uuid, claims, i, j, n - 1);
      SearchEntry(pods, resource, uuid, claims + before, Spot(i, j, n - 1, 0));
      Associates(claims, before, DeviceClaims(o, c.devices[n - 1], resource));
    }
  }

  lemma Associates<T>(a: seq<T>, b: seq<T>, c: seq<T>)
    ensures a + b + c == a + (b + c)
  {
  }

  lemma {:induction false} SearchPod(pods: seq<PodResources>, resource: string, uuid: string, claims: seq<Claim>,
                                     i: nat, n: nat)
    requires i < |pods| && n <= |pods[i].containers|
    requires Searched(pods, resource, uuid, claims, Spot(i, 0, 0, 0))
    ensures Searched(pods, resource, uuid, claims + PodClaims(pods[i], pods[i].containers[..n], resource),
                     Spot(i, n, 0, 0))
    decreases n
  {
    hide Searched, ContainerClaims;
    var pod := pods[i];
    var mine := PodClaims(pod, pod.containers[..n], resource);
    if n == 0 {
      assert claims + mine == claims;
    } else {
      assert pod.containers[..n][..n - 1] == pod.containers[..n - 1];
      var c := pod.containers[n - 1];
      var o := Owner(pod.name, pod.namespace, c.name);
      var before := PodClaims(pod, pod.containers[..n - 1], resource);
      var m := |c.devices|;
      SearchPod(pods, resource, uuid, claims, i, n - 1);
      SearchContainer(pods, resource, uuid, claims + before, i, n - 1, m);
      assert c.devices[..m] == c.devices;
      Associates(claims, before, ContainerClaims(o, c.devices, resource));
      SearchGoesOn(pods, resource, uuid, claims + mine, Spot(i, n - 1, m, 0), Spot(i, n, 0, 0));
    }
  }

  lemma {:induction false} SearchPods(pods: seq<PodResources>, resource: string, uuid: string, n: nat)
    requires n <= |pods|
    ensures Searched(pods, resource, uuid, Claims(pods[..n], resource), Spot(n, 0, 0, 0))
    decreases n
  {
    if n > 0 {
      hide Searched, PodClaims;
      assert pods[..n][..n - 1] == pods[..n - 1];
      var pod, before := pods[n - 1], Claims(pods[..n - 1], resource);
      var m := |pod.containers|;
      SearchPods(pods, resource, uuid, n - 1);
      SearchPod(pods, resource, uuid, before, n - 1, m);
      assert pod.containers[..m] == pod.containers;
      SearchGoesOn(pods, resource, uuid, before + PodClaims(pod, pod.containers, resource), Spot(n - 1, m, 0, 0),
                   Spot(n, 0, 0, 0));
    }
  }

  lemma OneLastMention(pods: seq<PodResources>, resource: string, uuid: string, s: Spot, t: Spot)
    requires LastMention(pods, resource, uuid, s) && LastMention(pods, resource, uuid, t)
    ensures s == t
  {
    hide Mentions;
    assert !Later(s, t) && !Later(t, s);
  }

  /** The claims of a listing: a UUID belongs to the container of its last mention. */
  lemma ClaimsAreMentions(pods: seq<PodResources>, resource: string, uuid: string)
    ensures LastOwner(Claims(pods, resource), uuid).None? <==> forall s :: !Mentions(pods, resource, uuid, s)
    ensures LastOwner(Claims(pods, resource), uuid).Some? <==> exists s :: LastMention(pods, resource, uuid, s)
    ensures forall s :: LastMention(pods, resource, uuid, s) ==>
              LastOwner(Claims(pods, resource), uuid)
              == Some(Owner(pods[s.i].name, pods[s.i].namespace, pods[s.i].containers[s.j].name))
  {
    var end := Spot(|pods|, 0, 0, 0);
    assert pods[..|pods|] == pods;
    SearchPods(pods, resource, uuid, |pods|);
    hide LastOwner, Claims;
    assert forall t :: Mentions(pods, resource, uuid, t) ==> Later(end, t);
    hide Later;
    if LastOwner(Claims(pods, resource), uuid).Some? {
      var s :| LastBefore(pods, resource, uuid, s, end)
               && LastOwner(Claims(pods, resource), uuid) == Some(OwnerAt(pods, s));
      assert LastMention(pods, resource, uuid, s);
      forall t | LastMention(pods, resource, uuid, t)
        ensures t == s
      {
        OneLastMention(pods, resource, uuid, s, t);
      }
    }
  }

  function Uuids(gpus: seq<NvidiaGPU>): (r: seq<string>)
    ensures |r| == |gpus|
  {
    seq(|gpus|, i requires 0 <= i < |gpus| => gpus[i].uuid)
  }

  /** The known UUIDs after the claims: an unknown one that the driver describes is added behind. */
  function Known(uuids: seq<string>, claims: seq<Claim>, driver: map<string, int>): seq<string> {
    if claims == [] then uuids
    else
      var front, u := Known(uuids, claims[..|claims| - 1], driver), claims[|claims| - 1].uuid;
      if u in front || u !in driver then front else front + [u]
  }

  /** Known in the end is what was known before, and what is claimed and described by the driver. */
  lemma {:induction false} KnownIs(uuids: seq<string>, claims: seq<Claim>, driver: map<string, int>, u: string)
    ensures u in Known(uuids, claims, driver) <==>
              u in uuids || (u in driver && exists c :: c in claims && c.uuid == u)
    decreases |claims|
  {
    if claims != [] {
      var front, last := claims[..|claims| - 1], claims[|claims| - 1];
      KnownIs(uuids, front, driver, u);
      assert claims == front + [last];
    }
  }

  lemma IsListed(gpus: seq<NvidiaGPU>, uuid: string)
    ensures uuid in Uuids(gpus) <==> exists g :: g in gpus && g.uuid == uuid
  {
    if uuid in Uuids(gpus) {
      var i :| 0 <= i < |gpus| && Uuids(gpus)[i] == uuid;
    } else {
      forall g | g in gpus
        ensures g.uuid != uuid
      {
        var i :| 0 <= i < |gpus| && gpus[i] == g;
        assert Uuids(gpus)[i] == g.uuid;
      }
    }
  }

  /**
   The GPU is allocated to the container of its last mention in the listing, with its pod's name and
   namespace, and free when nothing mentions it.
   */
  ghost predicate Follows(g: NvidiaGPU, pods: seq<PodResources>, resource: string)
    reads g
  {
    && ((forall s :: !Mentions(pods, resource, g.uuid, s)) ==>
          g.state == Free && g.owner.podName == "" && g.owner.podNamespace == "" && g.owner.containerName == "")
    && (forall s :: LastMention(pods, resource, g.uuid, s) ==>
          && g.state == Allocated && g.owner.podName == pods[s.i].name && g.owner.podNamespace == pods[s.i].namespace
          && g.owner.containerName == pods[s.i].containers[s.j].name)
  }

  /** The container of the last mention is in the pod. */
  ghost predicate HeldBy(pods: seq<PodResources>, resource: string, uuid: string, podName: string,
                         podNamespace: string) {
    exists s :: LastMention(pods, resource, uuid, s)
                && pods[s.i].name == podName && pods[s.i].namespace == podNamespace
  }

  lemma {:induction false} SomeOwnerIff(claims: seq<Claim>, uuid: string)
    ensures LastOwner(claims, uuid).Some? <==> exists c :: c in claims && c.uuid == uuid
    decreases |claims|
  {
    if claims != [] {
      var front, last := claims[..|claims| - 1], claims[|claims| - 1];
      SomeOwnerIff(front, uuid);
      assert claims == front + [last];
    }
  }

  /** Listed are the first GPUs and those that the listing mentions and the driver knows. */
  lemma ListedIff(list: seq<NvidiaGPU>, first: seq<NvidiaGPU>, pods: seq<PodResources>, resource: string,
                  driver: map<string, int>, uuid: string)
    requires Lists(list, first, Claims(pods, resource), driver)
    ensures (exists g :: g in list && g.uuid == uuid) <==>
              || (exists g :: g in first && g.uuid == uuid)
              || (uuid in driver && exists s :: Mentions(pods, resource, uuid, s))
  {
    var claims := Claims(pods, resource);
    IsListed(list, uuid);
    IsListed(first, uuid);
    KnownIs(Uuids(first), claims, driver, uuid);
    SomeOwnerIff(claims, uuid);
    ClaimsAreMentions(pods, resource, uuid);
  }

  lemma HeldIff(pods: seq<PodResources>, resource: string, uuid: string, podName: string, podNamespace: string)
    requires podName != ""
    ensures OwnedBy(Claims(pods, resource), uuid, podName, podNamespace)
       <==> HeldBy(pods, resource, uuid, podName, podNamespace)
  {
    ClaimsAreMentions(pods, resource, uuid);
    hide Claims, LastOwner, LastMention;
  }

  lemma {:induction false} InOwnedAmong(gpus: seq<NvidiaGPU>, claims: seq<Claim>, podName: string,
                                        podNamespace: string, g: NvidiaGPU)
    ensures g in OwnedAmong(gpus, claims, podName, podNamespace)
       <==> g in gpus && OwnedBy(claims, g.uuid, podName, podNamespace)
    decreases |gpus|
  {
    hide OwnedBy;
    if gpus != [] {
      var front, last := gpus[..|gpus| - 1], gpus[|gpus| - 1];
      InOwnedAmong(front, claims, podName, podNamespace, g);
      assert gpus == front + [last];
    }
  }

  predicate FromDriver(g: NvidiaGPU, driver: map<string, int>) {
    g.uuid in driver && g.minorNumber == driver[g.uuid]
  }

  /** Listed are the first GPUs and those that the claims made known, which the driver describes. */
  ghost predicate Lists(list: seq<NvidiaGPU>, first: seq<NvidiaGPU>, claims: seq<Claim>, driver: map<string, int>) {
    && first <= list
    && Uuids(list) == Known(Uuids(first), claims, driver)
    && forall k :: |first| <= k < |list| ==> FromDriver(list[k], driver)
  }

  /** A claim on a known GPU, or on one that the driver does not describe, adds none. */
  lemma ListsAsBefore(list: seq<NvidiaGPU>, first: seq<NvidiaGPU>, claims: seq<Claim>, driver: map<string, int>,
                      c: Claim)
    requires Lists(list, first, claims, driver) && (c.uuid in Uuids(list) || c.uuid !in driver)
    ensures Lists(list, first, claims + [c], driver)
  {
    assert (claims + [c])[..|claims|] == claims;
  }

  lemma ListsOneMore(list: seq<NvidiaGPU>, first: seq<NvidiaGPU>, claims: seq<Claim>, driver: map<string, int>,
                     c: Claim, added: NvidiaGPU)
    requires Lists(list, first, claims, driver) && c.uuid !in Uuids(list)
    requires FromDriver(added, driver) && added.uuid == c.uuid
    ensures Lists(list + [added], first, claims + [c], driver)
  {
    assert (claims + [c])[..|claims|] == claims;
    assert Uuids(list + [added]) == Uuids(list) + [c.uuid];
  }

  class Collector {
    var list: seq<NvidiaGPU>

    /** No GPU is listed twice, as an object or by UUID. */
    ghost predicate Valid()
      reads this
    {
      forall i, j :: 0 <= i < j < |list| ==> list[i] != list[j] && list[i].uuid != list[j].uuid
    }

    /** Every GPU has the state that the claims give it. */
    ghost predicate Agrees(claims: seq<Claim>)
      reads this, list
    {
      forall g :: g in list ==>
        match LastOwner(claims, g.uuid)
        case None => g.state == Free && g.owner == NO_OWNER
        case Some(o) => g.state == Allocated && g.owner == o
    }

    method GetGPUByUUID(uuid: string) returns (gpu: NvidiaGPU?)
      ensures gpu == null <==> forall g :: g in list ==> g.uuid != uuid
      ensures gpu != null ==> gpu in list && gpu.uuid == uuid
    {
      for i := 0 to |list|
        invariant forall j :: 0 <= j < i ==> list[j].uuid != uuid
      {
        if list[i].uuid == uuid {
          return list[i];
        }
      }
      return null;
    }

    method ResetGPUStatus()
      requires Valid()
      modifies list
      ensures Agrees([])
    {
      for i := 0 to |list|
        invariant forall j :: 0 <= j < i ==> list[j].state == Free && list[j].owner == NO_OWNER
      {
        list[i].ResetState();
      }
    }

    /** One mention of a GPU: one that is not listed is looked up with the driver, which may not know it. */
    method Assign(o: Owner, uuid: string, driver: map<string, int>, ghost first: seq<NvidiaGPU>,
                  ghost claims: seq<Claim>)
      requires Valid() && Agrees(claims) && Lists(list, first, claims, driver)
      modifies this, list
      ensures Valid() && Agrees(claims + [Claim(o, uuid)]) && Lists(list, first, claims + [Claim(o, uuid)], driver)
      ensures old(list) <= list && forall k :: |old(list)| <= k < |list| ==> fresh(list[k])
    {
      hide Lists, Uuids;
      ghost var claim := Claim(o, uuid);
      assert (claims + [claim])[..|claims|] == claims;
      IsListed(list, uuid);
      var gpu := GetGPUByUUID(uuid);
      if gpu == null {
        if uuid !in driver {
          ListsAsBefore(list, first, claims, driver, claim);
          return;
        }
        var added := new NvidiaGPU(driver[uuid], uuid);
        added.state := Allocated;
        added.owner := o;
        ListsOneMore(list, first, claims, driver, claim, added);
        list := list + [added];
      } else {
        ListsAsBefore(list, first, claims, driver, claim);
        gpu.state := Allocated;
        gpu.owner := o;
      }
    }

    method UpdateDevice(o: Owner, d: ContainerDevices, resource: string, ghost first: seq<NvidiaGPU>,
                        ghost claims: seq<Claim>, driver: map<string, int>)
      requires Valid() && Agrees(claims) && Lists(list, first, claims, driver)
      modifies this, list
      ensures Valid() && Agrees(claims + DeviceClaims(o, d, resource))
      ensures Lists(list, first, claims + DeviceClaims(o, d, resource), driver)
      ensures old(list) <= list && forall k :: |old(list)| <= k < |list| ==> fresh(list[k])
    {
      hide Lists, LastOwner;
      ghost var mentions := DeviceClaims(o, d, resource);
      assert claims + [] == claims;
      if d.resourceName != resource {
        return;
      }
      for i := 0 to |d.deviceIds|
        invariant Valid() && Agrees(claims + mentions[..i]) && Lists(list, first, claims + mentions[..i], driver)
        invariant old(list) <= list && forall k :: |old(list)| <= k < |list| ==> fresh(list[k])
      {
        assert claims + mentions[..i + 1] == claims + mentions[..i] + [Claim(o, d.deviceIds[i])];
        Assign(o, d.deviceIds[i], driver, first, claims + mentions[..i]);
      }
      assert mentions[..|d.deviceIds|] == mentions;
    }

    method UpdateContainer(o: Owner, ds: seq<ContainerDevices>, resource: string, ghost first: seq<NvidiaGPU>,
                           ghost claims: seq<Claim>, driver: map<string, int>)
      requires Valid() && Agrees(claims) && Lists(list, first, claims, driver)
      modifies this, list
      ensures Valid() && Agrees(claims + ContainerClaims(o, ds, resource))
      ensures Lists(list, first, claims + ContainerClaims(o, ds, resource), driver)
      ensures old(list) <= list && forall k :: |old(list)| <= k < |list| ==> fresh(list[k])
    {
      hide Lists, LastOwner, DeviceClaims;
      assert claims + ContainerClaims(o, ds[..0], resource) == claims;
      for i := 0 to |ds|
        invariant Valid() && Agrees(claims + ContainerClaims(o, ds[..i], resource))
        invariant Lists(list, first, claims + ContainerClaims(o, ds[..i], resource), driver)
        invariant old(list) <= list && forall k :: |old(list)| <= k < |list| ==> fresh(list[k])
      {
        ghost var before := claims + ContainerClaims(o, ds[..i], resource);
        assert ds[..i + 1][..i] == ds[..i];
        assert claims + ContainerClaims(o, ds[..i + 1], resource) == before + DeviceClaims(o, ds[i], resource);
        UpdateDevice(o, ds[i], resource, first, before, driver);
      }
      assert ds[..|ds|] == ds;
    }

    method UpdatePod(pod: PodResources, resource: string, ghost first: seq<NvidiaGPU>, ghost claims: seq<Claim>,
                     driver: map<string, int>)
      requires Valid() && Agrees(claims) && Lists(list, first, claims, driver)
      modifies this, list
      ensures Valid() && Agrees(claims + PodClaims(pod, pod.containers, resource))
      ensures Lists(list, first, claims + PodClaims(pod, pod.containers, resource), driver)
      ensures old(list) <= list && forall k :: |old(list)| <= k < |list| ==> fresh(list[k])
    {
      hide Lists, LastOwner, ContainerClaims, DeviceClaims;
      var cs := pod.containers;
      assert claims + PodClaims(pod, cs[..0], resource) == claims;
      for i := 0 to |cs|
        invariant Valid() && Agrees(claims + PodClaims(pod, cs[..i], resource))
        invariant Lists(list, first, claims + PodClaims(pod, cs[..i], resource), driver)
        invariant old(list) <= list && forall k :: |old(list)| <= k < |list| ==> fresh(list[k])
      {
        ghost var before := claims + PodClaims(pod, cs[..i], resource);
        var o := Owner(pod.name, pod.namespace, cs[i].name);
        assert cs[..i + 1][..i] == cs[..i];
        assert claims + PodClaims(pod, cs[..i + 1], resource) == before + ContainerClaims(o, cs[i].devices, resource);
        UpdateContainer(o, cs[i].devices, resource, first, before, driver);
      }
      assert cs[..|cs|] == cs;
    }

    /**
     UpdateGPUStatus. A failed listing changes nothing; otherwise every listed GPU belongs to the last
     container that mentions it, or is free, and listed are the GPUs from before and the mentioned ones
     that the driver knows.
     */
    method UpdateGPUStatus(listing: Option<seq<PodResources>>, resource: string, driver: map<string, int>)
      returns (ok: bool)
      requires Valid()
      modifies this, list
      ensures Valid() && ok == listing.Some?
      ensures !ok ==> list == old(list) && forall g :: g in list ==> g.state == old(g.state) && g.owner == old(g.owner)
      ensures ok ==> Agrees(Claims(listing.value, resource))
      ensures ok ==> Lists(list, old(list), Claims(listing.value, resource), driver)
      ensures forall k :: |old(list)| <= k < |list| ==>
                list[k].uuid in driver && list[k].minorNumber == driver[list[k].uuid]
      // The same in terms of the listing itself.
      ensures ok ==> forall g :: g in list ==> Follows(g, listing.value, resource)
      ensures ok ==> forall u ::
                (exists g :: g in list && g.uuid == u) <==>
                  || (exists g :: g in old(list) && g.uuid == u)
                  || (u in driver && exists s :: Mentions(listing.value, resource, u, s))
      ensures old(list) <= list && forall k :: |old(list)| <= k < |list| ==> fresh(list[k])
    {
      hide Claims, Follows, Mentions, Known, Uuids, LastOwner;
      if listing.None? {
        return false;
      }
      ResetGPUStatus();
      UpdatePods(listing.value, resource, driver);
      StatusFollows(listing.value, resource);
      forall u
        ensures (exists g :: g in list && g.uuid == u) <==>
                  || (exists g :: g in old(list) && g.uuid == u)
                  || (u in driver && exists s :: Mentions(listing.value, resource, u, s))
      {
        ListedIff(list, old(list), listing.value, resource, driver, u);
      }
      return true;
    }

    lemma StatusFollows(pods: seq<PodResources>, resource: string)
      requires Agrees(Claims(pods, resource))
      ensures forall g :: g in list ==> Follows(g, pods, resource)
    {
      hide Claims, LastOwner;
      forall g | g in list
        ensures Follows(g, pods, resource)
      {
        ClaimsAreMentions(pods, resource, g.uuid);
        hide LastMention, Mentions;
      }
    }

    /** The search of the listing, after all GPUs were reset. */
    method UpdatePods(pods: seq<PodResources>, resource: string, driver: map<string, int>)
      requires Valid() && Agrees([])
      modifies this, list
      ensures Valid() && Agrees(Claims(pods, resource)) && Lists(list, old(list), Claims(pods, resource), driver)
      ensures old(list) <= list && forall k :: |old(list)| <= k < |list| ==> fresh(list[k])
    {
      ghost var first := list;
      assert Lists(list, first, [], driver);
      hide Lists, LastOwner, PodClaims;
      assert pods[..0] == [];
      for i := 0 to |pods|
        invariant Valid() && Agrees(Claims(pods[..i], resource))
        invariant Lists(list, first, Claims(pods[..i], resource), driver)
        invariant old(list) <= list && forall k :: |old(list)| <= k < |list| ==> fresh(list[k])
      {
        ghost var before := Claims(pods[..i], resource);
        assert pods[..i + 1][..i] == pods[..i];
        assert Claims(pods[..i + 1], resource) == before + PodClaims(pods[i], pods[i].containers, resource);
        UpdatePod(pods[i], resource, first, before, driver);
      }
      assert pods[..|pods|] == pods;
    }

    /** GetPodGPUResources: the listed GPUs that a direct search of the listing gives to the pod. */
    method GetPodGPUResources(podName: string, podNamespace: string, listing: Option<seq<PodResources>>,
                              resource: string, driver: map<string, int>) returns (gpus: Option<seq<NvidiaGPU>>)
      requires Valid()
      modifies this, list
      ensures Valid() && gpus.Some? == listing.Some?
      ensures gpus.Some? ==>
                var claims := Claims(listing.value, resource);
                && Agrees(claims) && Lists(list, old(list), claims, driver)
                && gpus.value == OwnedAmong(list, claims, podName, podNamespace)
      ensures gpus.Some? && podName != "" ==>
                forall g :: g in gpus.value <==>
                  g in list && HeldBy(listing.value, resource, g.uuid, podName, podNamespace)
    {
      var ok := UpdateGPUStatus(listing, resource, driver);
      if !ok {
        return None;
      }
      ghost var claims := Claims(listing.value, resource);
      var found: seq<NvidiaGPU> := [];
      for i := 0 to |list|
        invariant found == OwnedAmong(list[..i], claims, podName, podNamespace)
      {
        assert list[..i + 1][..i] == list[..i];
        if list[i].owner.podName == podName && list[i].owner.podNamespace == podNamespace {
          found := found + [list[i]];
        }
      }
      assert list[..|list|] == list;
      forall g
        ensures g in found <==> g in list && OwnedBy(claims, g.uuid, podName, podNamespace)
        ensures podName != "" ==> (OwnedBy(claims, g.uuid, podName, podNamespace)
                                   <==> HeldBy(listing.value, resource, g.uuid, podName, podNamespace))
      {
        InOwnedAmong(list, claims, podName, podNamespace, g);
        if podName != "" {
          HeldIff(listing.value, resource, g.uuid, podName, podNamespace);
        }
      }
      return Some(found);
    }
  }

  /** The GPUs of the list that the pod owns, in list order. */
  function OwnedAmong(gpus: seq<NvidiaGPU>, claims: seq<Claim>, podName: string, podNamespace: string): seq<NvidiaGPU> {
    if gpus == [] then []
    else
      var last := gpus[|gpus| - 1];
      OwnedAmong(gpus[..|gpus| - 1], claims, podName, podNamespace)
      + if OwnedBy(claims, last.uuid, podName, podNamespace) then [last] else []
  }

  /**
   A direct search of the listing: the last container that mentions the GPU is in the pod. Without a
   mention the GPU counts for the pod without name and namespace.
   */
  predicate OwnedBy(claims: seq<Claim>, uuid: string, podName: string, podNamespace: string) {
    match LastOwner(claims, uuid)
    case None => podName == "" && podNamespace == ""
    case Some(o) => o.podName == podName && o.podNamespace == podNamespace
  }

  /** For a pod with a name, being owned means being mentioned last by one of its containers. */
  lemma {:induction false} OwnedIsMentionedLast(claims: seq<Claim>, uuid: string, podName: string, podNamespace: string)
    requires podName != ""
    ensures OwnedBy(claims, uuid, podName, podNamespace) <==>
              exists i :: 0 <= i < |claims| && claims[i].uuid == uuid
                          && claims[i].owner.podName == podName && claims[i].owner.podNamespace == podNamespace
                          && forall j :: i < j < |claims| ==> claims[j].uuid != uuid
    decreases |claims|
  {
    if claims != [] {
      var last := claims[|claims| - 1];
      var front := claims[..|claims| - 1];
      if last.uuid != uuid {
        OwnedIsMentionedLast(front, uuid, podName, podNamespace);
        assert forall i | 0 <= i < |front| :: front[i] == claims[i];
      }
    }
  }
}
