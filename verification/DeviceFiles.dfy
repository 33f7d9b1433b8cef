/** Device files in the target container, as created and removed by pkg/server/mounter/util.go. */
module DeviceFiles {
  import opened DeviceFilter

  datatype DeviceInfo = DeviceInfo(rule: Rule, path: string)

  datatype DevNode = DevNode(kind: char, major: int, minor: int, mode: nat)

  type Files = map<string, DevNode>

  /** 0666 */
  const NODE_MODE: nat := 438

  function NodeOf(dev: DeviceInfo): DevNode {
    DevNode(dev.rule.kind, dev.rule.major, dev.rule.minor, NODE_MODE)
  }

  function Paths(infos: seq<DeviceInfo>): set<string> {
    set d | d in infos :: d.path
  }

  /** The paths of the entries that are not allowed, which are the ones an unmount removes. */
  function DeniedPaths(infos: seq<DeviceInfo>): set<string> {
    set d | d in infos && !d.rule.allow :: d.path
  }

  /** The first entry for the path. */
  function First(infos: seq<DeviceInfo>, path: string): (d: DeviceInfo)
    requires path in Paths(infos)
    ensures d in infos && d.path == path
  {
    if infos[0].path == path then infos[0] else First(infos[1..], path)
  }

  /** What creating every listed file makes of `files`: an existing path is left alone. */
  function Refilled(files: Files, infos: seq<DeviceInfo>): Files
    decreases |infos|
  {
    if infos == [] then files
    else Refilled(if infos[0].path in files then files else files[infos[0].path := NodeOf(infos[0])], infos[1..])
  }

  /** Creating files may fail for some; what was there stays, and what is new is an allowed entry's node. */
  ghost predicate Created(before: Files, after: Files, infos: seq<DeviceInfo>) {
    && before.Keys <= after.Keys <= before.Keys + Paths(infos)
    && (forall p :: p in before ==> after[p] == before[p])
    && forall p :: p in after && p !in before ==>
         exists d :: d in infos && d.rule.allow && d.path == p && after[p] == NodeOf(d)
  }

  /** What is new is the device that an allowed entry lists under the path, open to all users. */
  ghost predicate AsCreated(before: Files, after: Files, infos: seq<DeviceInfo>) {
    forall p :: p in after && p !in before ==>
      exists d :: d in infos && d.rule.allow && d.path == p && after[p].kind == d.rule.kind
                  && after[p].major == d.rule.major && after[p].minor == d.rule.minor && after[p].mode == 438
  }

  lemma CreatedAsListed(before: Files, after: Files, infos: seq<DeviceInfo>)
    requires Created(before, after, infos)
    ensures AsCreated(before, after, infos)
  {
    forall p | p in after && p !in before
      ensures exists d :: d in infos && d.rule.allow && d.path == p && after[p].kind == d.rule.kind
                          && after[p].major == d.rule.major && after[p].minor == d.rule.minor && after[p].mode == 438
    {
      var d :| d in infos && d.rule.allow && d.path == p && after[p] == NodeOf(d);
    }
  }

  /** Removing files may fail for some; only paths of entries that are not allowed go. */
  ghost predicate Deleted(before: Files, after: Files, infos: seq<DeviceInfo>) {
    && before.Keys - DeniedPaths(infos) <= after.Keys <= before.Keys
    && forall p :: p in after ==> after[p] == before[p]
  }

  class Container {
    var files: Files
    ghost var undoFailed: bool
    // Some creation or removal that could have succeeded has failed.
    ghost var callFailed: bool

    /** mknod, unless the entry is not allowed; fails on an existing path and otherwise arbitrarily. */
    method AddDeviceFile(dev: DeviceInfo) returns (ok: bool)
      modifies this`files, this`callFailed
      ensures old(callFailed) ==> callFailed
      ensures !ok && dev.path !in old(files) ==> callFailed
      ensures !dev.rule.allow ==> ok && files == old(files)
      ensures dev.rule.allow && ok ==> dev.path !in old(files) && files == old(files)[dev.path := NodeOf(dev)]
      ensures !ok ==> files == old(files)
    {
      if !dev.rule.allow {
        return true;
      }
      ok := *;
      if dev.path in files {
        ok := false;
      } else if !ok {
        callFailed := true;
      }
      if ok {
        files := files[dev.path := NodeOf(dev)];
      }
    }

    /** rm, unless the entry is allowed; fails on a missing path and otherwise arbitrarily. */
    method RemoveDeviceFile(dev: DeviceInfo) returns (ok: bool)
      modifies this`files, this`callFailed
      ensures old(callFailed) ==> callFailed
      ensures !ok && dev.path in old(files) ==> callFailed
      ensures dev.rule.allow ==> ok && files == old(files)
      ensures !dev.rule.allow && ok ==> dev.path in old(files) && files == old(files) - {dev.path}
      ensures !ok ==> files == old(files)
    {
      if dev.rule.allow {
        return true;
      }
      ok := *;
      if dev.path !in files {
        ok := false;
      } else if !ok {
        callFailed := true;
      }
      if ok {
        files := files - {dev.path};
      }
    }

    /** Failures are passed over. */
    method CreateDeviceFiles(infos: seq<DeviceInfo>)
      modifies this`files, this`callFailed
      ensures Created(old(files), files, infos) && AsCreated(old(files), files, infos)
      ensures !callFailed ==> forall d :: d in infos && d.rule.allow ==> d.path in files
    {
      for i := 0 to |infos|
        invariant Created(old(files), files, infos)
        invariant !callFailed ==> forall j :: 0 <= j < i && infos[j].rule.allow ==> infos[j].path in files
      {
        assert infos[i] in infos;
        var _ := AddDeviceFile(infos[i]);
      }
      CreatedAsListed(old(files), files, infos);
    }

    method DeleteDeviceFiles(infos: seq<DeviceInfo>)
      modifies this`files, this`callFailed
      ensures Deleted(old(files), files, infos)
      ensures !callFailed ==> files == old(files) - DeniedPaths(infos)
    {
      for i := 0 to |infos|
        invariant Deleted(old(files), files, infos)
        invariant !callFailed ==> forall j :: 0 <= j < i && !infos[j].rule.allow ==> infos[j].path !in files
      {
        assert infos[i] in infos;
        var _ := RemoveDeviceFile(infos[i]);
      }
    }

    /** The rollback of CreateDeviceFiles: removes every listed path, created or not. */
    method RollBackCreate(infos: seq<DeviceInfo>)
      modifies this
      ensures old(undoFailed) ==> undoFailed
      ensures !undoFailed ==> files == old(files) - Paths(infos)
    {
      for i := 0 to |infos|
        invariant old(undoFailed) ==> undoFailed
        invariant !undoFailed ==> files == old(files) - Paths(infos[..i])
      {
        assert infos[..i + 1] == infos[..i] + [infos[i]];
        assert Paths(infos[..i + 1]) == Paths(infos[..i]) + {infos[i].path};
        var dev := infos[i].(rule := infos[i].rule.(allow := false));
        ghost var present := dev.path in files;
        var ok := RemoveDeviceFile(dev);
        if present && !ok {
          undoFailed := true;
        }
      }
      assert infos[..|infos|] == infos;
    }

    /** The rollback of DeleteDeviceFiles: creates every listed path that is missing. */
    method RollBackDelete(infos: seq<DeviceInfo>)
      modifies this
      ensures old(undoFailed) ==> undoFailed
      ensures !undoFailed ==> files == Refilled(old(files), infos)
    {
      for i := 0 to |infos|
        invariant old(undoFailed) ==> undoFailed
        invariant !undoFailed ==> Refilled(files, infos[i..]) == Refilled(old(files), infos)
      {
        assert infos[i..][1..] == infos[i + 1..];
        var dev := infos[i].(rule := infos[i].rule.(allow := true));
        assert NodeOf(dev) == NodeOf(infos[i]);
        ghost var present := dev.path in files;
        var ok := AddDeviceFile(dev);
        if !present && !ok {
          undoFailed := true;
        }
      }
      assert infos[|infos|..] == [];
    }
  }

  /** A rolled-back creation restores the files exactly when none of the listed paths existed before. */
  lemma CreateUndoneIff(before: Files, after: Files, infos: seq<DeviceInfo>)
    requires Created(before, after, infos)
    ensures after - Paths(infos) == before <==> Paths(infos) !! before.Keys
  {
    if Paths(infos) !! before.Keys {
      assert (after - Paths(infos)).Keys == before.Keys;
    } else {
      var p :| p in Paths(infos) && p in before;
      assert p !in after - Paths(infos);
    }
  }

  lemma {:induction false} RefilledIs(files: Files, infos: seq<DeviceInfo>)
    ensures Refilled(files, infos).Keys == files.Keys + Paths(infos)
    ensures forall p :: p in files ==> Refilled(files, infos)[p] == files[p]
    ensures forall p :: p in Paths(infos) && p !in files ==> Refilled(files, infos)[p] == NodeOf(First(infos, p))
    decreases |infos|
  {
    if infos != [] {
      var d := infos[0];
      RefilledIs(if d.path in files then files else files[d.path := NodeOf(d)], infos[1..]);
      assert Paths(infos) == {d.path} + Paths(infos[1..]);
    }
  }

  /** Every listed file was there, and those to be removed were the nodes that the list describes. */
  predicate AsListed(before: Files, infos: seq<DeviceInfo>) {
    forall p :: p in Paths(infos) ==>
      p in before && (p in DeniedPaths(infos) ==> before[p] == NodeOf(First(infos, p)))
  }

  /** A rolled-back deletion restores the files if they were as listed, whichever removals succeeded. */
  lemma DeleteUndone(before: Files, after: Files, infos: seq<DeviceInfo>)
    requires Deleted(before, after, infos) && AsListed(before, infos)
    ensures Refilled(after, infos) == before
  {
    hide Refilled, First;
    RefilledIs(after, infos);
    assert DeniedPaths(infos) <= Paths(infos);
    assert Refilled(after, infos).Keys == before.Keys;
  }

  /** When all removals succeeded, it restores the files exactly in that case. */
  lemma DeleteUndoneIff(before: Files, infos: seq<DeviceInfo>)
    ensures Refilled(before - DeniedPaths(infos), infos) == before <==> AsListed(before, infos)
  {
    var after := before - DeniedPaths(infos);
    RefilledIs(after, infos);
    if AsListed(before, infos) {
      DeleteUndone(before, after, infos);
    } else {
      var p :| p in Paths(infos)
        && !(p in before && (p in DeniedPaths(infos) ==> before[p] == NodeOf(First(infos, p))));
      assert p in Refilled(after, infos);
    }
  }
}
