/**
 The JSON patch by which pkg/watchdog/node_labeller.go reconciles the scheduling labels of a node.
 Patch operations follow section 4 of RFC 6902, pointer escapes section 4 of RFC 6901.
 */
module NodeLabels {
  import opened Wrappers

  type Labels = map<string, string>

  const PREFIX: string := "scheduling.device-mounter.io"

  function LowerChar(c: char): char {
    if 'A' <= c <= 'Z' then (c as int + 32) as char else c
  }

  /** strings.ToLower on ASCII. */
  function ToLower(s: string): (r: string)
    ensures |r| == |s| && forall i :: 0 <= i < |s| ==> r[i] == LowerChar(s[i])
  {
    seq(|s|, i requires 0 <= i < |s| => LowerChar(s[i]))
  }

  function LabelKey(devType: string): string {
    ToLower(PREFIX + "/" + devType)
  }

  predicate HasPrefix(key: string) {
    PREFIX <= key
  }

  function Wanted(types: seq<string>): set<string> {
    set t | t in types :: LabelKey(t)
  }

  /** The key of a device type: the prefix, a slash, and the type with its capitals in lower case. */
  lemma LabelKeyIs(devType: string)
    ensures var key := LabelKey(devType);
            && |key| == 29 + |devType| && "scheduling.device-mounter.io/" <= key
            && forall i :: 0 <= i < |devType| ==>
                 key[29 + i] == if 'A' <= devType[i] <= 'Z' then (devType[i] as int + 32) as char else devType[i]
  {
    var s, key := PREFIX + "/" + devType, LabelKey(devType);
    forall i | 0 <= i < 29
      ensures key[i] == "scheduling.device-mounter.io/"[i]
    {
      assert s[i] == "scheduling.device-mounter.io/"[i];
    }
    assert forall i | 0 <= i < |devType| :: s[29 + i] == devType[i];
  }

  lemma LabelKeyHasPrefix(devType: string)
    ensures HasPrefix(LabelKey(devType))
  {
    var s := PREFIX + "/" + devType;
    forall i | 0 <= i < |PREFIX|
      ensures ToLower(s)[i] == PREFIX[i]
    {
      assert s[i] == PREFIX[i];
    }
  }

  // JSON pointers.

  /** strings.ReplaceAll(key, "/", "~1") */
  function Escape(key: string): string {
    if key == "" then "" else (if key[0] == '/' then "~1" else [key[0]]) + Escape(key[1..])
  }

  /** The name that a reference token stands for; None when a tilde is not followed by 0 or 1. */
  function Unescape(token: string): Option<string> {
    if token == "" then Some("")
    else if token[0] != '~' then
      var rest := Unescape(token[1..]);
      if rest.None? then None else Some([token[0]] + rest.value)
    else if |token| < 2 || (token[1] != '0' && token[1] != '1') then None
    else
      var rest := Unescape(token[2..]);
      if rest.None? then None else Some([if token[1] == '0' then '~' else '/'] + rest.value)
  }

  lemma {:induction false} EscapeHasNoSlash(key: string)
    ensures '/' !in Escape(key)
    decreases |key|
  {
    if key != "" {
      EscapeHasNoSlash(key[1..]);
    }
  }

  lemma {:induction false} UnescapeEscape(key: string)
    requires '~' !in key
    ensures Unescape(Escape(key)) == Some(key)
    decreases |key|
  {
    if key != "" {
      UnescapeEscape(key[1..]);
      var e := Escape(key);
      if key[0] == '/' {
        assert e[2..] == Escape(key[1..]);
      } else {
        assert e[1..] == Escape(key[1..]);
      }
      assert [key[0]] + key[1..] == key;
    }
  }

  function Tildes(s: string): nat {
    if s == "" then 0 else (if s[0] == '~' then 1 else 0) + Tildes(s[1..])
  }

  lemma {:induction false} UnescapeShrinks(token: string)
    ensures Unescape(token).Some? ==> |Unescape(token).value| == |token| - Tildes(token)
    decreases |token|
  {
    if token != "" {
      if token[0] != '~' {
        UnescapeShrinks(token[1..]);
      } else if |token| >= 2 {
        UnescapeShrinks(token[2..]);
        assert token[1..][1..] == token[2..];
      }
    }
  }

  lemma {:induction false} EscapeGrows(key: string)
    ensures |Escape(key)| - Tildes(Escape(key)) == |key| - Tildes(key)
    ensures '~' in key ==> Tildes(key) > 0
    decreases |key|
  {
    if key != "" {
      EscapeGrows(key[1..]);
      var e, rest := Escape(key), Escape(key[1..]);
      if key[0] == '/' {
        assert e[1..] == "1" + rest && e[1..][1..] == rest;
      } else {
        assert e[1..] == rest;
      }
    }
  }

  /** The source's escaping names the label exactly when the key holds no tilde, which it leaves unescaped. */
  lemma EscapeIsFaithfulIff(key: string)
    ensures Unescape(Escape(key)) == Some(key) <==> '~' !in key
  {
    if '~' in key {
      UnescapeShrinks(Escape(key));
      EscapeGrows(key);
    } else {
      UnescapeEscape(key);
    }
  }

  // Patches of /metadata/labels.

  /** An operation on the member that `token` names in /metadata/labels. */
  datatype Operation = Add(token: string, value: string) | Remove(token: string) | Replace(token: string, value: string)

  /** None when the operation is not applicable; a node may have no labels object. */
  function Apply(labels: Option<Labels>, op: Operation): Option<Option<Labels>> {
    if labels.None? || '/' in op.token || Unescape(op.token).None? then None
    else
      var m, key := labels.value, Unescape(op.token).value;
      match op
      case Add(_, v) => Some(Some(m[key := v]))
      case Remove(_) => if key in m then Some(Some(m - {key})) else None
      case Replace(_, v) => if key in m then Some(Some(m[key := v])) else None
  }

  /** A patch is applied in order, and as a whole or not at all. */
  function ApplyAll(labels: Option<Labels>, ops: seq<Operation>): Option<Option<Labels>>
    decreases |ops|
  {
    if ops == [] then Some(labels)
    else
      match Apply(labels, ops[0])
      case None => None
      case Some(next) => ApplyAll(next, ops[1..])
  }

  function Adds(keys: seq<string>): (r: seq<Operation>)
    ensures |r| == |keys|
  {
    seq(|keys|, i requires 0 <= i < |keys| => Add(Escape(keys[i]), "true"))
  }

  function Removes(keys: seq<string>): (r: seq<Operation>)
    ensures |r| == |keys|
  {
    seq(|keys|, i requires 0 <= i < |keys| => Remove(Escape(keys[i])))
  }

  function Replaces(keys: seq<string>): (r: seq<Operation>)
    ensures |r| == |keys|
  {
    seq(|keys|, i requires 0 <= i < |keys| => Replace(Escape(keys[i]), "true"))
  }

  function Present(labels: Option<Labels>): Labels {
    if labels.None? then map[] else labels.value
  }

  predicate DistinctKeys(keys: seq<string>) {
    forall i, j :: 0 <= i < j < |keys| ==> keys[i] != keys[j]
  }

  /** `ops` adds, removes and replaces exactly what the labels and the wanted types call for. */
  ghost predicate IsPatch(labels: Option<Labels>, types: seq<string>, ops: seq<Operation>,
                          add: seq<string>, remove: seq<string>, replace: seq<string>) {
    var m := Present(labels);
    && ops == Adds(add) + Removes(remove) + Replaces(replace)
    && (forall k :: k in add <==> k in Wanted(types) && k !in m)
    && (forall k :: k in remove <==> k in m && HasPrefix(k) && k !in Wanted(types))
    && (forall k :: k in replace <==> k in Wanted(types) && k in m && m[k] != "true")
    && DistinctKeys(remove)
  }

  method ContainsDeviceTypes(key: string, types: seq<string>) returns (found: bool)
    ensures found == (key in Wanted(types))
    ensures found <==> exists i :: 0 <= i < |types| && key == LabelKey(types[i])
  {
    for i := 0 to |types|
      invariant forall j :: 0 <= j < i ==> LabelKey(types[j]) != key
    {
      if key == LabelKey(types[i]) {
        assert types[i] in types;
        return true;
      }
    }
    return false;
  }

  /** The keys of the labels that start with the prefix, in an arbitrary order. */
  method PrefixedKeys(labels: Option<Labels>) returns (keys: seq<string>)
    ensures forall k :: k in keys <==> k in Present(labels) && HasPrefix(k)
    ensures DistinctKeys(keys)
  {
    keys := [];
    var todo := Present(labels).Keys;
    while todo != {}
      invariant todo <= Present(labels).Keys
      invariant forall k :: k in keys <==> k in Present(labels) && HasPrefix(k) && k !in todo
      invariant DistinctKeys(keys)
      decreases |todo|
    {
      var k :| k in todo;
      todo := todo - {k};
      if HasPrefix(k) {
        keys := keys + [k];
      }
    }
  }

  /** The patch that updateLabels sends: it reconciles the labels, and is empty when they are reconciled. */
  method UpdateLabels(labels: Option<Labels>, types: seq<string>) returns (patches: seq<Operation>)
    ensures exists add, remove, replace :: IsPatch(labels, types, patches, add, remove, replace)
    ensures labels.Some? && NoTildes(labels.value, types) ==>
              ApplyAll(labels, patches) == Some(Some(Reconciled(labels.value, types)))
    ensures labels.Some? && NoTildes(labels.value, types) ==>
              exists after :: ApplyAll(labels, patches) == Some(Some(after)) && IsReconciled(labels.value, after, types)
    ensures labels.Some? && IsReconciled(labels.value, labels.value, types) ==> patches == []
    ensures labels.None? ==> (ApplyAll(labels, patches).Some? <==> types == [])
  {
    var labelKeys := PrefixedKeys(labels);
    var addKeys: seq<string>, removeKeys: seq<string>, replaceKeys: seq<string> := [], [], [];
    for i := 0 to |labelKeys|
      invariant forall k :: k in removeKeys <==> k in labelKeys[..i] && k !in Wanted(types)
      invariant DistinctKeys(removeKeys)
    {
      assert labelKeys[..i + 1] == labelKeys[..i] + [labelKeys[i]];
      assert labelKeys[i] !in labelKeys[..i];
      var wanted := ContainsDeviceTypes(labelKeys[i], types);
      if !wanted {
        removeKeys := removeKeys + [labelKeys[i]];
      }
    }
    assert labelKeys[..|labelKeys|] == labelKeys;
    var m := Present(labels);
    for i := 0 to |types|
      invariant forall k :: k in addKeys <==> k in Wanted(types[..i]) && k !in m
      invariant forall k :: k in replaceKeys <==> k in Wanted(types[..i]) && k in m && m[k] != "true"
    {
      var labelKey := LabelKey(types[i]);
      LabelKeyHasPrefix(types[i]);
      WantedGrows(types, i);
      if labelKey !in labelKeys {
        addKeys := addKeys + [labelKey];
      } else if m[labelKey] != "true" {
        replaceKeys := replaceKeys + [labelKey];
      }
    }
    assert types[..|types|] == types;
    patches := Adds(addKeys) + Removes(removeKeys) + Replaces(replaceKeys);
    PatchWorks(labels, types, patches, addKeys, removeKeys, replaceKeys);
    if labels.Some? {
      ReconciledIs(labels.value, types);
    }
  }

  lemma PatchWorks(labels: Option<Labels>, types: seq<string>, ops: seq<Operation>,
                   add: seq<string>, remove: seq<string>, replace: seq<string>)
    requires IsPatch(labels, types, ops, add, remove, replace)
    ensures labels.Some? && NoTildes(labels.value, types) ==>
              ApplyAll(labels, ops) == Some(Some(Reconciled(labels.value, types)))
    ensures labels.Some? && labels.value == Reconciled(labels.value, types) ==> ops == []
    ensures labels.None? ==> (ApplyAll(labels, ops).Some? <==> types == [])
  {
    hide IsPatch, ApplyAll, Reconciled, NoTildes;
    match labels
    case None => NoLabelsObjectIff(types, ops, add, remove, replace);
    case Some(m) =>
      if NoTildes(m, types) {
        PatchReconciles(m, types, ops, add, remove, replace);
      }
      if m == Reconciled(m, types) {
        ReconciledNeedsNoPatch(m, types, ops, add, remove, replace);
      }
  }

  lemma WantedGrows(types: seq<string>, i: nat)
    requires i < |types|
    ensures Wanted(types[..i + 1]) == Wanted(types[..i]) + {LabelKey(types[i])}
  {
    assert types[..i + 1] == types[..i] + [types[i]];
  }

  /** The patch that cleanupLabels sends: it takes away the labels under the prefix, and no others. */
  method CleanupLabels(labels: Option<Labels>) returns (patches: seq<Operation>)
    ensures exists remove :: IsCleanup(labels, patches, remove)
    ensures labels.Some? && NoTildes(labels.value, []) ==>
              ApplyAll(labels, patches) == Some(Some(map k | k in labels.value && !HasPrefix(k) :: labels.value[k]))
  {
    var keys := PrefixedKeys(labels);
    patches := Removes(keys);
    assert IsCleanup(labels, patches, keys);
    if labels.Some? && NoTildes(labels.value, []) {
      CleanupRemovesAll(labels.value, patches, keys);
    }
  }

  /** `ops` removes every label under the prefix once. */
  ghost predicate IsCleanup(labels: Option<Labels>, ops: seq<Operation>, remove: seq<string>) {
    ops == Removes(remove) && DistinctKeys(remove) && forall k :: k in remove <==> k in Present(labels) && HasPrefix(k)
  }

  // What applying the patch does.

  predicate TildeFree(keys: seq<string>) {
    forall k :: k in keys ==> '~' !in k
  }

  /** The labels that a reconciled node has: the wanted ones set to "true", others under the prefix gone. */
  function Reconciled(m: Labels, types: seq<string>): Labels {
    map k | k in m.Keys + Wanted(types) && (k in Wanted(types) || !HasPrefix(k)) ::
      if k in Wanted(types) then "true" else m[k]
  }

  /** Key by key: wanted labels are "true", other labels under the prefix are gone, the rest is as before. */
  ghost predicate IsReconciled(before: Labels, after: Labels, types: seq<string>) {
    forall k ::
      if exists i :: 0 <= i < |types| && k == LabelKey(types[i]) then k in after && after[k] == "true"
      else if "scheduling.device-mounter.io" <= k then k !in after
      else (k in after <==> k in before) && (k in before ==> after[k] == before[k])
  }

  lemma ReconciledIs(m: Labels, types: seq<string>)
    ensures IsReconciled(m, Reconciled(m, types), types)
    ensures IsReconciled(m, m, types) ==> Reconciled(m, types) == m
  {
    hide LabelKey;
    WantedHavePrefix(types);
    forall k
      ensures (exists i :: 0 <= i < |types| && k == LabelKey(types[i])) <==> k in Wanted(types)
    {
      if i :| 0 <= i < |types| && k == LabelKey(types[i]) {
        assert types[i] in types;
      }
      if k in Wanted(types) {
        var s :| s in types && LabelKey(s) == k;
        var i :| 0 <= i < |types| && types[i] == s;
      }
    }
    hide Wanted;
    if IsReconciled(m, m, types) {
      var r := Reconciled(m, types);
      assert forall k :: k in r <==> k in m;
      assert forall k :: k in m ==> r[k] == m[k];
    }
  }

  lemma {:induction false} ApplyAppends(
    labels: Option<Labels>, a: seq<Operation>, b: seq<Operation>, mid: Option<Labels>)
    requires ApplyAll(labels, a) == Some(mid)
    ensures ApplyAll(labels, a + b) == ApplyAll(mid, b)
    decreases |a|
  {
    if a == [] {
      assert a + b == b;
    } else {
      assert (a + b)[1..] == a[1..] + b;
      ApplyAppends(Apply(labels, a[0]).value, a[1..], b, mid);
    }
  }

  function SetTrue(m: Labels, keys: seq<string>): Labels {
    map k | k in m.Keys + (set x | x in keys) :: if k in keys then "true" else m[k]
  }

  lemma SetTrueStep(m: Labels, keys: seq<string>)
    requires keys != []
    ensures SetTrue(m[keys[0] := "true"], keys[1..]) == SetTrue(m, keys)
  {
  }

  lemma {:induction false} AddsApply(m: Labels, keys: seq<string>)
    requires TildeFree(keys)
    ensures ApplyAll(Some(m), Adds(keys)) == Some(Some(SetTrue(m, keys)))
    decreases |keys|
  {
    if keys == [] {
      assert SetTrue(m, keys) == m;
    } else {
      hide SetTrue;
      var next := m[keys[0] := "true"];
      UnescapeEscape(keys[0]);
      EscapeHasNoSlash(keys[0]);
      assert Apply(Some(m), Adds(keys)[0]) == Some(Some(next));
      assert Adds(keys)[1..] == Adds(keys[1..]);
      AddsApply(next, keys[1..]);
      SetTrueStep(m, keys);
    }
  }

  lemma {:induction false} ReplacesApply(m: Labels, keys: seq<string>)
    requires TildeFree(keys) && forall k :: k in keys ==> k in m
    ensures ApplyAll(Some(m), Replaces(keys)) == Some(Some(SetTrue(m, keys)))
    decreases |keys|
  {
    if keys == [] {
      assert SetTrue(m, keys) == m;
    } else {
      hide SetTrue;
      var next := m[keys[0] := "true"];
      UnescapeEscape(keys[0]);
      EscapeHasNoSlash(keys[0]);
      assert Apply(Some(m), Replaces(keys)[0]) == Some(Some(next));
      assert Replaces(keys)[1..] == Replaces(keys[1..]);
      ReplacesApply(next, keys[1..]);
      SetTrueStep(m, keys);
    }
  }

  lemma {:induction false} RemovesApply(m: Labels, keys: seq<string>)
    requires TildeFree(keys) && DistinctKeys(keys) && forall k :: k in keys ==> k in m
    ensures ApplyAll(Some(m), Removes(keys)) == Some(Some(m - (set k | k in keys)))
    decreases |keys|
  {
    if keys == [] {
      assert m - (set k | k in keys) == m;
    } else {
      var next := m - {keys[0]};
      UnescapeEscape(keys[0]);
      EscapeHasNoSlash(keys[0]);
      assert Apply(Some(m), Removes(keys)[0]) == Some(Some(next));
      assert Removes(keys)[1..] == Removes(keys[1..]);
      forall k | k in keys[1..]
        ensures k in next
      {
        var i :| 0 <= i < |keys[1..]| && keys[1..][i] == k;
        assert keys[0] != keys[i + 1];
      }
      RemovesApply(next, keys[1..]);
      assert next - (set k | k in keys[1..]) == m - (set k | k in keys);
    }
  }

  /** Label keys never hold a tilde in Kubernetes, nor do device types. */
  predicate NoTildes(m: Labels, types: seq<string>) {
    (forall k :: k in m && HasPrefix(k) ==> '~' !in k) && (forall t :: t in types ==> '~' !in t)
  }

  lemma LabelKeyHasNoTilde(devType: string)
    requires '~' !in devType
    ensures '~' !in LabelKey(devType)
  {
    var s := PREFIX + "/" + devType;
    assert '~' !in s;
    forall i | 0 <= i < |s|
      ensures ToLower(s)[i] != '~'
    {
      assert s[i] in s;
    }
  }

  lemma PatchKeysHaveNoTilde(m: Labels, types: seq<string>, ops: seq<Operation>,
                             add: seq<string>, remove: seq<string>, replace: seq<string>)
    requires IsPatch(Some(m), types, ops, add, remove, replace) && NoTildes(m, types)
    ensures TildeFree(add) && TildeFree(remove) && TildeFree(replace)
  {
    forall k | k in Wanted(types)
      ensures '~' !in k
    {
      var t :| t in types && LabelKey(t) == k;
      LabelKeyHasNoTilde(t);
    }
  }

  /**
   For a node with a labels object and keys without tilde: every operation is applicable, and afterwards
   the labels are reconciled.
   */
  lemma PatchReconciles(m: Labels, types: seq<string>, ops: seq<Operation>,
                        add: seq<string>, remove: seq<string>, replace: seq<string>)
    requires IsPatch(Some(m), types, ops, add, remove, replace)
    requires NoTildes(m, types)
    ensures ApplyAll(Some(m), ops) == Some(Some(Reconciled(m, types)))
  {
    PatchKeysHaveNoTilde(m, types, ops, add, remove, replace);
    hide Apply, Escape, SetTrue;
    AddsApply(m, add);
    var m1 := SetTrue(m, add);
    SetTrueKeys(m, add);
    RemovesApply(m1, remove);
    var m2 := m1 - (set k | k in remove);
    ReplacesApply(m2, replace);
    ApplyAppends(Some(m), Adds(add), Removes(remove), Some(m1));
    ApplyAppends(Some(m), Adds(add) + Removes(remove), Replaces(replace), Some(m2));
    ThreeStepsReconcile(m, types, ops, add, remove, replace);
  }

  lemma SetTrueKeys(m: Labels, keys: seq<string>)
    ensures forall k :: k in SetTrue(m, keys) <==> k in m || k in keys
  {
  }

  lemma ThreeStepsReconcile(m: Labels, types: seq<string>, ops: seq<Operation>,
                            add: seq<string>, remove: seq<string>, replace: seq<string>)
    requires IsPatch(Some(m), types, ops, add, remove, replace)
    ensures SetTrue(SetTrue(m, add) - (set k | k in remove), replace) == Reconciled(m, types)
  {
    WantedHavePrefix(types);
    hide Adds, Removes, Replaces, Wanted, HasPrefix, DistinctKeys;
    var m1 := SetTrue(m, add);
    var m2 := m1 - (set k | k in remove);
    var m3, end := SetTrue(m2, replace), Reconciled(m, types);
    forall k
      ensures k in m3 <==> k in end
      ensures k in m3 ==> m3[k] == end[k]
    {
      SetTrueIs(m, add, k);
      SetTrueIs(m2, replace, k);
    }
  }

  lemma SetTrueIs(m: Labels, keys: seq<string>, k: string)
    ensures k in SetTrue(m, keys) <==> k in m || k in keys
    ensures k in SetTrue(m, keys) ==> SetTrue(m, keys)[k] == if k in keys then "true" else m[k]
  {
  }

  lemma WantedHavePrefix(types: seq<string>)
    ensures forall k :: k in Wanted(types) ==> HasPrefix(k)
  {
    forall k | k in Wanted(types)
      ensures HasPrefix(k)
    {
      var t :| t in types && LabelKey(t) == k;
      LabelKeyHasPrefix(t);
    }
  }

  lemma EmptyOrMember(keys: seq<string>)
    ensures keys == [] || exists k :: k in keys
  {
    if keys != [] {
      assert keys[0] in keys;
    }
  }

  /** Reconciled labels need no patch. */
  lemma ReconciledNeedsNoPatch(m: Labels, types: seq<string>, ops: seq<Operation>,
                               add: seq<string>, remove: seq<string>, replace: seq<string>)
    requires IsPatch(Some(Reconciled(m, types)), types, ops, add, remove, replace)
    ensures ops == []
  {
    EmptyOrMember(add);
    EmptyOrMember(remove);
    EmptyOrMember(replace);
  }

  /** Without a labels object there is nothing to add to: the patch applies exactly when no type is wanted. */
  lemma NoLabelsObjectIff(types: seq<string>, ops: seq<Operation>,
                          add: seq<string>, remove: seq<string>, replace: seq<string>)
    requires IsPatch(None, types, ops, add, remove, replace)
    ensures ApplyAll(None, ops).Some? <==> types == []
  {
    EmptyOrMember(remove);
    EmptyOrMember(replace);
    if types == [] {
      EmptyOrMember(add);
    } else {
      assert types[0] in types;
      assert LabelKey(types[0]) in Wanted(types);
      assert LabelKey(types[0]) in add;
    }
  }

  /** Applying the cleanup patch takes away the labels under the prefix, and no others. */
  lemma CleanupRemovesAll(m: Labels, ops: seq<Operation>, remove: seq<string>)
    requires IsCleanup(Some(m), ops, remove) && NoTildes(m, [])
    ensures ApplyAll(Some(m), ops) == Some(Some(map k | k in m && !HasPrefix(k) :: m[k]))
  {
    RemovesApply(m, remove);
    assert m - (set k | k in remove) == map k | k in m && !HasPrefix(k) :: m[k];
  }
}
