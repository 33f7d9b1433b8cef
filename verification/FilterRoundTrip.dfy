/** Mounting devices and then unmounting them, seen through the filter. */
module FilterRoundTrip {
  import opened Wrappers
  import opened Bpf
  import opened DeviceFilter
  import opened FilterSemantics
  import opened FilterRefinement
  import opened FilterEdits
  import opened FilterTheorems
  import opened FilterRuns

  function Blocks(rules: seq<Rule>): (r: seq<Program>)
    requires Valid(rules)
    ensures |r| == |rules|
  {
    seq(|rules|, i requires 0 <= i < |rules| => Block(rules[i]))
  }

  function Effects(rules: seq<Rule>): (r: seq<Clause>)
    requires Valid(rules)
    ensures |r| == |rules|
  {
    seq(|rules|, i requires 0 <= i < |rules| => Effect(rules[i]))
  }

  /** The rule that unmounting uses: the same device and permissions, denied. */
  function Denied(rule: Rule): (r: Rule)
    ensures r.kind == rule.kind && r.major == rule.major && r.minor == rule.minor
    ensures r.permissions == rule.permissions && !r.allow
  {
    rule.(allow := false)
  }

  function DeniedAll(rules: seq<Rule>): (r: seq<Rule>)
    ensures |r| == |rules|
    ensures forall i :: 0 <= i < |r| ==> r[i] == Denied(rules[i])
  {
    seq(|rules|, i requires 0 <= i < |rules| => Denied(rules[i]))
  }

  /** No group of the program tests for the rule's device. */
  predicate Unnamed(pro: Program, bs: seq<Program>, rule: Rule)
    requires bs != [] && Accepted(rule)
  {
    forall g :: g in GroupsOf(pro, bs) ==> !Names(g, rule)
  }

  lemma NotOwnName(rule: Rule, other: Rule)
    requires Accepted(rule) && Accepted(other) && Concrete(rule) && Concrete(other)
    requires !SameName(rule, other) || !Fits(rule)
    ensures !Names(Block(rule), other)
  {
    BlockNames(rule, other);
    assert rule.major > MAX_INT32 ==> Int32(rule.major) < 0;
    assert rule.minor > MAX_INT32 ==> Int32(rule.minor) < 0;
  }

  lemma UnnamedGoesLast(pro: Program, bs: seq<Program>, rule: Rule)
    requires bs != [] && Accepted(rule) && Unnamed(pro, bs, rule)
    ensures Position(pro, bs, rule) == |bs|
  {
    var gs := GroupsOf(pro, bs);
    assert forall i | 0 <= i < |gs| :: gs[i] in gs;
  }

  // Rules behind the original program, and where a further one goes.

  /** Every device whose numbers fit has one rule only. */
  predicate OneEach(s: seq<Rule>) {
    Valid(s) && forall i, j :: 0 <= i < j < |s| && SameName(s[i], s[j]) ==> !Fits(s[i])
  }

  function IndexOf(s: seq<Rule>, rule: Rule): (m: nat)
    ensures m <= |s|
    ensures m < |s| ==> SameName(s[m], rule)
    ensures forall j :: 0 <= j < m ==> !SameName(s[j], rule)
  {
    if s == [] || SameName(s[0], rule) then 0
    else
      var m := IndexOf(s[1..], rule) + 1;
      assert forall j | 0 < j < m :: s[j] == s[1..][j - 1];
      m
  }

  /** A rule whose numbers fit takes the place of the one for its device; any other comes last. */
  function Place(s: seq<Rule>, rule: Rule): (r: seq<Rule>)
    ensures forall x :: x in r ==> x in s || x == rule
    ensures rule in r
  {
    var m := if Fits(rule) then IndexOf(s, rule) else |s|;
    assert Put(s, m, rule)[m] == rule;
    Put(s, m, rule)
  }

  function PlaceAll(s: seq<Rule>, rules: seq<Rule>): seq<Rule>
    decreases |rules|
  {
    if rules == [] then s else PlaceAll(Place(s, rules[0]), rules[1..])
  }

  /** Rules for one device have the same permissions. */
  predicate SamePermissions(s: seq<Rule>, rules: seq<Rule>) {
    && (forall a, b :: a in s && b in rules && SameName(a, b) ==> a.permissions == b.permissions)
    && (forall a, b :: a in rules && b in rules && SameName(a, b) ==> a.permissions == b.permissions)
  }

  lemma PlaceKeepsOneEach(s: seq<Rule>, rule: Rule)
    requires OneEach(s) && Accepted(rule) && Concrete(rule)
    ensures OneEach(Place(s, rule))
  {
    hide Accepted;
  }

  /** No block but the one whose place the rule takes names its device. */
  lemma NotOwnDevice(s: seq<Rule>, i: nat, rule: Rule)
    requires OneEach(s) && Accepted(rule) && Concrete(rule) && i < |s|
    requires i != if Fits(rule) then IndexOf(s, rule) else |s|
    ensures !Names(Block(s[i]), rule)
  {
    hide Block, Names, Accepted;
    NotOwnName(s[i], rule);
  }

  /** No other group names the device either. */
  lemma ElsewhereUnnamed(pro: Program, bs: seq<Program>, s: seq<Rule>, rule: Rule, m: nat)
    requires bs != [] && OneEach(s) && Accepted(rule) && Concrete(rule) && Unnamed(pro, bs, rule)
    requires m == if Fits(rule) then IndexOf(s, rule) else |s|
    ensures var gs := GroupsOf(pro, bs + Blocks(s));
            && |gs| == |bs| + |s|
            && (forall i :: 0 <= i < |s| ==> gs[|bs| + i] == Block(s[i]))
            && forall j :: 0 <= j < |gs| && j != |bs| + m ==> !Names(gs[j], rule)
  {
    hide Block, Names, IndexOf, Accepted, Fits;
    var gs, front := GroupsOf(pro, bs + Blocks(s)), GroupsOf(pro, bs);
    assert gs == front + Blocks(s);
    hide GroupsOf;
    forall j | 0 <= j < |gs| && j != |bs| + m
      ensures !Names(gs[j], rule)
    {
      if j < |bs| {
        assert gs[j] == front[j] && front[j] in front;
      } else {
        NotOwnDevice(s, j - |bs|, rule);
      }
    }
  }

  lemma PlacePosition(pro: Program, bs: seq<Program>, s: seq<Rule>, rule: Rule)
    requires bs != [] && OneEach(s) && Accepted(rule) && Concrete(rule) && Unnamed(pro, bs, rule)
    requires forall x :: x in s && SameName(x, rule) ==> x.permissions == rule.permissions
    ensures Position(pro, bs + Blocks(s), rule) == |bs| + if Fits(rule) then IndexOf(s, rule) else |s|
  {
    var m := if Fits(rule) then IndexOf(s, rule) else |s|;
    ElsewhereUnnamed(pro, bs, s, rule, m);
    if m < |s| {
      assert s[m] in s && SameName(s[m], rule);
      SameBlockShape(s[m], rule);
    }
    hide Block, Names, IndexOf, GroupsOf, Unnamed, Blocks, OneEach, LastNaming, Accepted, Concrete, SameName, Fits;
    var gs := GroupsOf(pro, bs + Blocks(s));
    if m < |s| {
      assert gs[|bs| + m] == Block(s[m]);
      LastNamingIs(gs, rule, |bs| + m);
    }
  }

  lemma SameBlockShape(a: Rule, b: Rule)
    requires Accepted(a) && Accepted(b) && Concrete(a) && SameName(a, b) && a.permissions == b.permissions && Fits(a)
    ensures Names(Block(a), b) && |Block(a)| == |Block(b)|
  {
    hide Block, Names;
    BlockNames(a, b);
    ToolBlockIsGood(a);
    ToolBlockIsGood(b);
  }

  lemma PutBehind<T>(a: seq<T>, b: seq<T>, m: nat, x: T)
    requires m <= |b|
    ensures Put(a + b, |a| + m, x) == a + Put(b, m, x)
  {
    if m == |b| {
      assert (a + b) + [x] == a + (b + [x]);
    }
  }

  lemma PutMaps(s: seq<Rule>, m: nat, rule: Rule)
    requires Valid(s) && m <= |s| && Accepted(rule) && Concrete(rule)
    ensures Valid(Put(s, m, rule))
    ensures Blocks(Put(s, m, rule)) == Put(Blocks(s), m, Block(rule))
    ensures Effects(Put(s, m, rule)) == Put(Effects(s), m, Effect(rule))
  {
    hide Block, Effect, Accepted;
  }

  lemma PutBlocks(bs: seq<Program>, cs: seq<Clause>, s: seq<Rule>, m: nat, rule: Rule)
    requires |bs| == |cs| && Valid(s) && m <= |s| && Accepted(rule) && Concrete(rule)
    ensures Valid(Put(s, m, rule))
    ensures Put(bs + Blocks(s), |bs| + m, Block(rule)) == bs + Blocks(Put(s, m, rule))
    ensures Put(cs + Effects(s), |cs| + m, Effect(rule)) == cs + Effects(Put(s, m, rule))
  {
    hide *;
    PutMaps(s, m, rule);
    PutBehind(bs, Blocks(s), m, Block(rule));
    PutBehind(cs, Effects(s), m, Effect(rule));
  }

  /** One rule. */
  lemma PlaceOne(pro: Program, bs: seq<Program>, cs: seq<Clause>, s: seq<Rule>, rule: Rule)
    requires bs != [] && |bs| == |cs| && OneEach(s) && Accepted(rule) && Concrete(rule) && Unnamed(pro, bs, rule)
    requires forall x :: x in s && SameName(x, rule) ==> x.permissions == rule.permissions
    ensures OneEach(Place(s, rule))
    ensures var i := Position(pro, bs + Blocks(s), rule);
            && i <= |cs + Effects(s)|
            && Put(bs + Blocks(s), i, Block(rule)) == bs + Blocks(Place(s, rule))
            && Put(cs + Effects(s), i, Effect(rule)) == cs + Effects(Place(s, rule))
  {
    hide Block, Effect, Position, Unnamed, Blocks, Effects, IndexOf, Fits, Put;
    var m := if Fits(rule) then IndexOf(s, rule) else |s|;
    PlaceKeepsOneEach(s, rule);
    PlacePosition(pro, bs, s, rule);
    PutBlocks(bs, cs, s, m, rule);
    assert Place(s, rule) == Put(s, m, rule);
  }

  /** Adding rules to a program edits its blocks and clauses as placing does the rules behind it. */
  lemma {:induction false} RulesArePlaced(pro: Program, bs: seq<Program>, cs: seq<Clause>, s: seq<Rule>,
                                          rules: seq<Rule>)
    requires bs != [] && |bs| == |cs| && OneEach(s) && Valid(rules) && SamePermissions(s, rules)
    requires AllAccepted(Somes(rules)) && forall r :: r in rules ==> Unnamed(pro, bs, r)
    ensures OneEach(PlaceAll(s, rules))
    ensures EditedBlocks(pro, bs + Blocks(s), Somes(rules)) == bs + Blocks(PlaceAll(s, rules))
    ensures EditedClauses(pro, bs + Blocks(s), cs + Effects(s), Somes(rules)) == cs + Effects(PlaceAll(s, rules))
    decreases |rules|
  {
    if rules != [] {
      var rule, rest := rules[0], rules[1..];
      assert rule in rules && Somes(rules)[1..] == Somes(rest);
      SomesAccepted(rest);
      PlaceOne(pro, bs, cs, s, rule);
      RestHasSamePermissions(s, rules);
      hide Block, Effect, Position, Place, Unnamed, Blocks, Effects, Fits, Put, OneEach, SamePermissions;
      RulesArePlaced(pro, bs, cs, Place(s, rule), rest);
    }
  }

  lemma RestHasSamePermissions(s: seq<Rule>, rules: seq<Rule>)
    requires rules != [] && SamePermissions(s, rules)
    ensures SamePermissions(Place(s, rules[0]), rules[1..])
  {
    hide Place;
    assert forall r :: r in rules[1..] ==> r in rules;
  }

  lemma AppendsFirst<T>(s: seq<T>, t: seq<T>)
    requires t != []
    ensures s + [t[0]] + t[1..] == s + t
  {
  }

  lemma FreshGoesLast(s: seq<Rule>, rule: Rule)
    requires forall a :: a in s ==> !SameName(a, rule)
    ensures Place(s, rule) == s + [rule]
  {
    assert IndexOf(s, rule) == |s|;
  }

  lemma RestIsFresh(s: seq<Rule>, rules: seq<Rule>)
    requires rules != [] && Distinct(rules) && forall a, b :: a in s && b in rules ==> !SameName(a, b)
    ensures Distinct(rules[1..]) && forall a, b :: a in s + [rules[0]] && b in rules[1..] ==> !SameName(a, b)
  {
    hide SameName;
    forall a, b | a in s + [rules[0]] && b in rules[1..]
      ensures !SameName(a, b)
    {
      var i :| 0 <= i < |rules[1..]| && rules[1..][i] == b;
      assert rules[i + 1] == b && b in rules;
      assert a == rules[0] || a in s;
    }
  }

  /** Rules for pairwise distinct devices that have no rule yet are placed last, in order. */
  lemma {:induction false} DistinctArePlacedLast(s: seq<Rule>, rules: seq<Rule>)
    requires Distinct(rules) && forall a, b :: a in s && b in rules ==> !SameName(a, b)
    ensures PlaceAll(s, rules) == s + rules
    decreases |rules|
  {
    if rules == [] {
      assert s + rules == s;
    } else {
      assert rules[0] in rules;
      FreshGoesLast(s, rules[0]);
      RestIsFresh(s, rules);
      hide Place, SameName, Distinct;
      DistinctArePlacedLast(s + [rules[0]], rules[1..]);
      AppendsFirst(s, rules);
    }
  }

  lemma ConsistentHasSamePermissions(rules: seq<Rule>)
    requires Consistent(rules)
    ensures SamePermissions([], rules)
  {
  }

  lemma DistinctIsConsistent(rules: seq<Rule>)
    requires Distinct(rules)
    ensures Consistent(rules)
  {
    forall a, b | a in rules && b in rules && SameName(a, b)
      ensures a == b
    {
      var i :| 0 <= i < |rules| && rules[i] == a;
      var j :| 0 <= j < |rules| && rules[j] == b;
      assert !(i < j) && !(j < i);
    }
  }

  /** Rules for distinct devices that the program does not name are added at the end, in order. */
  lemma MountAppends(pro: Program, bs: seq<Program>, cs: seq<Clause>, rules: seq<Rule>)
    requires bs != [] && |bs| == |cs| && Valid(rules) && Distinct(rules) && AllAccepted(Somes(rules))
    requires forall i :: 0 <= i < |rules| ==> Unnamed(pro, bs, rules[i])
    ensures EditedBlocks(pro, bs, Somes(rules)) == bs + Blocks(rules)
    ensures EditedClauses(pro, bs, cs, Somes(rules)) == cs + Effects(rules)
  {
    hide EditedBlocks, EditedClauses, Unnamed, SamePermissions, Consistent, Distinct, PlaceAll;
    assert bs + Blocks([]) == bs && cs + Effects([]) == cs && [] + rules == rules;
    DistinctArePlacedLast([], rules);
    DistinctIsConsistent(rules);
    ConsistentHasSamePermissions(rules);
    RulesArePlaced(pro, bs, cs, [], rules);
  }

  lemma {:induction false} PlacedFrom(s: seq<Rule>, rules: seq<Rule>)
    ensures forall x :: x in PlaceAll(s, rules) ==> x in s || x in rules
    decreases |rules|
  {
    hide Place;
    if rules != [] {
      PlacedFrom(Place(s, rules[0]), rules[1..]);
    }
  }

  lemma {:induction false} StaysPlaced(s: seq<Rule>, rules: seq<Rule>, x: Rule)
    requires OneEach(s) && Valid(rules) && x in s && Fits(x)
    requires forall r :: r in rules && SameName(r, x) ==> r == x
    ensures x in PlaceAll(s, rules)
    decreases |rules|
  {
    if rules != [] {
      var rule := rules[0];
      assert rule in rules;
      PlaceKeepsOneEach(s, rule);
      assert x in Place(s, rule) by {
        var i :| 0 <= i < |s| && s[i] == x;
        assert rule != x ==> Place(s, rule)[i] == x;
      }
      StaysPlaced(Place(s, rule), rules[1..], x);
    }
  }

  lemma {:induction false} IsPlaced(s: seq<Rule>, rules: seq<Rule>, x: Rule)
    requires OneEach(s) && Valid(rules) && Consistent(rules) && x in rules && Fits(x)
    ensures x in PlaceAll(s, rules)
    decreases |rules|
  {
    hide Place, Fits, Accepted;
    PlaceKeepsOneEach(s, rules[0]);
    if rules[0] == x {
      assert forall r :: r in rules[1..] ==> r in rules;
      StaysPlaced(Place(s, rules[0]), rules[1..], x);
    } else {
      IsPlaced(Place(s, rules[0]), rules[1..], x);
    }
  }

  lemma OtherDeviceMisses(a: Rule, b: Rule, req: Request)
    requires Accepted(a) && Concrete(a) && Accepted(b) && Concrete(b) && !SameName(a, b) && Matches(Effect(b), req)
    ensures !Matches(Effect(a), req)
  {
    hide Matches, Effect;
    if !SameDevice(b, req) {
      EffectIsOnDevice(b, req);
    }
    EffectIsOnDevice(a, req);
  }

  lemma UnfitMisses(rule: Rule, req: Request)
    requires Accepted(rule) && Concrete(rule) && !Fits(rule)
    ensures !Matches(Effect(rule), req)
  {
    assert rule.major > MAX_INT32 ==> Compared(rule.major).number > MAX_UINT32;
    assert rule.minor > MAX_INT32 ==> Compared(rule.minor).number > MAX_UINT32;
  }

  lemma {:induction false} OneDeviceOneEffect(s: seq<Rule>, k: nat, req: Request)
    requires OneEach(s) && k < |s| && Matches(Effect(s[k]), req)
    ensures FirstMatch(Effects(s), false, req) == s[k].allow
    decreases k
  {
    assert Effect(s[k]).allow == s[k].allow;
    hide Matches, Effect, Fits;
    assert Effects(s)[0] == Effect(s[0]);
    if k > 0 {
      assert Effects(s)[1..] == Effects(s[1..]);
      if SameName(s[0], s[k]) {
        UnfitMisses(s[0], req);
      } else {
        OtherDeviceMisses(s[0], s[k], req);
      }
      OneDeviceOneEffect(s[1..], k - 1, req);
    }
  }

  /** The program with rules added behind the blocks `bs`, whatever its default. */
  ghost predicate Extends(p: Program, pro: Program, bs: seq<Program>, cs: seq<Clause>, otherwise: bool, s: seq<Rule>) {
    OneEach(s) && bs != [] && |bs| == |cs| && Encodes(p, pro, bs + Blocks(s), cs + Effects(s), otherwise)
  }

  /** Rules for devices that `bs` does not name, always the same for one device, with the permissions in `s`. */
  ghost predicate CanPlace(pro: Program, bs: seq<Program>, s: seq<Rule>, rules: seq<Rule>)
    requires bs != []
  {
    Valid(rules) && Consistent(rules) && SamePermissions(s, rules) && forall r :: r in rules ==> Unnamed(pro, bs, r)
  }

  /** Setting rules places them among those that are there. */
  lemma SetPlaces(p: Program, pro: Program, bs: seq<Program>, cs: seq<Clause>, otherwise: bool, s: seq<Rule>,
                  rules: seq<Rule>)
    requires Extends(p, pro, bs, cs, otherwise, s) && CanPlace(pro, bs, s, rules)
    ensures Rewrite(Some(p), Somes(rules)).Done?
    ensures Extends(Rewrite(Some(p), Somes(rules)).value, pro, bs, cs, false, PlaceAll(s, rules))
    ensures var q, end := Rewrite(Some(p), Somes(rules)).value, cs + Effects(PlaceAll(s, rules));
            forall req :: Decides(q, req, FirstMatch(end, false, req))
  {
    hide Implements, ValidPrologue, Decides, EditedBlocks, EditedClauses, Unnamed, Block, Effect, Rewrite, PlaceAll;
    SomesAccepted(rules);
    RewriteRefines(p, pro, bs + Blocks(s), cs + Effects(s), otherwise, Somes(rules));
    RulesArePlaced(pro, bs, cs, s, rules);
  }

  lemma StartsExtended(p: Program, pro: Program, bs: seq<Program>, cs: seq<Clause>, otherwise: bool)
    requires Encodes(p, pro, bs, cs, otherwise)
    ensures Extends(p, pro, bs, cs, otherwise, [])
  {
    assert bs + Blocks([]) == bs && cs + Effects([]) == cs;
  }

  /**
   After setting rules, a request that one of them speaks of is decided by it, unless an old clause matches
   the request: also where the rule takes the place of one that was added before.
   */
  lemma SetRuleDecides(p: Program, pro: Program, bs: seq<Program>, cs: seq<Clause>, otherwise: bool, s: seq<Rule>,
                       rules: seq<Rule>, rule: Rule, req: Request)
    requires Extends(p, pro, bs, cs, otherwise, s) && CanPlace(pro, bs, s, rules)
    requires rule in rules && AsWritten(rule, req)
    ensures Rewrite(Some(p), Somes(rules)).Done?
    ensures Decides(Rewrite(Some(p), Somes(rules)).value, req, FirstMatch(cs, rule.allow, req))
  {
    hide Implements, ValidPrologue, Decides, Unnamed, Effects, Block, Rewrite, PlaceAll, Encodes;
    SetPlaces(p, pro, bs, cs, otherwise, s, rules);
    var end := PlaceAll(s, rules);
    IsPlaced(s, rules, rule);
    var k :| 0 <= k < |end| && end[k] == rule;
    EffectIsAsWritten(rule, req);
    OneDeviceOneEffect(end, k, req);
    FirstMatchAppends(cs, Effects(end), false, req);
  }

  /**
   After mounting rules, always the same for one device, for concrete devices that the program does not
   name: a request that a rule speaks of gets its decision, and one that none speaks of is denied, in both
   cases unless an old clause matches it.
   */
  lemma MountedRuleDecides(p: Program, pro: Program, bs: seq<Program>, cs: seq<Clause>, otherwise: bool,
                           rules: seq<Rule>, req: Request)
    requires Encodes(p, pro, bs, cs, otherwise) && Valid(rules) && Consistent(rules)
    requires forall r :: r in rules ==> Unnamed(pro, bs, r)
    ensures Rewrite(Some(p), Somes(rules)).Done?
    ensures var q := Rewrite(Some(p), Somes(rules)).value;
            && (forall rule :: rule in rules && AsWritten(rule, req) ==>
                  Decides(q, req, FirstMatch(cs, rule.allow, req)))
            && ((forall rule :: rule in rules ==> !AsWritten(rule, req)) ==>
                  Decides(q, req, FirstMatch(cs, false, req)))
  {
    hide Implements, ValidPrologue, Decides, Unnamed, Rewrite, PlaceAll, AsWritten;
    hide SamePermissions, Consistent, Encodes;
    StartsExtended(p, pro, bs, cs, otherwise);
    ConsistentHasSamePermissions(rules);
    SetPlaces(p, pro, bs, cs, otherwise, [], rules);
    forall rule | rule in rules && AsWritten(rule, req)
      ensures Decides(Rewrite(Some(p), Somes(rules)).value, req, FirstMatch(cs, rule.allow, req))
    {
      SetRuleDecides(p, pro, bs, cs, otherwise, [], rules, rule, req);
    }
    if forall rule :: rule in rules ==> !AsWritten(rule, req) {
      var s := PlaceAll([], rules);
      PlacedFrom([], rules);
      NoneMatches(s, req);
      FirstMatchAppends(cs, Effects(s), false, req);
    }
  }

  lemma {:induction false} NoneMatches(s: seq<Rule>, req: Request)
    requires Valid(s) && forall x :: x in s ==> !AsWritten(x, req)
    ensures FirstMatch(Effects(s), false, req) == false
    decreases |s|
  {
    hide AsWritten, Matches, Effect;
    if s != [] {
      assert s[0] in s;
      EffectIsAsWritten(s[0], req);
      assert Effects(s)[0] == Effect(s[0]) && Effects(s)[1..] == Effects(s[1..]);
      NoneMatches(s[1..], req);
    }
  }

  // Unmounting the mounted rules.

  /** Denials take the place of all allow rules for their devices. */
  lemma {:induction false} DenialsReplace(s: seq<Rule>, rules: seq<Rule>)
    requires OneEach(s) && Valid(rules) && forall r :: r in rules ==> !r.allow
    requires forall x :: x in s && x.allow && Fits(x) ==> exists r :: r in rules && SameName(x, r)
    ensures OneEach(PlaceAll(s, rules)) && forall x :: x in PlaceAll(s, rules) && x.allow ==> !Fits(x)
    decreases |rules|
  {
    if rules != [] {
      var rule, s' := rules[0], Place(s, rules[0]);
      assert rule in rules;
      PlaceKeepsOneEach(s, rule);
      forall x | x in s' && x.allow && Fits(x)
        ensures exists r :: r in rules[1..] && SameName(x, r)
      {
        DeniedIsGone(s, rule, x);
        var r :| r in rules && SameName(x, r);
        assert r in rules[1..];
      }
      hide Place, Fits, Accepted;
      DenialsReplace(s', rules[1..]);
    }
  }

  lemma DeniedIsGone(s: seq<Rule>, rule: Rule, x: Rule)
    requires OneEach(s) && Accepted(rule) && Concrete(rule) && x in Place(s, rule) && x != rule && Fits(x)
    ensures x in s && !SameName(x, rule)
  {
    hide Accepted;
    var s' := Place(s, rule);
    PlaceKeepsOneEach(s, rule);
    var i :| 0 <= i < |s'| && s'[i] == x;
    var j :| 0 <= j < |s'| && s'[j] == rule;
    assert i != j;
  }

  /** After unmounting, rules that still allow have numbers that do not fit, and match nothing. */
  lemma UnmountDenies(rules: seq<Rule>)
    requires Valid(rules) && OneEach(PlaceAll([], rules))
    ensures Valid(PlaceAll(PlaceAll([], rules), DeniedAll(rules)))
    ensures forall x :: x in PlaceAll(PlaceAll([], rules), DeniedAll(rules)) && x.allow ==> !Fits(x)
  {
    var s, undo := PlaceAll([], rules), DeniedAll(rules);
    PlacedFrom([], rules);
    PlacedFrom(s, undo);
    hide PlaceAll;
    forall x | x in s
      ensures exists r :: r in undo && SameName(x, r)
    {
      var i :| 0 <= i < |rules| && rules[i] == x;
      assert undo[i] in undo && SameName(x, undo[i]);
    }
    DenialsReplace(s, undo);
  }

  lemma {:induction false} DenialsAreDefault(s: seq<Rule>, req: Request)
    requires Valid(s) && forall m :: 0 <= m < |s| ==> s[m].allow ==> !Fits(s[m])
    ensures FirstMatch(Effects(s), false, req) == false
    decreases |s|
  {
    if s != [] {
      assert Effects(s)[1..] == Effects(s[1..]);
      assert Effects(s)[0] == Effect(s[0]);
      assert s[0].major > MAX_INT32 ==> Compared(s[0].major).number > MAX_UINT32;
      assert s[0].minor > MAX_INT32 ==> Compared(s[0].minor).number > MAX_UINT32;
      DenialsAreDefault(s[1..], req);
    }
  }

  /** The programs after mounting `rules` on `p` and after unmounting them again. */
  ghost predicate MountedThenUnmounted(p: Program, q: Program, z: Program, rules: seq<Rule>) {
    && Rewrite(Some(p), Somes(rules)) == Done(q)
    && Rewrite(Some(q), Somes(DeniedAll(rules))) == Done(z)
  }

  ghost predicate SameDecisions(p: Program, z: Program) {
    forall req, allow :: Decides(p, req, allow) ==> Decides(z, req, allow)
  }

  lemma DenialsKeepDecisions(p: Program, z: Program, pro: Program, bs: seq<Program>, cs: seq<Clause>, s: seq<Rule>)
    requires Encodes(p, pro, bs, cs, false) && Valid(s) && forall m :: 0 <= m < |s| ==> s[m].allow ==> !Fits(s[m])
    requires forall req :: Decides(z, req, FirstMatch(cs + Effects(s), false, req))
    ensures SameDecisions(p, z)
  {
    hide Implements, ValidPrologue, Decides, Effects;
    forall req, allow | Decides(p, req, allow)
      ensures Decides(z, req, allow)
    {
      DenialsAreDefault(s, req);
      FirstMatchAppends(cs, Effects(s), false, req);
      ProgramRefinesClauses(p, pro, bs, cs, false, req);
      DecisionIsUnique(p, req, allow, FirstMatch(cs, false, req));
    }
  }

  /**
   Round trip: for rules on concrete devices that a default-deny program does not name, always the same for
   one device, mounting and then unmounting leaves the decision on every request as it was.
   */
  lemma MountThenUnmount(p: Program, pro: Program, bs: seq<Program>, cs: seq<Clause>, rules: seq<Rule>)
    requires Encodes(p, pro, bs, cs, false) && Valid(rules) && Consistent(rules)
    requires forall r :: r in rules ==> Unnamed(pro, bs, r)
    ensures exists q, z :: MountedThenUnmounted(p, q, z, rules) && SameDecisions(p, z)
  {
    hide Implements, ValidPrologue, Decides, EditedBlocks, EditedClauses, Unnamed, Blocks, Effects, PlaceAll, Rewrite;
    var undo, s := DeniedAll(rules), PlaceAll([], rules);
    StartsExtended(p, pro, bs, cs, false);
    ConsistentHasSamePermissions(rules);
    SetPlaces(p, pro, bs, cs, false, [], rules);
    var q := Rewrite(Some(p), Somes(rules)).value;
    UndoHasSamePermissions(rules);
    UnnamedToo(pro, bs, rules);
    DeniedConsistent(rules);
    SetPlaces(q, pro, bs, cs, false, s, undo);
    var z := Rewrite(Some(q), Somes(undo)).value;
    UnmountDenies(rules);
    DenialsKeepDecisions(p, z, pro, bs, cs, PlaceAll(s, undo));
    assert MountedThenUnmounted(p, q, z, rules);
  }

  lemma UndoHasSamePermissions(rules: seq<Rule>)
    requires Consistent(rules)
    ensures SamePermissions(PlaceAll([], rules), DeniedAll(rules))
  {
    PlacedFrom([], rules);
    hide PlaceAll;
    forall b | b in DeniedAll(rules)
      ensures exists r :: r in rules && b == Denied(r)
    {
      var i :| 0 <= i < |rules| && DeniedAll(rules)[i] == b;
      assert rules[i] in rules;
    }
  }

  lemma UnnamedToo(pro: Program, bs: seq<Program>, rules: seq<Rule>)
    requires bs != [] && Valid(rules) && forall r :: r in rules ==> Unnamed(pro, bs, r)
    ensures forall r :: r in DeniedAll(rules) ==> Unnamed(pro, bs, r)
  {
    forall r | r in DeniedAll(rules)
      ensures Unnamed(pro, bs, r)
    {
      var i :| 0 <= i < |rules| && DeniedAll(rules)[i] == r;
      assert rules[i] in rules && Unnamed(pro, bs, rules[i]);
    }
  }

  /** Denying devices that the program does not name, without having allowed them, changes no decision. */
  lemma DenyOnly(p: Program, pro: Program, bs: seq<Program>, cs: seq<Clause>, rules: seq<Rule>)
    requires Encodes(p, pro, bs, cs, false) && Valid(rules) && Consistent(rules)
    requires forall r :: r in rules ==> Unnamed(pro, bs, r)
    ensures Rewrite(Some(p), Somes(DeniedAll(rules))).Done?
    ensures SameDecisions(p, Rewrite(Some(p), Somes(DeniedAll(rules))).value)
  {
    hide Implements, ValidPrologue, Decides, Unnamed, Effects, PlaceAll, Rewrite, SameDecisions, Fits;
    var undo := DeniedAll(rules);
    UnnamedToo(pro, bs, rules);
    assert Consistent(undo) by {
      DeniedConsistent(rules);
    }
    StartsExtended(p, pro, bs, cs, false);
    ConsistentHasSamePermissions(undo);
    SetPlaces(p, pro, bs, cs, false, [], undo);
    PlacedFrom([], undo);
    assert forall x | x in PlaceAll([], undo) :: x in undo;
    assert forall x | x in undo :: !x.allow;
    DenialsKeepDecisions(p, Rewrite(Some(p), Somes(undo)).value, pro, bs, cs, PlaceAll([], undo));
  }

  lemma DeniedConsistent(rules: seq<Rule>)
    requires Consistent(rules)
    ensures Consistent(DeniedAll(rules))
  {
    var undo := DeniedAll(rules);
    forall a, b | a in undo && b in undo && SameName(a, b)
      ensures a == b
    {
      var i :| 0 <= i < |rules| && undo[i] == a;
      var j :| 0 <= j < |rules| && undo[j] == b;
      assert rules[i] in rules && rules[j] in rules;
    }
  }

  // Unmounting with other permissions than those mounted.

  predicate Full(rule: Rule)
    requires Accepted(rule)
  {
    Permitted(rule.permissions).value == ALL_ACCESS
  }

  /** The programs after allowing `rule` and then denying `undo` on the same device. */
  lemma UndoClauses(p: Program, pro: Program, bs: seq<Program>, cs: seq<Clause>, rule: Rule, undo: Rule)
    returns (q: Program, z: Program)
    requires Encodes(p, pro, bs, cs, false) && Accepted(rule) && Accepted(undo)
    requires Concrete(rule) && Fits(rule) && SameName(rule, undo) && Unnamed(pro, bs, rule)
    ensures Rewrite(Some(p), [Some(rule)]) == Done(q) && Rewrite(Some(q), [Some(undo)]) == Done(z)
    ensures forall req :: Decides(q, req, FirstMatch(cs + [Effect(rule)], false, req))
    ensures var end := if Full(rule) || !Full(undo) then [Effect(undo)] else [Effect(rule), Effect(undo)];
            forall req :: Decides(z, req, FirstMatch(cs + end, false, req))
  {
    hide Implements, ValidPrologue, Decides, Block, Effect, Names, Merge, Put, Full, Rewrite;
    var qbs, qcs := OneRule(p, pro, bs, cs, false, rule);
    UnnamedGoesLast(pro, bs, rule);
    PutLast(bs, Block(rule));
    PutLast(cs, Effect(rule));
    q := Code(pro, qbs, false);
    var zbs, zcs := OneRule(q, pro, qbs, qcs, false, undo);
    z := Code(pro, zbs, false);
    UndoPosition(pro, bs, rule, undo);
    var end := if Full(rule) || !Full(undo) then [Effect(undo)] else [Effect(rule), Effect(undo)];
    PutUndo(cs, Effect(rule), Effect(undo));
    assert zcs == cs + end;
    forall req
      ensures Decides(q, req, FirstMatch(qcs, false, req)) && Decides(z, req, FirstMatch(zcs, false, req))
    {
      ProgramRefinesClauses(q, pro, qbs, qcs, false, req);
      ProgramRefinesClauses(z, pro, zbs, zcs, false, req);
    }
  }

  lemma PutLast<T>(s: seq<T>, x: T)
    ensures Put(s, |s|, x) == s + [x]
  {
  }

  lemma PutUndo(cs: seq<Clause>, done: Clause, undo: Clause)
    ensures Put(cs + [done], |cs|, undo) == cs + [undo]
    ensures Put(cs + [done], |cs| + 1, undo) == cs + [done, undo]
  {
  }

  lemma UndoPosition(pro: Program, bs: seq<Program>, rule: Rule, undo: Rule)
    requires bs != [] && Accepted(rule) && Accepted(undo)
    requires Concrete(rule) && Fits(rule) && SameName(rule, undo)
    ensures Position(pro, bs + [Block(rule)], undo) == |bs| + if Full(rule) || !Full(undo) then 0 else 1
  {
    hide Block, Names;
    BlockNames(rule, undo);
    ToolBlockIsGood(rule);
    ToolBlockIsGood(undo);
    var gs := GroupsOf(pro, bs + [Block(rule)]);
    assert gs[|bs|] == Block(rule);
    LastNamingIs(gs, undo, |bs|);
  }

  /**
   Allowing a device and then denying it with other permissions restores every decision exactly when the
   allow rule had all permissions or the deny rule has not: otherwise the shorter deny block does not
   replace the longer allow block, is added behind it, and never decides. `granted` is an access that
   the allow rule gave.
   */
  lemma OtherPermissionsUndoIff(p: Program, pro: Program, bs: seq<Program>, cs: seq<Clause>, rule: Rule, undo: Rule,
                                granted: Request)
    requires Encodes(p, pro, bs, cs, false) && Accepted(rule) && Accepted(undo) && rule.allow && !undo.allow
    requires Concrete(rule) && Fits(rule) && SameName(rule, undo) && Unnamed(pro, bs, rule)
    requires Decides(p, granted, false)
    requires Rewrite(Some(p), [Some(rule)]).Done? && Decides(Rewrite(Some(p), [Some(rule)]).value, granted, true)
    ensures exists q, z ::
              && Rewrite(Some(p), [Some(rule)]) == Done(q) && Rewrite(Some(q), [Some(undo)]) == Done(z)
              && (SameDecisions(p, z) <==> Full(rule) || !Full(undo))
  {
    hide Implements, ValidPrologue, Decides, Block, Rewrite, Unnamed;
    var q, z := UndoClauses(p, pro, bs, cs, rule, undo);
    if Full(rule) || !Full(undo) {
      forall req, allow | Decides(p, req, allow)
        ensures Decides(z, req, allow)
      {
        ProgramRefinesClauses(p, pro, bs, cs, false, req);
        FirstMatchAppends(cs, [Effect(undo)], false, req);
        assert FirstMatch([Effect(undo)], false, req) == false;
        DecisionIsUnique(p, req, allow, FirstMatch(cs, false, req));
      }
    } else {
      ProgramRefinesClauses(p, pro, bs, cs, false, granted);
      DecisionIsUnique(p, granted, false, FirstMatch(cs, false, granted));
      DecisionIsUnique(q, granted, true, FirstMatch(cs + [Effect(rule)], false, granted));
      StillGranted(cs, rule, undo, granted);
      if SameDecisions(p, z) {
        DecisionIsUnique(z, granted, false, true);
      }
    }
  }

  lemma StillGranted(cs: seq<Clause>, rule: Rule, undo: Rule, granted: Request)
    requires Accepted(rule) && Accepted(undo) && rule.allow
    requires !FirstMatch(cs, false, granted) && FirstMatch(cs + [Effect(rule)], false, granted)
    ensures FirstMatch(cs + [Effect(rule), Effect(undo)], false, granted)
  {
    FirstMatchAppends(cs, [Effect(rule)], false, granted);
    FirstMatchAppends(cs, [Effect(rule), Effect(undo)], false, granted);
    assert Matches(Effect(rule), granted);
  }
}
