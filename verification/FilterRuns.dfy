/** Applying the same rules to a program again. */
module FilterRuns {
  import opened Wrappers
  import opened Bpf
  import opened DeviceFilter
  import opened FilterSemantics
  import opened FilterRefinement
  import opened FilterEdits

  function Somes(rules: seq<Rule>): (r: seq<Option<Rule>>)
    ensures |r| == |rules|
    ensures forall i :: 0 <= i < |r| ==> r[i] == Some(rules[i])
  {
    seq(|rules|, i requires 0 <= i < |rules| => Some(rules[i]))
  }

  predicate Valid(rules: seq<Rule>) {
    forall i :: 0 <= i < |rules| ==> Accepted(rules[i]) && Concrete(rules[i])
  }

  predicate SameName(a: Rule, b: Rule) {
    a.kind == b.kind && a.major == b.major && a.minor == b.minor
  }

  predicate Distinct(rules: seq<Rule>) {
    forall i, j :: 0 <= i < j < |rules| ==> !SameName(rules[i], rules[j])
  }

  /** A device may be listed more than once, as for two vGPUs of one card, but always by the same rule. */
  predicate Consistent(rules: seq<Rule>) {
    forall a, b :: a in rules && b in rules && SameName(a, b) ==> a == b
  }

  // What a built block names.

  lemma BlockTests(rule: Rule, reg: Reg, number: int)
    requires Accepted(rule)
    ensures HasTest(Block(rule), reg, number) <==>
              || (reg == R2 && number == BpfType(rule.kind).value)
              || (reg == R4 && rule.major >= 0 && number == Int32(rule.major))
              || (reg == R5 && rule.minor >= 0 && number == Int32(rule.minor))
  {
    var raw, b := RawBlock(rule, R6), Block(rule);
    var access := AccessTest(Permitted(rule.permissions).value, R6);
    var i4 := 1 + |access|;
    var i5 := i4 + |NumberTest(R4, rule.major)|;
    assert forall k | 0 <= k < |b| :: b[k] == Aimed(raw, k);
    assert b[0] in b && Tests(b[0], R2, BpfType(rule.kind).value);
    if rule.major >= 0 {
      assert raw[i4] == JneImm32(R4, Int32(rule.major));
      assert b[i4] in b;
    }
    if rule.minor >= 0 {
      assert raw[i5] == JneImm32(R5, Int32(rule.minor));
      assert b[i5] in b;
    }
    forall k | 0 <= k < |b| && Tests(b[k], reg, number)
      ensures k == 0 || (rule.major >= 0 && k == i4) || (rule.minor >= 0 && k == i5)
    {
      assert raw[k].op.JneImm?;
    }
  }

  /** A built block names exactly the devices whose numbers are its rule's after the conversion to int32. */
  lemma BlockNames(rule: Rule, other: Rule)
    requires Accepted(rule) && Accepted(other)
    ensures Names(Block(rule), other) <==>
              && rule.kind == other.kind
              && rule.major >= 0 && Int32(rule.major) == other.major
              && rule.minor >= 0 && Int32(rule.minor) == other.minor
  {
    BlockTests(rule, R2, BpfType(other.kind).value);
    BlockTests(rule, R4, other.major);
    BlockTests(rule, R5, other.minor);
  }

  // Applying a request again.

  function MergeAll(gs: seq<Program>, rules: seq<Rule>): seq<Program>
    requires Valid(rules)
    decreases |rules|
  {
    if rules == [] then gs else MergeAll(Merge(gs, rules[0]), rules[1..])
  }

  /** The last group that names the rule's device is the rule's own block. */
  predicate Settled(gs: seq<Program>, rule: Rule)
    requires Accepted(rule)
  {
    LastNaming(gs, rule) >= 0 && gs[LastNaming(gs, rule)] == Block(rule)
  }

  lemma LastNamingIs(gs: seq<Program>, rule: Rule, k: nat)
    requires Accepted(rule) && k < |gs| && Names(gs[k], rule)
    requires forall j :: k < j < |gs| ==> !Names(gs[j], rule)
    ensures LastNaming(gs, rule) == k
  {
    var i := LastNaming(gs, rule);
    assert !(i < k) && !(k < i);
  }

  lemma MergeSettles(gs: seq<Program>, rule: Rule)
    requires Accepted(rule) && Concrete(rule) && Fits(rule)
    ensures Settled(Merge(gs, rule), rule)
  {
    BlockNames(rule, rule);
    var i := LastNaming(gs, rule);
    var gs' := Merge(gs, rule);
    if i < 0 || |gs[i]| > |Block(rule)| {
      LastNamingIs(gs', rule, |gs|);
    } else {
      LastNamingIs(gs', rule, i);
    }
  }

  lemma MergeKeepsSettled(gs: seq<Program>, rule: Rule, other: Rule)
    requires Accepted(rule) && Concrete(rule) && Fits(rule) && Settled(gs, rule)
    requires Accepted(other) && Concrete(other) && !SameName(rule, other)
    ensures Settled(Merge(gs, other), rule)
  {
    BlockNames(other, rule);
    BlockNames(rule, other);
    assert Int32(rule.major) == rule.major && Int32(rule.minor) == rule.minor;
    var k, i := LastNaming(gs, rule), LastNaming(gs, other);
    var gs' := Merge(gs, other);
    assert i >= 0 ==> i != k;
    assert other.major > MAX_INT32 ==> Int32(other.major) < 0;
    assert other.minor > MAX_INT32 ==> Int32(other.minor) < 0;
    assert gs'[k] == gs[k];
    LastNamingIs(gs', rule, k);
  }

  lemma {:induction false} MergeAllKeepsSettled(gs: seq<Program>, rule: Rule, rules: seq<Rule>)
    requires Accepted(rule) && Concrete(rule) && Fits(rule) && Settled(gs, rule)
    requires Valid(rules) && forall r :: r in rules && SameName(rule, r) ==> r == rule
    ensures Settled(MergeAll(gs, rules), rule)
    decreases |rules|
  {
    if rules != [] {
      assert rules[0] in rules;
      if rules[0] == rule {
        MergeSettles(gs, rule);
      } else {
        MergeKeepsSettled(gs, rule, rules[0]);
      }
      MergeAllKeepsSettled(Merge(gs, rules[0]), rule, rules[1..]);
    }
  }

  lemma {:induction false} MergeAllSettles(gs: seq<Program>, rules: seq<Rule>)
    requires Valid(rules) && Consistent(rules) && forall i :: 0 <= i < |rules| ==> Fits(rules[i])
    ensures forall i :: 0 <= i < |rules| ==> Settled(MergeAll(gs, rules), rules[i])
    decreases |rules|
  {
    hide Settled, Merge;
    if rules != [] {
      assert rules[0] in rules;
      var gs' := Merge(gs, rules[0]);
      MergeSettles(gs, rules[0]);
      MergeAllKeepsSettled(gs', rules[0], rules[1..]);
      MergeAllSettles(gs', rules[1..]);
      forall i | 0 <= i < |rules|
        ensures Settled(MergeAll(gs, rules), rules[i])
      {
        assert i > 0 ==> rules[i] == rules[1..][i - 1];
      }
    }
  }

  lemma {:induction false} SettledStays(gs: seq<Program>, rules: seq<Rule>)
    requires Valid(rules) && forall i :: 0 <= i < |rules| ==> Settled(gs, rules[i])
    ensures MergeAll(gs, rules) == gs
    decreases |rules|
  {
    if rules != [] {
      assert Settled(gs, rules[0]);
      assert Merge(gs, rules[0]) == gs;
      SettledStays(gs, rules[1..]);
    }
  }

  /** Editing a program is merging its groups. */
  lemma {:induction false} EditsAreMerges(pro: Program, bs: seq<Program>, rules: seq<Rule>)
    requires ValidPrologue(pro) && bs != [] && (forall b :: b in bs ==> GoodBlock(b)) && Valid(rules)
    requires AllAccepted(Somes(rules))
    ensures GroupsOf(pro, EditedBlocks(pro, bs, Somes(rules))) == MergeAll(GroupsOf(pro, bs), rules)
    decreases |rules|
  {
    if rules != [] {
      assert Somes(rules)[1..] == Somes(rules[1..]);
      var rule := rules[0];
      var bs' := Put(bs, Position(pro, bs, rule), Block(rule));
      assert bs[0] in bs;
      MergeEditsBlocks(pro, bs, rule);
      ToolBlockIsGood(rule);
      PrologueGroupIsKept(pro, bs, rule);
      assert AllAccepted(Somes(rules[1..])) by {
        assert forall r :: r in Somes(rules[1..]) ==> r in Somes(rules);
      }
      EditsAreMerges(pro, bs', rules[1..]);
    }
  }

  lemma SomesAccepted(rules: seq<Rule>)
    requires Valid(rules)
    ensures AllAccepted(Somes(rules))
  {
  }

  lemma GroupsDetermineBody(pro: Program, bs: seq<Program>, bs': seq<Program>)
    requires bs != [] && bs' != [] && GroupsOf(pro, bs) == GroupsOf(pro, bs')
    ensures bs == bs'
  {
    var g, g' := GroupsOf(pro, bs)[0], GroupsOf(pro, bs')[0];
    assert bs[0] == g[|pro|..] && bs'[0] == g'[|pro|..];
    assert bs[1..] == GroupsOf(pro, bs)[1..] == bs'[1..];
    assert bs == [bs[0]] + bs[1..] && bs' == [bs'[0]] + bs'[1..];
  }

  // A rule whose numbers do not fit is never settled.

  function CountNaming(gs: seq<Program>, rule: Rule): nat
    requires Accepted(rule)
  {
    if gs == [] then 0 else (if Names(gs[0], rule) then 1 else 0) + CountNaming(gs[1..], rule)
  }

  lemma {:induction false} CountPut(gs: seq<Program>, i: nat, g: Program, rule: Rule)
    requires Accepted(rule) && i <= |gs| && !Names(g, rule)
    ensures CountNaming(Put(gs, i, g), rule)
         == CountNaming(gs, rule) - if i < |gs| && Names(gs[i], rule) then 1 else 0
    decreases i
  {
    hide Names;
    var put := Put(gs, i, g);
    if i > 0 {
      CountPut(gs[1..], i - 1, g, rule);
      assert put[1..] == Put(gs[1..], i - 1, g);
    } else if gs != [] {
      assert put[1..] == gs[1..];
    }
  }

  /** `b` has more groups than `a`, or as many of which fewer name the rule's device. */
  predicate Farther(a: seq<Program>, b: seq<Program>, rule: Rule)
    requires Accepted(rule)
  {
    |a| < |b| || (|a| == |b| && CountNaming(b, rule) < CountNaming(a, rule))
  }

  predicate NotBack(a: seq<Program>, b: seq<Program>, rule: Rule)
    requires Accepted(rule)
  {
    |a| < |b| || (|a| == |b| && CountNaming(b, rule) <= CountNaming(a, rule))
  }

  lemma MergeGoesOn(gs: seq<Program>, other: Rule, rule: Rule)
    requires Accepted(rule) && Accepted(other) && Concrete(rule) && !Fits(rule)
    ensures NotBack(gs, Merge(gs, other), rule)
    ensures other == rule ==> Farther(gs, Merge(gs, other), rule)
  {
    assert !Names(Block(other), rule) by {
      BlockNames(other, rule);
    }
    hide Names, Block;
    var i := LastNaming(gs, other);
    if i < 0 || |gs[i]| > |Block(other)| {
      CountPut(gs, |gs|, Block(other), rule);
    } else {
      CountPut(gs, i, Block(other), rule);
    }
  }

  lemma {:induction false} MergeAllGoesOn(gs: seq<Program>, rules: seq<Rule>, rule: Rule)
    requires Valid(rules) && Accepted(rule) && Concrete(rule) && !Fits(rule)
    ensures NotBack(gs, MergeAll(gs, rules), rule)
    ensures rule in rules ==> Farther(gs, MergeAll(gs, rules), rule)
    decreases |rules|
  {
    hide Merge;
    if rules != [] {
      MergeGoesOn(gs, rules[0], rule);
      MergeAllGoesOn(Merge(gs, rules[0]), rules[1..], rule);
    }
  }

  lemma SettledIff(gs: seq<Program>, rules: seq<Rule>)
    requires Valid(rules) && Consistent(rules)
    ensures MergeAll(MergeAll(gs, rules), rules) == MergeAll(gs, rules)
       <==> forall i :: 0 <= i < |rules| ==> Fits(rules[i])
  {
    var once := MergeAll(gs, rules);
    if forall i :: 0 <= i < |rules| ==> Fits(rules[i]) {
      MergeAllSettles(gs, rules);
      SettledStays(once, rules);
    } else {
      var i :| 0 <= i < |rules| && !Fits(rules[i]);
      MergeAllGoesOn(once, rules, rules[i]);
    }
  }

  /** Both applications of a request, as edits of the group list. */
  lemma TwoRequests(p: Program, pro: Program, bs: seq<Program>, cs: seq<Clause>, otherwise: bool, rules: seq<Rule>)
    returns (bs1: seq<Program>, cs1: seq<Clause>, bs2: seq<Program>, cs2: seq<Clause>)
    requires Encodes(p, pro, bs, cs, otherwise) && Valid(rules)
    ensures bs1 != [] && bs2 != [] && AllImplement(bs1, cs1) && AllImplement(bs2, cs2)
    ensures Rewrite(Some(p), Somes(rules)) == Done(Code(pro, bs1, false))
    ensures Rewrite(Some(Code(pro, bs1, false)), Somes(rules)) == Done(Code(pro, bs2, false))
    ensures GroupsOf(pro, bs1) == MergeAll(GroupsOf(pro, bs), rules)
    ensures GroupsOf(pro, bs2) == MergeAll(GroupsOf(pro, bs1), rules)
  {
    hide Implements, ValidPrologue, Decides, EditedBlocks, EditedClauses;
    SomesAccepted(rules);
    RewriteRefines(p, pro, bs, cs, otherwise, Somes(rules));
    bs1, cs1 := EditedBlocks(pro, bs, Somes(rules)), EditedClauses(pro, bs, cs, Somes(rules));
    RewriteRefines(Code(pro, bs1, false), pro, bs1, cs1, false, Somes(rules));
    bs2, cs2 := EditedBlocks(pro, bs1, Somes(rules)), EditedClauses(pro, bs1, cs1, Somes(rules));
    BlocksAreGood(bs, cs);
    BlocksAreGood(bs1, cs1);
    EditsAreMerges(pro, bs, rules);
    EditsAreMerges(pro, bs1, rules);
  }

  /**
   The second application of a request for concrete devices, each always by the same rule, yields the very
   program it finds, which is the test for leaving the kernel alone, exactly when all numbers fit.
   */
  lemma SecondRequestChangesNothing(p: Program, pro: Program, bs: seq<Program>, cs: seq<Clause>, otherwise: bool,
                                    rules: seq<Rule>)
    requires Encodes(p, pro, bs, cs, otherwise) && Valid(rules) && Consistent(rules)
    ensures var q := Rewrite(Some(p), Somes(rules));
            q.Done? && (Rewrite(Some(q.value), Somes(rules)) == q <==> forall i :: 0 <= i < |rules| ==> Fits(rules[i]))
  {
    hide Implements, ValidPrologue, Rewrite, MergeAll, Fits;
    var bs1, cs1, bs2, cs2 := TwoRequests(p, pro, bs, cs, otherwise, rules);
    SettledIff(GroupsOf(pro, bs), rules);
    if GroupsOf(pro, bs1) == GroupsOf(pro, bs2) {
      GroupsDetermineBody(pro, bs1, bs2);
    } else {
      CodeDeterminesGroups(pro, bs1, bs2, cs1, cs2);
    }
  }

  /**
   For one accepted rule, whatever the program: applying it a second time changes nothing exactly when
   the rule has both numbers and they fit. Otherwise the block never finds itself again.
   */
  lemma SecondApplicationIff(p: Program, pro: Program, bs: seq<Program>, cs: seq<Clause>, otherwise: bool, rule: Rule)
    requires Encodes(p, pro, bs, cs, otherwise) && Accepted(rule)
    ensures var q := Rewrite(Some(p), [Some(rule)]);
            q.Done? && (Rewrite(Some(q.value), [Some(rule)]) == q <==> Concrete(rule) && Fits(rule))
  {
    hide Implements, ValidPrologue, Decides, Merge, Position, Block, Effect;
    var bs1, cs1 := OneRule(p, pro, bs, cs, otherwise, rule);
    var q := Code(pro, bs1, false);
    var bs2, cs2 := OneRule(q, pro, bs1, cs1, false, rule);
    MergeAgainIff(GroupsOf(pro, bs), rule);
    if Concrete(rule) && Fits(rule) {
      GroupsDetermineBody(pro, bs1, bs2);
    } else {
      CodeDeterminesGroups(pro, bs1, bs2, cs1, cs2);
    }
  }

  lemma MergeAgainIff(gs: seq<Program>, rule: Rule)
    requires Accepted(rule)
    ensures Merge(Merge(gs, rule), rule) == Merge(gs, rule) <==> Concrete(rule) && Fits(rule)
  {
    BlockNames(rule, rule);
    if Concrete(rule) && Fits(rule) {
      MergeSettles(gs, rule);
    } else {
      assert !Names(Block(rule), rule);
      var gs1 := Merge(gs, rule);
      var i := LastNaming(gs1, rule);
      if i >= 0 && |gs1[i]| <= |Block(rule)| {
        assert Merge(gs1, rule)[i] != gs1[i];
      }
    }
  }

  lemma OneRule(p: Program, pro: Program, bs: seq<Program>, cs: seq<Clause>, otherwise: bool, rule: Rule)
    returns (bs': seq<Program>, cs': seq<Clause>)
    requires Encodes(p, pro, bs, cs, otherwise) && Accepted(rule)
    ensures var i := Position(pro, bs, rule); bs' == Put(bs, i, Block(rule)) && cs' == Put(cs, i, Effect(rule))
    ensures Rewrite(Some(p), [Some(rule)]) == Done(Code(pro, bs', false))
    ensures Encodes(Code(pro, bs', false), pro, bs', cs', false)
    ensures GroupsOf(pro, bs') == Merge(GroupsOf(pro, bs), rule)
  {
    hide Implements, Decides;
    var i := Position(pro, bs, rule);
    bs', cs' := Put(bs, i, Block(rule)), Put(cs, i, Effect(rule));
    var once := [Some(rule)];
    RewriteRefines(p, pro, bs, cs, otherwise, once);
    assert once[1..] == [];
    assert EditedBlocks(pro, bs, once) == EditedBlocks(pro, bs', []) == bs';
    assert EditedClauses(pro, bs, cs, once) == EditedClauses(pro, bs', cs', []) == cs';
    BlocksAreGood(bs, cs);
    assert bs[0] in bs;
    MergeEditsBlocks(pro, bs, rule);
  }

  lemma CodeDeterminesGroups(pro: Program, bs: seq<Program>, bs': seq<Program>, cs: seq<Clause>, cs': seq<Clause>)
    requires ValidPrologue(pro) && bs != [] && bs' != [] && AllImplement(bs, cs) && AllImplement(bs', cs')
    ensures Code(pro, bs, false) == Code(pro, bs', false) ==> GroupsOf(pro, bs) == GroupsOf(pro, bs')
  {
    BlocksAreGood(bs, cs);
    BlocksAreGood(bs', cs');
    LoadAndFinalize(pro, bs, false);
    LoadAndFinalize(pro, bs', false);
    GroupsOfBody(pro, bs);
    GroupsOfBody(pro, bs');
  }
}
