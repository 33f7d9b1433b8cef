/** What loading, adding rules and finalizing do to a program that encodes a clause list. */
module FilterEdits {
  import opened Wrappers
  import opened Bpf
  import opened DeviceFilter
  import opened FilterSemantics
  import opened FilterRefinement

  /** The groups of a program without its tail: the prologue stays with the first block. */
  function GroupsOf(pro: Program, bs: seq<Program>): seq<Program>
    requires bs != []
  {
    [pro + bs[0]] + bs[1..]
  }

  function Body(pro: Program, bs: seq<Program>): Program {
    pro + Flatten(bs)
  }

  lemma GoodBlockIsClosed(b: Program)
    requires GoodBlock(b)
    ensures Closed(b)
  {
  }

  lemma GroupsOfBody(pro: Program, bs: seq<Program>)
    requires IsStraight(pro) && bs != [] && forall b :: b in bs ==> GoodBlock(b)
    ensures Groups(Body(pro, bs)) == GroupsOf(pro, bs)
    ensures Flatten(GroupsOf(pro, bs)) == Body(pro, bs)
  {
    var gs := GroupsOf(pro, bs);
    assert gs[1..] == bs[1..];
    assert pro + bs[0] + Flatten(bs[1..]) == pro + (bs[0] + Flatten(bs[1..]));
    forall i | 0 <= i < |gs|
      ensures Closed(gs[i])
    {
      assert bs[i] in bs;
      GoodBlockIsClosed(bs[i]);
      assert gs[i] == if i == 0 then pro + bs[0] else bs[i];
    }
    GroupsFlatten(gs);
  }

  lemma BodyLast(pro: Program, bs: seq<Program>)
    requires bs != []
    ensures Body(pro, bs) == pro + Flatten(bs[..|bs| - 1]) + bs[|bs| - 1]
  {
    var front, last := bs[..|bs| - 1], bs[|bs| - 1];
    assert bs == front + [last];
    FlattenAppends(front, [last]);
    FlattenOne(last);
    Associates(pro, Flatten(front), last);
  }

  lemma LastThree(front: Program, last: Program)
    requires GoodBlock(last)
    ensures var p := front + last;
            |p| >= 3 && p[|p| - 1].op.Exit? && p[|p| - 2].dst == R0 && !p[|p| - 3].op.Exit?
  {
    var n := |last|;
    assert WritesScratch(last[n - 3]) || IsJump(last[n - 3].op);
  }

  /** The last instructions of a body: no Exit in front of its last two. */
  lemma BodyEnds(pro: Program, bs: seq<Program>)
    requires bs != [] && forall b :: b in bs ==> GoodBlock(b)
    ensures var p := Body(pro, bs);
            |p| >= 3 && p[|p| - 1].op.Exit? && p[|p| - 2].dst == R0 && !p[|p| - 3].op.Exit?
  {
    hide GoodBlock, Flatten;
    var last := bs[|bs| - 1];
    assert last in bs;
    BodyLast(pro, bs);
    LastThree(pro + Flatten(bs[..|bs| - 1]), last);
  }

  /** Loading strips the default, whichever it is; finalizing always puts denial there. */
  lemma LoadAndFinalize(pro: Program, bs: seq<Program>, otherwise: bool)
    requires bs != [] && forall b :: b in bs ==> GoodBlock(b)
    ensures Load(Some(Code(pro, bs, otherwise))) == Done(Body(pro, bs))
    ensures Finalize(Body(pro, bs)) == Done(Code(pro, bs, false))
  {
    BodyEnds(pro, bs);
    var p, q := Body(pro, bs), Code(pro, bs, otherwise);
    var end := AcceptBlock(otherwise);
    assert q == p + end;
    assert q[..|q| - 2] == p;
    assert q[|q| - 3] == p[|p| - 1] && q[|q| - 2] == end[0] && q[|q| - 1] == end[1];
  }

  /** The rule's block takes the place of the last group that names the device. */
  predicate Replaces(pro: Program, bs: seq<Program>, rule: Rule)
    requires Accepted(rule) && bs != []
  {
    var gs := GroupsOf(pro, bs);
    var i := LastNaming(gs, rule);
    i >= 0 && |gs[i]| <= |Block(rule)|
  }

  function Position(pro: Program, bs: seq<Program>, rule: Rule): (i: nat)
    requires Accepted(rule) && bs != []
    ensures i <= |bs|
  {
    if Replaces(pro, bs, rule) then LastNaming(GroupsOf(pro, bs), rule) else |bs|
  }

  /** `s` with `x` at position `i`, which may be just past the end. */
  function Put<T>(s: seq<T>, i: nat, x: T): (r: seq<T>)
    requires i <= |s|
    ensures r == if i == |s| then s + [x] else s[i := x]
  {
    s[..i] + [x] + if i == |s| then [] else s[i + 1..]
  }

  /** A test that is neither in the prologue nor at the end of a block sits among the block's guards. */
  lemma TestIsAGuard(pro: Program, b: Program, reg: Reg, number: int) returns (i: nat)
    requires IsStraight(pro) && GoodBlock(b) && HasTest(pro + b, reg, number)
    ensures i < |b| - 2 && Tests(b[i], reg, number)
  {
    assert forall j | 0 <= j < |pro| :: (pro + b)[j] == pro[j];
    var k :| 0 <= k < |pro + b| && Tests((pro + b)[k], reg, number);
    i := k - |pro|;
  }

  /** The group that holds the prologue is longer than any block this tool builds, so it is never overwritten. */
  lemma PrologueGroupIsKept(pro: Program, bs: seq<Program>, rule: Rule)
    requires ValidPrologue(pro) && bs != [] && GoodBlock(bs[0]) && Accepted(rule)
    ensures Position(pro, bs, rule) >= 1
  {
    var gs := GroupsOf(pro, bs);
    if LastNaming(gs, rule) == 0 {
      PrologueHasFour(pro);
      var i2 := TestIsAGuard(pro, bs[0], R2, BpfType(rule.kind).value);
      var i4 := TestIsAGuard(pro, bs[0], R4, rule.major);
      var i5 := TestIsAGuard(pro, bs[0], R5, rule.minor);
      assert |gs[0]| >= 9;
      ToolBlockIsGood(rule);
    }
  }

  /** One edit of the group list is one edit of the block list, at the same position. */
  lemma MergeEditsBlocks(pro: Program, bs: seq<Program>, rule: Rule)
    requires ValidPrologue(pro) && bs != [] && GoodBlock(bs[0]) && Accepted(rule)
    ensures Put(bs, Position(pro, bs, rule), Block(rule)) != []
    ensures Merge(GroupsOf(pro, bs), rule) == GroupsOf(pro, Put(bs, Position(pro, bs, rule), Block(rule)))
  {
    PrologueGroupIsKept(pro, bs, rule);
    var gs, i, block := GroupsOf(pro, bs), Position(pro, bs, rule), Block(rule);
    var bs' := Put(bs, i, block);
    assert bs'[0] == bs[0];
    assert Merge(gs, rule) == Put(gs, i, block);
    assert GroupsOf(pro, bs') == Put(gs, i, block);
  }

  /**
   Adding an accepted rule to a loaded program: the result encodes the clause list with the rule's
   effect replaced in place, or added at the end.
   */
  lemma AppendRuleEncodes(pro: Program, bs: seq<Program>, cs: seq<Clause>, rule: Rule)
    requires ValidPrologue(pro) && bs != [] && AllImplement(bs, cs) && Accepted(rule)
    ensures var i := Position(pro, bs, rule);
            && AppendRule(Body(pro, bs), rule) == Done(Body(pro, Put(bs, i, Block(rule))))
            && AllImplement(Put(bs, i, Block(rule)), Put(cs, i, Effect(rule)))
  {
    BlocksAreGood(bs, cs);
    assert bs[0] in bs;
    BlockImplements(rule, R6);
    var i := Position(pro, bs, rule);
    var bs', cs' := Put(bs, i, Block(rule)), Put(cs, i, Effect(rule));
    PutImplements(bs, cs, i, Block(rule), Effect(rule));
    BlocksAreGood(bs', cs');
    GroupsOfBody(pro, bs);
    MergeEditsBlocks(pro, bs, rule);
    GroupsOfBody(pro, bs');
  }

  lemma PutImplements(bs: seq<Program>, cs: seq<Clause>, i: nat, b: Program, c: Clause)
    requires AllImplement(bs, cs) && i <= |bs| && Implements(b, c)
    ensures AllImplement(Put(bs, i, b), Put(cs, i, c))
  {
    hide Implements;
    var bs', cs' := Put(bs, i, b), Put(cs, i, c);
    forall k | 0 <= k < |bs'|
      ensures Implements(bs'[k], cs'[k])
    {
      if k != i {
        assert bs'[k] == bs[k] && cs'[k] == cs[k];
      }
    }
  }

  // Lists of rules.

  predicate AllAccepted(rules: seq<Option<Rule>>) {
    forall r :: r in rules && r.Some? ==> Accepted(r.value)
  }

  /** The blocks after a list of rules; nil entries are skipped. */
  function EditedBlocks(pro: Program, bs: seq<Program>, rules: seq<Option<Rule>>): (r: seq<Program>)
    requires bs != [] && AllAccepted(rules)
    ensures |r| >= |bs|
    decreases |rules|
  {
    if rules == [] then bs
    else if rules[0].None? then EditedBlocks(pro, bs, rules[1..])
    else
      assert rules[0] in rules;
      var rule := rules[0].value;
      EditedBlocks(pro, Put(bs, Position(pro, bs, rule), Block(rule)), rules[1..])
  }

  /** The clauses after a list of rules: each rule's effect goes where its block goes. */
  function EditedClauses(pro: Program, bs: seq<Program>, cs: seq<Clause>, rules: seq<Option<Rule>>): (r: seq<Clause>)
    requires bs != [] && |bs| == |cs| && AllAccepted(rules)
    ensures |r| >= |cs|
    decreases |rules|
  {
    if rules == [] then cs
    else if rules[0].None? then EditedClauses(pro, bs, cs, rules[1..])
    else
      assert rules[0] in rules;
      var rule := rules[0].value;
      var i := Position(pro, bs, rule);
      EditedClauses(pro, Put(bs, i, Block(rule)), Put(cs, i, Effect(rule)), rules[1..])
  }

  lemma {:induction false} AppendRulesEncodes(pro: Program, bs: seq<Program>, cs: seq<Clause>, rules: seq<Option<Rule>>)
    requires ValidPrologue(pro) && bs != [] && AllImplement(bs, cs) && AllAccepted(rules)
    ensures AppendRules(Body(pro, bs), rules) == Done(Body(pro, EditedBlocks(pro, bs, rules)))
    ensures AllImplement(EditedBlocks(pro, bs, rules), EditedClauses(pro, bs, cs, rules))
    decreases |rules|
  {
    hide Implements;
    if rules != [] {
      assert rules[0] in rules;
      if rules[0].None? {
        AppendRulesEncodes(pro, bs, cs, rules[1..]);
      } else {
        var rule := rules[0].value;
        var i := Position(pro, bs, rule);
        AppendRuleEncodes(pro, bs, cs, rule);
        AppendRulesEncodes(pro, Put(bs, i, Block(rule)), Put(cs, i, Effect(rule)), rules[1..]);
      }
    }
  }

  lemma {:induction false} RejectedRuleFails(p: Program, rules: seq<Option<Rule>>)
    requires !AllAccepted(rules)
    ensures AppendRules(p, rules).Failed?
    decreases |rules|
  {
    if rules[0].None? || !Accepted(rules[0].value) {
      if rules[0].None? {
        assert !AllAccepted(rules[1..]) by {
          var r :| r in rules && r.Some? && !Accepted(r.value);
          assert r in rules[1..];
        }
        RejectedRuleFails(p, rules[1..]);
      }
    } else {
      var r :| r in rules && r.Some? && !Accepted(r.value);
      assert r in rules[1..];
      RejectedRuleFails(AppendRule(p, rules[0].value).value, rules[1..]);
    }
  }

  /**
   The rewritten program encodes the edited clause list with the same prologue and default denial, and
   decides every request as that list does. A list with a rule that is not accepted makes the call fail.
   */
  lemma RewriteRefines(p: Program, pro: Program, bs: seq<Program>, cs: seq<Clause>, otherwise: bool,
                       rules: seq<Option<Rule>>)
    requires Encodes(p, pro, bs, cs, otherwise)
    ensures !AllAccepted(rules) ==> Rewrite(Some(p), rules).Failed?
    ensures AllAccepted(rules) ==>
              var bs', cs' := EditedBlocks(pro, bs, rules), EditedClauses(pro, bs, cs, rules);
              var q := Code(pro, bs', false);
              && Rewrite(Some(p), rules) == Done(q)
              && Encodes(q, pro, bs', cs', false)
              && forall req :: Decides(q, req, FirstMatch(cs', false, req))
  {
    hide Implements, Decides, ValidPrologue, Groups, Merge;
    BlocksAreGood(bs, cs);
    LoadAndFinalize(pro, bs, otherwise);
    if AllAccepted(rules) {
      var bs', cs' := EditedBlocks(pro, bs, rules), EditedClauses(pro, bs, cs, rules);
      var q := Code(pro, bs', false);
      AppendRulesEncodes(pro, bs, cs, rules);
      BlocksAreGood(bs', cs');
      LoadAndFinalize(pro, bs', false);
      forall req
        ensures Decides(q, req, FirstMatch(cs', false, req))
      {
        ProgramRefinesClauses(q, pro, bs', cs', false, req);
      }
    } else {
      RejectedRuleFails(Body(pro, bs), rules);
    }
  }

  /**
   Any list of accepted rules keeps the program safe: in the result every jump lands on the next group or
   the tail, and in every state of every run R2 to R5 are loaded behind the prologue, inside the program.
   */
  lemma RewrittenProgramIsSafe(p: Program, pro: Program, bs: seq<Program>, cs: seq<Clause>, otherwise: bool,
                               rules: seq<Option<Rule>>, req: Request, base: nat, regs: Regs, n: nat)
    requires Encodes(p, pro, bs, cs, otherwise) && AllAccepted(rules)
    ensures Rewrite(Some(p), rules).Done?
    ensures var q := Rewrite(Some(p), rules).value;
            && (forall k: nat :: k < |q| && IsJump(q[k].op) ==> LandsOnNextGroup(q, k))
            && OnTrack(q, pro, req, base, Steps(q, req, base, Start(base, regs), n))
  {
    hide Implements, LandsOnNextGroup, OnTrack, Steps, Decides;
    RewriteRefines(p, pro, bs, cs, otherwise, rules);
    var bs', cs' := EditedBlocks(pro, bs, rules), EditedClauses(pro, bs, cs, rules);
    var q := Code(pro, bs', false);
    forall k: nat | k < |q| && IsJump(q[k].op)
      ensures LandsOnNextGroup(q, k)
    {
      JumpsAreSafe(q, pro, bs', cs', false, k);
    }
    ReachableStates(q, pro, bs', cs', false, req, base, regs, n);
  }

  // Programs outside the scope of the results above.

  predicate NoRules(rules: seq<Option<Rule>>) {
    forall r :: r in rules ==> r.None?
  }

  lemma {:induction false} FlattenHolds(gs: seq<Program>, i: nat)
    requires i < |gs|
    ensures |Flatten(gs)| >= |gs[i]|
    decreases i
  {
    if i > 0 {
      FlattenHolds(gs[1..], i - 1);
    }
  }

  lemma MergeIsLong(gs: seq<Program>, rule: Rule)
    requires Accepted(rule)
    ensures |Flatten(Merge(gs, rule))| >= 3
  {
    hide Flatten, Block;
    ToolBlockIsGood(rule);
    var i := LastNaming(gs, rule);
    FlattenHolds(Merge(gs, rule), if i < 0 || |gs[i]| > |Block(rule)| then |gs| else i);
  }

  lemma {:induction false} AppendedIsLong(p: Program, rules: seq<Option<Rule>>)
    ensures !AppendRules(p, rules).Panicked?
    ensures NoRules(rules) ==> AppendRules(p, rules) == Done(p)
    ensures AppendRules(p, rules).Done? && !NoRules(rules) ==> |AppendRules(p, rules).value| >= 3
    decreases |rules|
  {
    hide Merge, Groups, Flatten, Accepted;
    if rules != [] {
      assert forall r :: r in rules <==> r == rules[0] || r in rules[1..];
      if rules[0].None? {
        AppendedIsLong(p, rules[1..]);
      } else if Accepted(rules[0].value) {
        MergeIsLong(Groups(p), rules[0].value);
        AppendedIsLong(AppendRule(p, rules[0].value).value, rules[1..]);
      }
    }
  }

  /**
   Rewriting panics exactly for a program that is too short, or, when there is no rule to add, for one
   that is too short without its tail.
   */
  lemma RewritePanicsIff(p: Program, rules: seq<Option<Rule>>)
    ensures Rewrite(Some(p), rules).Panicked? <==>
              || TooShort(p)
              || (NoRules(rules) && Load(Some(p)).Done? && TooShort(Load(Some(p)).value))
  {
    hide AppendRules, NoRules;
    if Load(Some(p)).Done? {
      AppendedIsLong(Load(Some(p)).value, rules);
    }
  }

  lemma {:induction false} AcceptedRulesAppend(p: Program, rules: seq<Option<Rule>>)
    requires AllAccepted(rules)
    ensures AppendRules(p, rules).Done?
    decreases |rules|
  {
    hide Merge, Groups, Flatten, Accepted;
    if rules != [] {
      assert rules[0] in rules;
      AcceptedRulesAppend(if rules[0].None? then p else AppendRule(p, rules[0].value).value, rules[1..]);
    }
  }

  /** Rewriting returns an error exactly for a refused rule, unless it panics before. */
  lemma RewriteFailsIff(p: Program, rules: seq<Option<Rule>>)
    ensures Rewrite(Some(p), rules).Failed? <==> !TooShort(p) && !AllAccepted(rules)
  {
    hide AppendRules, Accepted;
    if Load(Some(p)).Done? {
      var loaded := Load(Some(p)).value;
      if AllAccepted(rules) {
        AcceptedRulesAppend(loaded, rules);
      } else {
        RejectedRuleFails(loaded, rules);
      }
    }
  }

  /** A filter that is nothing but a return makes rewriting panic, whatever the rules. */
  lemma ConstantFilterPanics(allow: bool, rules: seq<Option<Rule>>)
    ensures Rewrite(Some(AcceptBlock(allow)), rules).Panicked?
  {
    RewritePanicsIff(AcceptBlock(allow), rules);
  }

  lemma TailIsTakenIff(p: Program)
    requires p != []
    ensures Load(Some(p + DENY_TAIL)) == Done(p) <==> p[|p| - 1].op.Exit?
  {
    var q := p + DENY_TAIL;
    assert q[|q| - 3] == p[|p| - 1] && q[|q| - 2] == DENY_TAIL[0] && q[|q| - 1] == DENY_TAIL[1];
    assert q[..|q| - 2] == p;
  }

  /**
   Loading gives back the program that was finalized exactly when it ends at an Exit, to be found by
   loading, and does not end with a tail already, to be told from the one that finalizing adds.
   */
  lemma LoadUndoesFinalizeIff(p: Program)
    ensures Finalize(p).Done? && Load(Some(Finalize(p).value)) == Done(p)
       <==> p != [] && p[|p| - 1].op.Exit? && HasEndExit(p) == Some(false)
  {
    if p != [] {
      TailIsTakenIff(p);
      if HasEndExit(p) == Some(true) {
        assert |p[..|p| - 2]| < |p|;
      }
    }
  }

  /** Ending at an Exit is not enough: this program already looks finalized, and loading shortens it. */
  lemma FinalizedAlready()
    ensures var p := [AcceptBlock(true)[1]] + DENY_TAIL;
            p[|p| - 1].op.Exit? && Finalize(p) == Done(p) && Load(Some(p)) != Done(p)
  {
    var p := [AcceptBlock(true)[1]] + DENY_TAIL;
    LoadUndoesFinalizeIff(p);
    assert HasEndExit(p) == Some(true);
  }

  /**
   A program without rule blocks is not recognized: its own return stays in front of every added block,
   so that no list of rules ever changes a decision.
   */
  lemma RulelessProgramIgnoresRules(pro: Program, otherwise: bool, rules: seq<Option<Rule>>, req: Request)
    requires ValidPrologue(pro) && AllAccepted(rules)
    ensures Rewrite(Some(pro + AcceptBlock(otherwise)), rules).Done?
    ensures Decides(Rewrite(Some(pro + AcceptBlock(otherwise)), rules).value, req, otherwise)
  {
    hide PrologueLoads;
    RulelessRewrite(pro, otherwise, rules);
    var q := Rewrite(Some(pro + AcceptBlock(otherwise)), rules).value;
    forall base: nat, regs: Regs
      ensures Steps(q, req, base, Start(base, regs), |q|) == Returned(Verdict(otherwise))
    {
      RulelessRun(q, pro, otherwise, req, base, regs);
    }
  }

  lemma RulelessRewrite(pro: Program, otherwise: bool, rules: seq<Option<Rule>>)
    requires ValidPrologue(pro) && AllAccepted(rules)
    ensures Rewrite(Some(pro + AcceptBlock(otherwise)), rules).Done?
    ensures pro + AcceptBlock(otherwise) <= Rewrite(Some(pro + AcceptBlock(otherwise)), rules).value
  {
    hide PrologueLoads, AppendRule;
    var p := pro + AcceptBlock(otherwise);
    PrologueHasFour(pro);
    assert p[|p| - 3] == pro[|pro| - 1];
    assert Load(Some(p)) == Done(p);
    FlattenOne(p);
    RulelessAppends(pro, otherwise, [p], rules);
  }

  lemma MergeKeepsFirst(pro: Program, otherwise: bool, gs: seq<Program>, rule: Rule)
    requires IsStraight(pro) && Accepted(rule) && gs != [] && gs[0] == pro + AcceptBlock(otherwise)
    requires forall g :: g in gs ==> Closed(g)
    ensures Merge(gs, rule) != [] && Merge(gs, rule)[0] == gs[0]
    ensures forall g :: g in Merge(gs, rule) ==> Closed(g)
  {
    assert !Names(gs[0], rule);
    ToolBlockIsGood(rule);
    GoodBlockIsClosed(Block(rule));
    hide Names, Closed, Block, GoodBlock;
  }

  /** The first group stays, because it tests for nothing. */
  lemma {:induction false} RulelessAppends(pro: Program, otherwise: bool, gs: seq<Program>, rules: seq<Option<Rule>>)
    requires IsStraight(pro) && AllAccepted(rules) && gs != [] && gs[0] == pro + AcceptBlock(otherwise)
    requires forall g :: g in gs ==> Closed(g)
    ensures AppendRules(Flatten(gs), rules).Done?
    ensures pro + AcceptBlock(otherwise) <= AppendRules(Flatten(gs), rules).value
    decreases |rules|
  {
    if rules != [] {
      assert rules[0] in rules;
      if rules[0].None? {
        RulelessAppends(pro, otherwise, gs, rules[1..]);
      } else {
        var rule := rules[0].value;
        GroupsFlatten(gs);
        MergeKeepsFirst(pro, otherwise, gs, rule);
        hide Merge, Flatten, Groups, Closed, Accepted;
        RulelessAppends(pro, otherwise, Merge(gs, rule), rules[1..]);
      }
    }
  }

  lemma RulelessRun(q: Program, pro: Program, otherwise: bool, req: Request, base: nat, regs: Regs)
    requires ValidPrologue(pro) && pro + AcceptBlock(otherwise) <= q
    ensures Steps(q, req, base, Start(base, regs), |q|) == Returned(Verdict(otherwise))
  {
    assert PrologueLoads(pro, req, base, regs);
    hide Steps, Step;
    var st := Start(base, regs);
    assert pro <= q;
    PrologueSimulates(q, pro, 0, req, base, st.regs);
    var loaded := RunStraight(pro, 0, req, base, st.regs).value;
    ReturnRuns(q, |pro|, otherwise, loaded, req, base);
    Chain(q, req, base, st, |pro|, Running(|pro|, loaded), 2, Returned(Verdict(otherwise)));
    HaltedStays(q, req, base, st, |pro| + 2, |q|);
  }
}
