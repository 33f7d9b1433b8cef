/**
 What adding rules means for single requests: other devices keep their decisions, a rule decides its own
 device unless an earlier clause does, and a default-allow program loses its default.
 */
module FilterTheorems {
  import opened Wrappers
  import opened Bpf
  import opened DeviceFilter
  import opened FilterSemantics
  import opened FilterRefinement
  import opened FilterEdits

  // First match over edited lists.

  lemma {:induction false} FirstMatchAppends(a: seq<Clause>, b: seq<Clause>, otherwise: bool, req: Request)
    ensures FirstMatch(a + b, otherwise, req) == FirstMatch(a, FirstMatch(b, otherwise, req), req)
    decreases |a|
  {
    if a == [] {
      assert a + b == b;
    } else {
      assert (a + b)[1..] == a[1..] + b;
      FirstMatchAppends(a[1..], b, otherwise, req);
    }
  }

  /** A clause that does not match, put in the place of one that does not match, changes nothing. */
  lemma PutMisses(cs: seq<Clause>, i: nat, c: Clause, otherwise: bool, req: Request)
    requires i <= |cs| && !Matches(c, req) && (i < |cs| ==> !Matches(cs[i], req))
    ensures FirstMatch(Put(cs, i, c), otherwise, req) == FirstMatch(cs, otherwise, req)
  {
    var rest := if i == |cs| then [] else cs[i + 1..];
    FirstMatchAppends(cs[..i], [c] + rest, otherwise, req);
    assert Put(cs, i, c) == cs[..i] + ([c] + rest);
    assert FirstMatch([c] + rest, otherwise, req) == FirstMatch(rest, otherwise, req);
    if i == |cs| {
      assert cs[..i] == cs;
    } else {
      FirstMatchAppends(cs[..i], [cs[i]] + rest, otherwise, req);
      assert cs == cs[..i] + ([cs[i]] + rest);
      assert FirstMatch([cs[i]] + rest, otherwise, req) == FirstMatch(rest, otherwise, req);
    }
  }

  // Frame.

  lemma {:induction false} FailingTestFalls(b: Program, i: nat, k: nat, regs: Regs, reg: Reg, number: int)
    requires GoodBlock(b) && i <= k < |b| - 1
    requires Tests(b[k], reg, number) && R2 <= reg <= R5 && regs[reg] != ToU64(number)
    ensures Eval(b, i, regs).Falls?
    decreases k - i
  {
    if i < k {
      if IsJump(b[i].op) {
        if !JumpTaken(b[i], regs) {
          FailingTestFalls(b, i + 1, k, regs, reg, number);
        }
      } else {
        FailingTestFalls(b, i + 1, k, regs[b[i].dst := AluValue(b[i], regs)], reg, number);
      }
    }
  }

  lemma TestLimits(b: Program, c: Clause, reg: Reg, number: int, regs: Regs, req: Request)
    requires Implements(b, c) && HasTest(b, reg, number) && R2 <= reg <= R5
    requires Loaded(regs, req) && regs[reg] != ToU64(number)
    ensures !Matches(c, req)
  {
    var k :| 0 <= k < |b| && Tests(b[k], reg, number);
    FailingTestFalls(b, 0, k, regs, reg, number);
  }

  function LoadedRegs(req: Request): (regs: Regs)
    ensures Loaded(regs, req)
  {
    [0, 0, req.devType, AccessBits(req.access), req.major, req.minor, 0, 0, 0, 0, 0]
  }

  /** A block that names a device decides no request about another one. */
  lemma NamingBlockMisses(b: Program, c: Clause, rule: Rule, req: Request)
    requires Implements(b, c) && Accepted(rule) && Concrete(rule) && Names(b, rule) && !SameDevice(rule, req)
    ensures !Matches(c, req)
  {
    hide Implements;
    var regs := LoadedRegs(req);
    if BpfType(rule.kind).value != req.devType {
      TestLimits(b, c, R2, BpfType(rule.kind).value, regs, req);
    } else if rule.major != req.major {
      TestLimits(b, c, R4, rule.major, regs, req);
    } else {
      TestLimits(b, c, R5, rule.minor, regs, req);
    }
  }

  lemma EffectIsOnDevice(rule: Rule, req: Request)
    requires Accepted(rule) && Concrete(rule) && !SameDevice(rule, req)
    ensures !Matches(Effect(rule), req)
  {
  }

  lemma OneRuleFrame(pro: Program, bs: seq<Program>, cs: seq<Clause>, rule: Rule, req: Request)
    requires ValidPrologue(pro) && bs != [] && AllImplement(bs, cs)
    requires Accepted(rule) && Concrete(rule) && !SameDevice(rule, req)
    ensures var cs' := Put(cs, Position(pro, bs, rule), Effect(rule));
            FirstMatch(cs', false, req) == FirstMatch(cs, false, req)
  {
    var i := Position(pro, bs, rule);
    EffectIsOnDevice(rule, req);
    assert Implements(bs[0], cs[0]);
    PrologueGroupIsKept(pro, bs, rule);
    if i < |bs| {
      assert GroupsOf(pro, bs)[i] == bs[i];
      NamingBlockMisses(bs[i], cs[i], rule, req);
    }
    PutMisses(cs, i, Effect(rule), false, req);
  }

  lemma {:induction false} RulesFrame(pro: Program, bs: seq<Program>, cs: seq<Clause>, rules: seq<Option<Rule>>,
                                      req: Request)
    requires ValidPrologue(pro) && bs != [] && AllImplement(bs, cs) && AllAccepted(rules)
    requires forall r :: r in rules && r.Some? ==> Concrete(r.value) && !SameDevice(r.value, req)
    ensures FirstMatch(EditedClauses(pro, bs, cs, rules), false, req) == FirstMatch(cs, false, req)
    decreases |rules|
  {
    if rules != [] {
      assert rules[0] in rules;
      if rules[0].None? {
        RulesFrame(pro, bs, cs, rules[1..], req);
      } else {
        var rule := rules[0].value;
        var i := Position(pro, bs, rule);
        OneRuleFrame(pro, bs, cs, rule, req);
        AppendRuleEncodes(pro, bs, cs, rule);
        RulesFrame(pro, Put(bs, i, Block(rule)), Put(cs, i, Effect(rule)), rules[1..], req);
      }
    }
  }

  /** Rewriting with rules for concrete devices leaves the decision on every other device as it was. */
  lemma OtherDevicesKeepTheirDecision(p: Program, pro: Program, bs: seq<Program>, cs: seq<Clause>,
                                      rules: seq<Option<Rule>>, req: Request, allow: bool)
    requires Encodes(p, pro, bs, cs, false) && AllAccepted(rules)
    requires forall r :: r in rules && r.Some? ==> Concrete(r.value) && !SameDevice(r.value, req)
    requires Decides(p, req, allow)
    ensures Rewrite(Some(p), rules).Done? && Decides(Rewrite(Some(p), rules).value, req, allow)
  {
    RewriteRefines(p, pro, bs, cs, false, rules);
    RulesFrame(pro, bs, cs, rules, req);
    ProgramRefinesClauses(p, pro, bs, cs, false, req);
    DecisionIsUnique(p, req, allow, FirstMatch(cs, false, req));
  }

  lemma DecisionIsUnique(p: Program, req: Request, a: bool, b: bool)
    requires Decides(p, req, a) && Decides(p, req, b)
    ensures a == b
  {
    var regs: Regs := [0, 0, 0, 0, 0, 0, 0, 0, 0, 0, 0];
    assert Steps(p, req, 0, Start(0, regs), |p|) == Returned(Verdict(a));
  }

  // What one added rule does to its own device.

  /**
   After a rewrite with one rule, a request that its effect matches is decided by the rule exactly as far
   as no clause before its place decides it: an appended block can be shadowed.
   */
  lemma RuleAppliesUnlessShadowed(p: Program, pro: Program, bs: seq<Program>, cs: seq<Clause>, otherwise: bool,
                                  rule: Rule, req: Request)
    requires Encodes(p, pro, bs, cs, otherwise) && Accepted(rule) && Matches(Effect(rule), req)
    ensures Rewrite(Some(p), [Some(rule)]).Done?
    ensures Decides(Rewrite(Some(p), [Some(rule)]).value, req,
                    FirstMatch(cs[..Position(pro, bs, rule)], rule.allow, req))
  {
    hide Implements, ValidPrologue, Decides, Position, Block, Rewrite, Matches;
    var i, rules := Position(pro, bs, rule), [Some(rule)];
    RewriteRefines(p, pro, bs, cs, otherwise, rules);
    var bs', cs' := Put(bs, i, Block(rule)), Put(cs, i, Effect(rule));
    assert rules[1..] == [];
    assert EditedClauses(pro, bs, cs, rules) == EditedClauses(pro, bs', cs', []) == cs';
    PutDecides(cs, i, Effect(rule), req);
  }

  lemma PutDecides(cs: seq<Clause>, i: nat, c: Clause, req: Request)
    requires i <= |cs| && Matches(c, req)
    ensures FirstMatch(Put(cs, i, c), false, req) == FirstMatch(cs[..i], c.allow, req)
  {
    hide Matches;
    var rest := if i == |cs| then [] else cs[i + 1..];
    assert Put(cs, i, c) == cs[..i] + ([c] + rest);
    FirstMatchAppends(cs[..i], [c] + rest, false, req);
  }

  /**
   Rules for other concrete devices keep the decision on a request exactly when the program denied by
   default or some clause matches the request. A default-allow program turns every other request from
   allowed to denied, whichever devices the rules are for.
   */
  lemma DefaultAllowIsLost(p: Program, pro: Program, bs: seq<Program>, cs: seq<Clause>, otherwise: bool,
                           rules: seq<Option<Rule>>, req: Request)
    requires Encodes(p, pro, bs, cs, otherwise) && AllAccepted(rules)
    requires forall r :: r in rules && r.Some? ==> Concrete(r.value) && !SameDevice(r.value, req)
    ensures Rewrite(Some(p), rules).Done?
    ensures var q := Rewrite(Some(p), rules).value;
            && ((exists allow :: Decides(p, req, allow) && Decides(q, req, allow)) <==> !otherwise || Covered(cs, req))
            && (otherwise && !Covered(cs, req) ==> Decides(p, req, true) && Decides(q, req, false))
  {
    hide Implements, ValidPrologue, Decides, Rewrite;
    RewriteRefines(p, pro, bs, cs, otherwise, rules);
    RulesFrame(pro, bs, cs, rules, req);
    ProgramRefinesClauses(p, pro, bs, cs, otherwise, req);
    DefaultIsReached(cs, req);
    var q, was, now := Rewrite(Some(p), rules).value, FirstMatch(cs, otherwise, req), FirstMatch(cs, false, req);
    assert Decides(p, req, was) && Decides(q, req, now);
    if allow :| Decides(p, req, allow) && Decides(q, req, allow) {
      DecisionIsUnique(p, req, allow, was);
      DecisionIsUnique(q, req, allow, now);
    }
  }

  predicate Covered(cs: seq<Clause>, req: Request) {
    exists c :: c in cs && Matches(c, req)
  }

  lemma {:induction false} DefaultIsReached(cs: seq<Clause>, req: Request)
    ensures Covered(cs, req) ==> FirstMatch(cs, true, req) == FirstMatch(cs, false, req)
    ensures !Covered(cs, req) ==>
              FirstMatch(cs, true, req) == true && FirstMatch(cs, false, req) == false
    decreases |cs|
  {
    if cs != [] && !Matches(cs[0], req) {
      DefaultIsReached(cs[1..], req);
      assert forall c :: c in cs <==> c == cs[0] || c in cs[1..];
    }
  }
}
