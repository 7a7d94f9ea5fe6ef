// What forward chaining can have derived. Every justification pair records
// a real inference step (`Store.Derived`), and each step removes one premise
// from a rule, so a stored rule never has more premises than the asserted
// rule it descends from, and a fact is derived only through a one-premise
// rule whose remaining premise some stored fact matched.

module Chaining {
  import opened Wrappers
  import opened Logic
  import opened Store

  /** One more than the most premises any rule object has. */
  function PremiseBound(objs: seq<RuleObj>): (n: nat)
    ensures forall i :: 0 <= i < |objs| ==> |objs[i].lhs| < n
  {
    if objs == [] then 0
    else
      var rest := PremiseBound(objs[1..]);
      assert forall i :: 1 <= i < |objs| ==> objs[i] == objs[1..][i - 1];
      if |objs[0].lhs| < rest then rest else |objs[0].lhs| + 1
  }

  /** A derived rule has one premise fewer than the rule whose step derived
      it, and its premises are the later premises of that rule instantiated
      with the bindings of the step. */
  lemma DerivedRule(s: Store, r: RuleId, p: Support)
    requires r < |s.ruleObjs| && Derives(s, RuleRef(r), p)
    ensures |s.ruleObjs[p.rule].lhs| == |s.ruleObjs[r].lhs| + 1
    ensures var b := Match(s.factObjs[p.fact].statement, s.ruleObjs[p.rule].lhs[0]).value;
      s.ruleObjs[r].lhs == InstantiateAll(s.ruleObjs[p.rule].lhs[1..], b) &&
      s.ruleObjs[r].rhs == Instantiate(s.ruleObjs[p.rule].rhs, b)
  {
  }

  /** A derived fact comes from a one-premise rule: the fact of its pair
      matches that premise, and its statement is the rule's conclusion
      instantiated. */
  lemma DerivedFact(s: Store, i: FactId, p: Support)
    requires i < |s.factObjs| && Derives(s, FactRef(i), p)
    ensures |s.ruleObjs[p.rule].lhs| == 1
    ensures Match(s.factObjs[p.fact].statement, s.ruleObjs[p.rule].lhs[0]).Some?
    ensures var b := Match(s.factObjs[p.fact].statement, s.ruleObjs[p.rule].lhs[0]).value;
      s.factObjs[i].statement == Instantiate(s.ruleObjs[p.rule].rhs, b)
  {
  }

  /** Every stored rule that is not asserted names, in its first pair, a
      stored rule with one premise more. */
  lemma DerivedRulesDescend(s: Store)
    requires Consistent(s)
    ensures forall r :: r in s.rules && !s.ruleObjs[r].asserted ==>
      SupportedBy(s, RuleRef(r)) != [] && SupportedBy(s, RuleRef(r))[0].rule in s.rules &&
      |s.ruleObjs[SupportedBy(s, RuleRef(r))[0].rule].lhs| == |s.ruleObjs[r].lhs| + 1
  {
    forall r | r in s.rules && !s.ruleObjs[r].asserted
      ensures SupportedBy(s, RuleRef(r)) != [] && SupportedBy(s, RuleRef(r))[0].rule in s.rules &&
        |s.ruleObjs[SupportedBy(s, RuleRef(r))[0].rule].lhs| == |s.ruleObjs[r].lhs| + 1
    {
      assert IsObj(s, RuleRef(r)) && IsStored(s, RuleRef(r));
      var p := SupportedBy(s, RuleRef(r))[0];
      assert IsStored(s, RuleRef(p.rule));
      DerivedRule(s, r, p);
    }
  }

  /** By descent from `bound`: when every asserted stored rule has fewer
      than `m` premises, so has every stored rule. */
  lemma {:induction false} RulesBelow(s: Store, m: nat, bound: nat)
    requires Consistent(s)
    requires forall r :: r in s.rules && s.ruleObjs[r].asserted ==> |s.ruleObjs[r].lhs| < m
    requires forall r :: r in s.rules ==> |s.ruleObjs[r].lhs| < bound
    requires m <= bound
    ensures forall r :: r in s.rules ==> |s.ruleObjs[r].lhs| < m
    decreases bound - m
  {
    if m < bound {
      RulesBelow(s, m + 1, bound);
      DerivedRulesDescend(s);
    }
  }

  /** No stored rule has more premises than the longest asserted one: every
      derived rule descends, one premise at a time, from an asserted rule. */
  lemma RulesBounded(s: Store, m: nat)
    requires Consistent(s)
    requires forall r :: r in s.rules && s.ruleObjs[r].asserted ==> |s.ruleObjs[r].lhs| < m
    ensures forall r :: r in s.rules ==> |s.ruleObjs[r].lhs| < m
  {
    var n := PremiseBound(s.ruleObjs);
    RulesBelow(s, m, if n < m then m else n);
  }

  /** Without an asserted rule nothing is derived: no rule is stored, and
      every stored fact is asserted. */
  lemma NothingWithoutRules(s: Store)
    requires Consistent(s)
    requires forall r :: r in s.rules ==> !s.ruleObjs[r].asserted
    ensures forall r :: r !in s.rules
    ensures forall i :: i in s.facts ==> s.factObjs[i].asserted
  {
    forall i | i in s.facts && !s.factObjs[i].asserted
      ensures SupportedBy(s, FactRef(i)) != [] && SupportedBy(s, FactRef(i))[0].rule in s.rules
    {
      assert IsObj(s, FactRef(i)) && IsStored(s, FactRef(i));
      assert IsStored(s, RuleRef(SupportedBy(s, FactRef(i))[0].rule));
    }
    RulesBounded(s, 1);
  }

  // ---------------------------------------------------------------------
  // A conjunction is chained one premise at a time

  /** The rule P(?x) & R(?x) => Q(?x), as asserted. */
  function Conjunction(): Item {
    RuleItem([Unary("P", Variable("x")), Unary("R", Variable("x"))], Unary("Q", Variable("x")), [])
  }

  /** After the rule P(?x) & R(?x) => Q(?x) and then the fact P(a) are
      asserted into an empty knowledge base, with the step for P(a) and the
      rule taken: the one-premise rule R(a) => Q(a) is stored, and P(a) is the
      only stored fact, so there is no Q(a) fact before R(a) is asserted. */
  lemma FirstPremiseOnly(t: Store, xr: Ref, xf: Ref)
    requires Consistent(t) && AssertedOnly(Store([], [], [], []), t, {xr, xf})
    requires IsStored(t, xr) && Represents(t, xr, Conjunction())
    requires IsStored(t, xf) && Represents(t, xf, FactItem(Unary("P", Constant("a")), []))
    requires Fired(t, xf.id, xr.id)
    ensures exists d :: (IsStored(t, d) &&
      Represents(t, d, RuleItem([Unary("R", Constant("a"))], Unary("Q", Constant("a")), [])))
    ensures forall i :: i in t.facts ==> t.factObjs[i].statement == Unary("P", Constant("a"))
  {
    StoredFactsAsserted(t, xr, xf);
    var b := map["x" := Constant("a")];
    assert MatchTerm(Constant("a"), Variable("x"), map[]) == Some(b);
    assert MatchTerms([Constant("a")], [Variable("x")], map[]) == Some(b);
    assert Match(t.factObjs[xf.id].statement, t.ruleObjs[xr.id].lhs[0]) == Some(b);
    var c := Consequence(t, xf.id, xr.id, b);
    var rest := InstantiateAll([Unary("R", Variable("x"))], b);
    assert rest[0] == Instantiate(Unary("R", Variable("x")), b);
    assert rest[0].terms[0] == Constant("a");
    assert rest[0] == Unary("R", Constant("a"));
    assert rest == [Unary("R", Constant("a"))];
    assert c.rhs.terms[0] == Constant("a");
    assert c == RuleItem([Unary("R", Constant("a"))], Unary("Q", Constant("a")), [Support(xf.id, xr.id)]);
  }

  /** In the knowledge base of `FirstPremiseOnly`, every stored fact is
      asserted: a derived fact would need a stored fact matching the premise
      R(...) that the only asserted rule leaves to its one-premise
      descendants, and no stored fact has predicate R. */
  lemma StoredFactsAsserted(t: Store, xr: Ref, xf: Ref)
    requires Consistent(t) && AssertedOnly(Store([], [], [], []), t, {xr, xf})
    requires IsStored(t, xr) && Represents(t, xr, Conjunction())
    requires IsStored(t, xf) && Represents(t, xf, FactItem(Unary("P", Constant("a")), []))
    ensures forall i :: i in t.facts ==> t.factObjs[i].asserted && FactRef(i) == xf
  {
    forall r | r in t.rules && t.ruleObjs[r].asserted ensures RuleRef(r) == xr {
      assert IsObj(t, RuleRef(r)) && Asserted(t, RuleRef(r));
    }
    forall i | i in t.facts && t.factObjs[i].asserted ensures FactRef(i) == xf {
      assert IsObj(t, FactRef(i)) && Asserted(t, FactRef(i));
    }
    RulesBounded(t, 3);
    DerivedRulesDescend(t);
    assert forall r :: r in t.rules && |t.ruleObjs[r].lhs| == 2 ==> RuleRef(r) == xr;
    forall r | r in t.rules && |t.ruleObjs[r].lhs| == 1
      ensures t.ruleObjs[r].lhs[0].pred == "R" && t.ruleObjs[r].rhs.pred == "Q"
    {
      var p := SupportedBy(t, RuleRef(r))[0];
      assert IsObj(t, RuleRef(r)) && p in SupportedBy(t, RuleRef(r));
      DerivedRule(t, r, p);
    }
    forall i | i in t.facts && !t.factObjs[i].asserted
      ensures SupportedBy(t, FactRef(i)) != [] && SupportedBy(t, FactRef(i))[0].fact in t.facts &&
        t.factObjs[SupportedBy(t, FactRef(i))[0].fact].statement.pred == "R" &&
        t.factObjs[i].statement.pred == "Q"
    {
      assert IsObj(t, FactRef(i)) && IsStored(t, FactRef(i));
      var p := SupportedBy(t, FactRef(i))[0];
      assert IsStored(t, FactRef(p.fact)) && IsStored(t, RuleRef(p.rule));
      DerivedFact(t, i, p);
    }
    assert "R"[0] != "Q"[0] && "R"[0] != "P"[0];
    forall i | i in t.facts ensures t.factObjs[i].statement.pred != "R" {
      if t.factObjs[i].asserted {
        assert t.factObjs[i].statement == Unary("P", Constant("a"));
      }
    }
  }

  /** In a knowledge base closed under forward chaining that stores the rule
      P(?x) & R(?x) => Q(?x) and the facts P(a) and R(a), the fact Q(a) is
      stored, whichever order they came in: the step of P(a) with the rule
      stores R(a) => Q(a), and the step of R(a) with that rule stores Q(a). */
  lemma ConjunctionConcludes(t: Store, xr: RuleId, xp: FactId, xq: FactId)
    requires InRange(t) && Closed(t)
    requires IsStored(t, RuleRef(xr)) && Represents(t, RuleRef(xr), Conjunction())
    requires IsStored(t, FactRef(xp)) && Represents(t, FactRef(xp), FactItem(Unary("P", Constant("a")), []))
    requires IsStored(t, FactRef(xq)) && Represents(t, FactRef(xq), FactItem(Unary("R", Constant("a")), []))
    ensures exists i :: i in t.facts && t.factObjs[i].statement == Unary("Q", Constant("a"))
  {
    var b := map["x" := Constant("a")];
    assert MatchTerm(Constant("a"), Variable("x"), map[]) == Some(b);
    assert MatchTerms([Constant("a")], [Variable("x")], map[]) == Some(b);
    assert Match(t.factObjs[xp].statement, t.ruleObjs[xr].lhs[0]) == Some(b);
    var rest := InstantiateAll([Unary("R", Variable("x"))], b);
    assert rest[0] == Instantiate(Unary("R", Variable("x")), b);
    assert rest[0].terms[0] == Constant("a");
    assert rest[0] == Unary("R", Constant("a"));
    assert rest == [Unary("R", Constant("a"))];
    var half := Consequence(t, xp, xr, b);
    assert half.rhs.terms[0] == Constant("a");
    assert half == RuleItem([Unary("R", Constant("a"))], Unary("Q", Constant("a")), [Support(xp, xr)]);
    assert Fired(t, xp, xr);
    var d :| IsStored(t, d) && Represents(t, d, half);
    var none: Bindings := map[];
    assert MatchTerm(Constant("a"), Constant("a"), none) == Some(none);
    assert MatchTerms([Constant("a")], [Constant("a")], none) == Some(none);
    assert Match(t.factObjs[xq].statement, t.ruleObjs[d.id].lhs[0]) == Some(none);
    assert IsGround(Unary("Q", Constant("a")));
    assert Consequence(t, xq, d.id, none) == FactItem(Unary("Q", Constant("a")), [Support(xq, d.id)]);
    assert Fired(t, xq, d.id);
    var q :| IsStored(t, q) && Represents(t, q, Consequence(t, xq, d.id, none));
    assert q.id in t.facts;
  }
}
