// Two places where `student_code.py` departs from what it evidently means
// to do, each written out as the code stands and shown on a concrete
// knowledge base. The rest of the model uses the corrected behaviour
// (`Engine.InferenceEngine.Derive` and `Engine.KnowledgeBase.RetractHelper`).

module Findings {
  import opened Wrappers
  import opened Logic
  import opened Store

  // ---------------------------------------------------------------------
  // The inference step records the object it built, not the stored one

  /** The inference step as written when its consequence `item` equals the
      stored object `x`. `kb_add` merges the pair into `x`. The object the
      step built is then appended to the back-reference lists of both
      premises, although it never joins a collection. */
  function DeriveMergedAsWritten(s: Store, f: FactId, r: RuleId, x: Ref, item: Item): (t: Store)
    requires f < |s.factObjs| && r < |s.ruleObjs| && IsObj(s, x)
    ensures t.facts == s.facts && t.rules == s.rules
    ensures |t.factObjs| + |t.ruleObjs| == |s.factObjs| + |s.ruleObjs| + 1
  {
    var m := Merge(s, x, item);
    var built := NextRef(m, item);
    var withBuilt :=
      if item.FactItem? then m.(factObjs := m.factObjs + [NewFact(item)])
      else m.(ruleObjs := m.ruleObjs + [NewRule(item)]);
    AddDependent(AddDependent(withBuilt, FactRef(f), built), RuleRef(r), built)
  }

  /** After the rules P(?x) => Q(?x) and S(?x) => Q(?x) and the fact P(a)
      are asserted: P(a) is fact 0, the derived Q(a) fact 1 and, asserted
      next, S(a) fact 2. */
  function MergeScenario(): Store {
    var a := Constant("a");
    var x := Variable("x");
    Store(
      [FactObj(Unary("P", a), true, [], [1], []),
       FactObj(Unary("Q", a), false, [Support(0, 0)], [], []),
       FactObj(Unary("S", a), true, [], [], [])],
      [RuleObj([Unary("P", x)], Unary("Q", x), true, [], [1], []),
       RuleObj([Unary("S", x)], Unary("Q", x), true, [], [], [])],
      [0, 1, 2],
      [0, 1])
  }

  /** Inferring from S(a) and the rule S(?x) => Q(?x) derives Q(a) again;
      it is merged into the stored Q(a). As written, the new pair [S(a), rule
      1] on Q(a) is not mirrored on S(a), whose back-reference names an object
      outside the knowledge base. Retracting S(a) then visits that copy
      instead of Q(a) (`TransientRemovesStored`). */
  lemma TransientDependent()
    ensures Consistent(MergeScenario())
    ensures var s := MergeScenario();
      var b := map["x" := Constant("a")];
      var item := Consequence(s, 2, 1, b);
      var t := DeriveMergedAsWritten(s, 2, 1, FactRef(1), item);
      Match(s.factObjs[2].statement, s.ruleObjs[1].lhs[0]) == Some(b) &&
      IsStored(s, FactRef(1)) && Represents(s, FactRef(1), item) &&
      Support(2, 1) in SupportedBy(t, FactRef(1)) &&
      Dependents(t, FactRef(2)) == [FactRef(3)] && !IsStored(t, FactRef(3)) &&
      !Linked(t, {})
  {
    var s := MergeScenario();
    ScenarioConsistent(s);
    var b := map["x" := Constant("a")];
    assert MatchTerm(Constant("a"), Variable("x"), map[]) == Some(b);
    assert MatchTerms([Constant("a")], [Variable("x")], map[]) == Some(b);
    var item := Consequence(s, 2, 1, b);
    assert item == FactItem(Unary("Q", Constant("a")), [Support(2, 1)]);
    MergedAsWrittenIs();
    var t := MergedAsWritten();
    assert Dependents(t, FactRef(2)) == [FactRef(3)];
    assert Support(2, 1) in SupportedBy(t, FactRef(1));
    assert !LinkedPair(t, FactRef(1), Support(2, 1));
  }

  /** The knowledge base `TransientDependent` ends in: Q(a) carries both
      pairs, and the copy the step built is fact 3, off the fact list. */
  function MergedAsWritten(): Store {
    var a := Constant("a");
    var x := Variable("x");
    Store(
      [FactObj(Unary("P", a), true, [], [1], []),
       FactObj(Unary("Q", a), false, [Support(0, 0), Support(2, 1)], [], []),
       FactObj(Unary("S", a), true, [], [3], []),
       FactObj(Unary("Q", a), false, [Support(2, 1)], [], [])],
      [RuleObj([Unary("P", x)], Unary("Q", x), true, [], [1], []),
       RuleObj([Unary("S", x)], Unary("Q", x), true, [], [3], [])],
      [0, 1, 2],
      [0, 1])
  }

  lemma MergedAsWrittenIs()
    ensures var item := FactItem(Unary("Q", Constant("a")), [Support(2, 1)]);
      DeriveMergedAsWritten(MergeScenario(), 2, 1, FactRef(1), item) == MergedAsWritten()
  {
    var s := MergeScenario();
    var item := FactItem(Unary("Q", Constant("a")), [Support(2, 1)]);
    var m := Merge(s, FactRef(1), item);
    assert m.factObjs[1].supportedBy == [Support(0, 0), Support(2, 1)];
    var w := m.(factObjs := m.factObjs + [NewFact(item)]);
    var t := DeriveMergedAsWritten(s, 2, 1, FactRef(1), item);
    assert t == AddDependent(AddDependent(w, FactRef(2), FactRef(3)), RuleRef(1), FactRef(3));
    var want := MergedAsWritten();
    assert |t.factObjs| == 4 && |t.ruleObjs| == 2;
    assert t.factObjs[0] == want.factObjs[0] && t.factObjs[1] == want.factObjs[1];
    assert t.factObjs[2] == want.factObjs[2] && t.factObjs[3] == want.factObjs[3];
    assert t.ruleObjs[0] == want.ruleObjs[0] && t.ruleObjs[1] == want.ruleObjs[1];
  }

  /** Retracting S(a) from that knowledge base, as written: the sweep visits
      the copy, drops its only pair and, finding it unjustified, retracts
      it. Removing the copy from the fact list by `==` removes the stored
      Q(a) instead. Q(a) is still justified by [P(a), rule 0], whose fact and
      rule stay stored, and it keeps the stale pair [S(a), rule 1]. */
  lemma TransientRemovesStored()
    ensures var t := MergedAsWritten();
      var u := SetSupportedBy(t, FactRef(3), Without(SupportedBy(t, FactRef(3)), {FactRef(2)}));
      Dependents(u, FactRef(2)) == [FactRef(3)] && !IsStored(u, FactRef(3)) &&
      SupportedBy(u, FactRef(3)) == [] && Dependents(u, FactRef(3)) == [] &&
      (forall j :: j in Collection(u, FactRef(3)) ==> IsObj(u, Like(FactRef(3), j))) &&
      RemoveFromCollection(u, FactRef(3)) == Some([0, 2]) &&
      SupportedBy(u, FactRef(1)) == [Support(0, 0), Support(2, 1)] &&
      IsStored(u, FactRef(0)) && IsStored(u, RuleRef(0))
  {
    var t := MergedAsWritten();
    var u := SetSupportedBy(t, FactRef(3), Without(SupportedBy(t, FactRef(3)), {FactRef(2)}));
    assert SupportedBy(u, FactRef(3)) == [];
    assert u.factObjs[0].statement.pred[0] == 'P';
    assert !SameAs(u, FactRef(3), FactRef(0)) && SameAs(u, FactRef(3), FactRef(1));
    assert FirstEqual(u, FactRef(3), u.facts) == 1;
    assert u.facts[..1] + u.facts[2..] == [0, 2];
  }

  lemma ScenarioConsistent(s: Store)
    requires s == MergeScenario()
    ensures Consistent(s)
  {
    ScenarioStructure(s);
    ScenarioLinked(s);
    ScenarioDerived(s);
  }

  /** The only pair, [P(a), rule 0] on Q(a), records a real inference step. */
  lemma ScenarioDerived(s: Store)
    requires s == MergeScenario()
    ensures Derived(s)
  {
    ScenarioPairs(s);
    var b := map["x" := Constant("a")];
    assert MatchTerm(Constant("a"), Variable("x"), map[]) == Some(b);
    assert MatchTerms([Constant("a")], [Variable("x")], map[]) == Some(b);
    assert Match(s.factObjs[0].statement, s.ruleObjs[0].lhs[0]) == Some(b);
    var q := Instantiate(s.ruleObjs[0].rhs, b);
    assert q.terms[0] == Constant("a");
    assert q == s.factObjs[1].statement;
    assert Derives(s, FactRef(1), Support(0, 0));
  }

  lemma ScenarioObjects(s: Store)
    requires s == MergeScenario()
    ensures forall x :: IsObj(s, x) ==> IsStored(s, x)
    ensures forall x :: IsObj(s, x) && x != FactRef(1) ==> SupportedBy(s, x) == []
    ensures SupportedBy(s, FactRef(1)) == [Support(0, 0)]
    ensures Dependents(s, FactRef(0)) == [FactRef(1)] && Dependents(s, RuleRef(0)) == [FactRef(1)]
    ensures forall x :: IsObj(s, x) && x != FactRef(0) && x != RuleRef(0) ==> Dependents(s, x) == []
  {
    forall x | IsObj(s, x) ensures IsStored(s, x) {
      if x.FactRef? { assert x.id in {0, 1, 2}; } else { assert x.id in {0, 1}; }
    }
  }

  lemma ScenarioStructure(s: Store)
    requires s == MergeScenario()
    ensures Structure(s)
  {
    ScenarioObjects(s);
    ScenarioUnique(s);
    forall x, y | IsObj(s, x) && y in Dependents(s, x) ensures IsObj(s, y) {
    }
    assert ListsInRange(s) && PremisesPresent(s);
  }

  lemma ScenarioUnique(s: Store)
    requires s == MergeScenario()
    ensures Unique(s)
  {
    var p, q, r := s.factObjs[0].statement, s.factObjs[1].statement, s.factObjs[2].statement;
    assert p.pred[0] == 'P' && q.pred[0] == 'Q' && r.pred[0] == 'S';
    assert s.ruleObjs[0].lhs[0].pred[0] == 'P' && s.ruleObjs[1].lhs[0].pred[0] == 'S';
  }

  lemma ScenarioLinked(s: Store)
    requires s == MergeScenario()
    ensures Linked(s, {}) && Grounded(s) && Justified(s)
  {
    ScenarioObjects(s);
    ScenarioPairs(s);
  }

  /** Q(a)'s only pair, [P(a), rule 0], is the only pair of the scenario. */
  lemma ScenarioPairs(s: Store)
    requires s == MergeScenario()
    ensures forall x, p :: IsObj(s, x) && p in SupportedBy(s, x) ==> x == FactRef(1) && p == Support(0, 0)
  {
    ScenarioObjects(s);
  }

  // ---------------------------------------------------------------------
  // Retraction recurses into a dependent that is already gone

  /** The object with id `j` of the same kind as `x`. */
  function Like(x: Ref, j: nat): Ref {
    if x.FactRef? then FactRef(j) else RuleRef(j)
  }

  /** The collection that holds objects of `x`'s kind. */
  function Collection(s: Store, x: Ref): seq<nat> {
    if x.FactRef? then s.facts else s.rules
  }

  /** Python's `==` on Fact and Rule objects: equal statements for facts,
      equal sides for rules; never between a fact and a rule. */
  predicate SameAs(s: Store, x: Ref, y: Ref)
    requires IsObj(s, x) && IsObj(s, y)
  {
    match x
    case FactRef(i) => y.FactRef? && s.factObjs[i].statement == s.factObjs[y.id].statement
    case RuleRef(i) =>
      y.RuleRef? && s.ruleObjs[i].lhs == s.ruleObjs[y.id].lhs && s.ruleObjs[i].rhs == s.ruleObjs[y.id].rhs
  }

  /** The position of the first id in `ids` whose object is `==` to `x`, or
      `|ids|` when there is none. */
  function FirstEqual(s: Store, x: Ref, ids: seq<nat>): (k: nat)
    requires IsObj(s, x) && forall j :: j in ids ==> IsObj(s, Like(x, j))
    ensures k <= |ids|
    ensures forall m :: 0 <= m < k ==> !SameAs(s, x, Like(x, ids[m]))
    ensures k < |ids| ==> SameAs(s, x, Like(x, ids[k]))
  {
    if ids == [] then 0
    else if SameAs(s, x, Like(x, ids[0])) then 0
    else
      var k := FirstEqual(s, x, ids[1..]);
      assert forall m :: 1 <= m < k + 1 ==> ids[m] == ids[1..][m - 1];
      k + 1
  }

  /** The last step of retracting an unjustified object, as written:
      `self.facts.remove(x)` or `self.rules.remove(x)`. Python's
      `list.remove` drops the first listed object `==` to `x`, which need not
      be `x` itself, and raises `ValueError` (`None`) when no listed object
      is `==` to `x`. */
  function RemoveFromCollection(s: Store, x: Ref): (r: Option<seq<nat>>)
    requires IsObj(s, x) && forall j :: j in Collection(s, x) ==> IsObj(s, Like(x, j))
    ensures r.None? <==> forall j :: j in Collection(s, x) ==> !SameAs(s, x, Like(x, j))
    ensures r.Some? ==> var ids := Collection(s, x);
      exists k :: 0 <= k < |ids| && SameAs(s, x, Like(x, ids[k])) &&
        (forall m :: 0 <= m < k ==> !SameAs(s, x, Like(x, ids[m]))) &&
        r.value == ids[..k] + ids[k + 1..]
  {
    var ids := Collection(s, x);
    var k := FirstEqual(s, x, ids);
    if k == |ids| then None else Some(ids[..k] + ids[k + 1..])
  }

  /** The guard under which retraction, as written, recurses into a visited
      dependent: its justification list is empty, whether or not it is
      still stored. */
  predicate RecursesAsWritten(s: Store, d: Ref)
    requires IsObj(s, d)
  {
    SupportedBy(s, d) == []
  }

  /** After asserting the rule P(?x) & S(?x) => Q(?x), then P(a), then S(a),
      and retracting S(a). P(a) is fact 0. The derived rule S(a) => Q(a) is
      rule 1, and S(a) is fact 1. The fact Q(a), derived from S(a) and rule
      1, is fact 2; it was deleted with S(a) but is still recorded on
      rule 1. */
  function StaleScenario(): Store {
    var a := Constant("a");
    var x := Variable("x");
    Store(
      [FactObj(Unary("P", a), true, [], [], [1]),
       FactObj(Unary("S", a), true, [], [2], []),
       FactObj(Unary("Q", a), false, [], [], [])],
      [RuleObj([Unary("P", x), Unary("S", x)], Unary("Q", x), true, [], [], [1]),
       RuleObj([Unary("S", a)], Unary("Q", a), false, [Support(0, 0)], [2], [])],
      [0],
      [0, 1])
  }

  lemma StaleObjects(s: Store)
    requires s == StaleScenario()
    ensures forall x :: IsStored(s, x) <==> x in {FactRef(0), RuleRef(0), RuleRef(1)}
    ensures forall x :: IsObj(s, x) && x != RuleRef(1) ==> SupportedBy(s, x) == []
    ensures SupportedBy(s, RuleRef(1)) == [Support(0, 0)]
    ensures Dependents(s, FactRef(0)) == [RuleRef(1)] && Dependents(s, RuleRef(0)) == [RuleRef(1)]
    ensures Dependents(s, FactRef(1)) == [FactRef(2)] && Dependents(s, RuleRef(1)) == [FactRef(2)]
    ensures Dependents(s, FactRef(2)) == []
    ensures forall x :: IsObj(s, x) <==> x in {FactRef(0), FactRef(1), FactRef(2), RuleRef(0), RuleRef(1)}
  {
    forall x | IsObj(s, x) && x != RuleRef(1) ensures SupportedBy(s, x) == [] {
      if x.FactRef? { assert x.id in {0, 1, 2}; } else { assert x.id == 0; }
    }
  }

  lemma StaleStructure(s: Store)
    requires s == StaleScenario()
    ensures Structure(s)
  {
    StaleObjects(s);
    StaleUnique(s);
    forall x, y | IsObj(s, x) && y in Dependents(s, x) ensures IsObj(s, y) {
    }
    assert ListsInRange(s) && PremisesPresent(s);
  }

  lemma StaleUnique(s: Store)
    requires s == StaleScenario()
    ensures Unique(s)
  {
    assert s.ruleObjs[0].lhs[0].pred[0] == 'P' && s.ruleObjs[1].lhs[0].pred[0] == 'S';
  }

  lemma StaleLinked(s: Store)
    requires s == StaleScenario()
    ensures Linked(s, {}) && Grounded(s) && Justified(s)
  {
    StaleObjects(s);
    forall x, p | IsObj(s, x) && p in SupportedBy(s, x)
      ensures LinkedPair(s, x, p) && IsStored(s, FactRef(p.fact)) && IsStored(s, RuleRef(p.rule))
    {
      assert x == RuleRef(1) && p == Support(0, 0);
    }
  }

  /** The only pair, [P(a), rule 0] on rule 1, records a real inference
      step: rule 1 is rule 0 with its first premise discharged by P(a). */
  lemma StaleDerived(s: Store)
    requires s == StaleScenario()
    ensures Derived(s)
  {
    StaleObjects(s);
    var b := map["x" := Constant("a")];
    assert MatchTerm(Constant("a"), Variable("x"), map[]) == Some(b);
    assert MatchTerms([Constant("a")], [Variable("x")], map[]) == Some(b);
    assert Match(s.factObjs[0].statement, s.ruleObjs[0].lhs[0]) == Some(b);
    var rest := InstantiateAll(s.ruleObjs[0].lhs[1..], b);
    assert rest[0] == Instantiate(Unary("S", Variable("x")), b);
    assert rest[0].terms[0] == Constant("a");
    assert rest[0] == Unary("S", Constant("a"));
    assert rest == s.ruleObjs[1].lhs;
    var q := Instantiate(s.ruleObjs[0].rhs, b);
    assert q.terms[0] == Constant("a");
    assert q == s.ruleObjs[1].rhs;
    assert Derives(s, RuleRef(1), Support(0, 0));
  }

  /** Retracting P(a) from that consistent knowledge base: the sweep drops
      rule 1's only pair and retracts rule 1. Rule 1's sweep visits Q(a),
      whose justification list is already empty, so the guard as written
      recurses into it. That retraction then removes Q(a) from a fact list
      that does not hold it. */
  lemma StaleDependentRaises()
    ensures Consistent(StaleScenario())
    ensures var s := StaleScenario();
      var u := SetSupportedBy(s, RuleRef(1), Without(SupportedBy(s, RuleRef(1)), {FactRef(0)}));
      Dependents(s, FactRef(0)) == [RuleRef(1)] &&
      IsStored(u, RuleRef(1)) && SupportedBy(u, RuleRef(1)) == [] &&
      Dependents(u, RuleRef(1)) == [FactRef(2)] &&
      RecursesAsWritten(u, FactRef(2)) && !IsStored(u, FactRef(2)) &&
      Dependents(u, FactRef(2)) == [] &&
      RemoveFromCollection(u, FactRef(2)) == None
  {
    var s := StaleScenario();
    StaleStructure(s);
    StaleLinked(s);
    StaleDerived(s);
    StaleObjects(s);
    var u := SetSupportedBy(s, RuleRef(1), Without(SupportedBy(s, RuleRef(1)), {FactRef(0)}));
    assert Dependents(u, RuleRef(1)) == [FactRef(2)];
    assert Dependents(u, FactRef(2)) == [];
  }
}
