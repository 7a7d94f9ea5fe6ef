// Properties of adding to a knowledge base: which invariants appending a new
// object, merging into a stored one and recording back-references keep, and
// why the effect of an inference step survives every later addition.

module Growth {
  import opened Wrappers
  import opened Logic
  import opened Store

  lemma GrowsTrans(s: Store, t: Store, u: Store)
    requires Grows(s, t) && Grows(t, u)
    ensures Grows(s, u)
  {
    assert s.facts <= u.facts && s.rules <= u.rules;
  }

  /** Everything an addition leaves in place: objects, what is stored, their
      justifications and back-references, as far as membership goes. */
  lemma GrowsView(s: Store, t: Store, x: Ref)
    requires Grows(s, t) && IsObj(s, x)
    ensures IsObj(t, x)
    ensures IsStored(s, x) ==> IsStored(t, x)
    ensures forall p :: p in SupportedBy(s, x) ==> p in SupportedBy(t, x)
    ensures forall y :: y in Dependents(s, x) ==> y in Dependents(t, x)
    ensures Asserted(s, x) ==> Asserted(t, x)
    ensures forall item :: Represents(s, x, item) ==> Represents(t, x, item)
  {
    match x
    case FactRef(i) =>
      assert s.facts <= t.facts;
      assert s.factObjs[i].supportedBy <= t.factObjs[i].supportedBy;
      assert s.factObjs[i].supportsFacts <= t.factObjs[i].supportsFacts;
      assert s.factObjs[i].supportsRules <= t.factObjs[i].supportsRules;
    case RuleRef(i) =>
      assert s.rules <= t.rules;
      assert s.ruleObjs[i].supportedBy <= t.ruleObjs[i].supportedBy;
      assert s.ruleObjs[i].supportsFacts <= t.ruleObjs[i].supportsFacts;
      assert s.ruleObjs[i].supportsRules <= t.ruleObjs[i].supportsRules;
  }

  /** Once an inference step has taken effect, every later addition keeps it
      in effect. */
  lemma FiredPersists(s: Store, t: Store, f: FactId, r: RuleId)
    requires Grows(s, t) && f < |s.factObjs| && r < |s.ruleObjs| && |s.ruleObjs[r].lhs| > 0
    requires Fired(s, f, r)
    ensures Fired(t, f, r)
  {
    match Match(s.factObjs[f].statement, s.ruleObjs[r].lhs[0])
    case None =>
    case Some(b) =>
      var d :| IsStored(s, d) && Represents(s, d, Consequence(s, f, r, b)) &&
        Support(f, r) in SupportedBy(s, d) &&
        d in Dependents(s, FactRef(f)) && d in Dependents(s, RuleRef(r));
      GrowsView(s, t, d);
      GrowsView(s, t, FactRef(f));
      GrowsView(s, t, RuleRef(r));
      assert Consequence(t, f, r, b) == Consequence(s, f, r, b);
  }

  /** No two stored objects represent the same item. */
  lemma StoredUnique(s: Store, x: Ref, y: Ref, item: Item)
    requires Structure(s) && IsStored(s, x) && IsStored(s, y)
    requires Represents(s, x, item) && Represents(s, y, item)
    ensures x == y
  {
  }

  // ---------------------------------------------------------------------
  // Invariants every addition keeps, given what is new

  /** Back-references: old pairs stay mirrored, new pairs must be exempt. */
  lemma GrowsLinked(s: Store, t: Store, exempt: set<(Ref, Support)>, e: set<(Ref, Support)>)
    requires Grows(s, t) && Linked(s, exempt) && exempt <= e
    requires forall x, p :: IsObj(t, x) && p in SupportedBy(t, x) && !(IsObj(s, x) && p in SupportedBy(s, x)) ==>
      (x, p) in e
    ensures Linked(t, e)
  {
    forall x, p | IsObj(t, x) && p in SupportedBy(t, x) ensures (x, p) in e || LinkedPair(t, x, p) {
      if IsObj(s, x) && p in SupportedBy(s, x) && (x, p) !in e {
        assert LinkedPair(s, x, p);
        GrowsView(s, t, FactRef(p.fact));
        GrowsView(s, t, RuleRef(p.rule));
      }
    }
  }

  /** Justifications of stored objects name stored objects: old ones by
      growth, new ones by hypothesis. */
  lemma GrowsGrounded(s: Store, t: Store)
    requires Grows(s, t) && InRange(s) && Grounded(s)
    requires forall x, p :: (IsObj(t, x) && IsStored(t, x) && p in SupportedBy(t, x) &&
      !(IsObj(s, x) && IsStored(s, x) && p in SupportedBy(s, x))) ==>
      IsStored(t, FactRef(p.fact)) && IsStored(t, RuleRef(p.rule))
    ensures Grounded(t)
  {
    forall x, p | IsObj(t, x) && IsStored(t, x) && p in SupportedBy(t, x)
      ensures IsStored(t, FactRef(p.fact)) && IsStored(t, RuleRef(p.rule))
    {
      if IsObj(s, x) && IsStored(s, x) && p in SupportedBy(s, x) {
        assert IsStored(s, FactRef(p.fact)) && IsStored(s, RuleRef(p.rule));
        GrowsView(s, t, FactRef(p.fact));
        GrowsView(s, t, RuleRef(p.rule));
      }
    }
  }

  /** Stored objects stay asserted or derived: old ones by growth, new ones by
      hypothesis. */
  lemma GrowsJustified(s: Store, t: Store)
    requires Grows(s, t) && Justified(s)
    requires forall x :: IsObj(t, x) && IsStored(t, x) && !(IsObj(s, x) && IsStored(s, x)) ==>
      Asserted(t, x) || SupportedBy(t, x) != []
    ensures Justified(t)
  {
    forall x | IsObj(t, x) && IsStored(t, x) ensures Asserted(t, x) || SupportedBy(t, x) != [] {
      if IsObj(s, x) && IsStored(s, x) {
        GrowsView(s, t, x);
        if !Asserted(s, x) {
          assert SupportedBy(s, x)[0] in SupportedBy(t, x);
        }
      }
    }
  }

  /** A recorded inference step reads the same after an addition. */
  lemma DerivesGrows(s: Store, t: Store, x: Ref, p: Support)
    requires Grows(s, t) && IsObj(s, x) && Derives(s, x, p)
    ensures Derives(t, x, p)
  {
    var b := Match(s.factObjs[p.fact].statement, s.ruleObjs[p.rule].lhs[0]).value;
    assert t.factObjs[p.fact].statement == s.factObjs[p.fact].statement;
    assert t.ruleObjs[p.rule].lhs == s.ruleObjs[p.rule].lhs && t.ruleObjs[p.rule].rhs == s.ruleObjs[p.rule].rhs;
    assert Consequence(t, p.fact, p.rule, b) == Consequence(s, p.fact, p.rule, b);
    GrowsView(s, t, x);
  }

  /** A pair that records the step yielding `item` records the step yielding
      the object that represents it. */
  lemma DerivesNew(s: Store, t: Store, x: Ref, item: Item, p: Support)
    requires Grows(s, t) && DerivesItem(s, item, p) && Represents(t, x, item)
    ensures Derives(t, x, p)
  {
    var b := Match(s.factObjs[p.fact].statement, s.ruleObjs[p.rule].lhs[0]).value;
    assert t.factObjs[p.fact].statement == s.factObjs[p.fact].statement;
    assert t.ruleObjs[p.rule].lhs == s.ruleObjs[p.rule].lhs && t.ruleObjs[p.rule].rhs == s.ruleObjs[p.rule].rhs;
    assert Consequence(t, p.fact, p.rule, b) == Consequence(s, p.fact, p.rule, b);
  }

  /** Every pair records a real inference step: old ones by growth, new ones
      by hypothesis. */
  lemma GrowsDerived(s: Store, t: Store)
    requires Grows(s, t) && Derived(s)
    requires forall x, p :: IsObj(t, x) && p in SupportedBy(t, x) && !(IsObj(s, x) && p in SupportedBy(s, x)) ==>
      Derives(t, x, p)
    ensures Derived(t)
  {
    forall x, p | IsObj(t, x) && p in SupportedBy(t, x) ensures Derives(t, x, p) {
      if IsObj(s, x) && p in SupportedBy(s, x) {
        DerivesGrows(s, t, x, p);
      }
    }
  }

  /** An addition that changes no collection and no statement keeps the
      structure when every new pair and back-reference points into the
      arena. */
  lemma InPlaceStructure(s: Store, t: Store)
    requires Structure(s) && Grows(s, t)
    requires |t.factObjs| == |s.factObjs| && |t.ruleObjs| == |s.ruleObjs| && t.facts == s.facts && t.rules == s.rules
    requires forall x, p :: IsObj(t, x) && p in SupportedBy(t, x) ==> p.fact < |t.factObjs| && p.rule < |t.ruleObjs|
    requires forall x, y :: IsObj(t, x) && y in Dependents(t, x) ==> IsObj(t, y)
    requires forall x :: IsObj(t, x) && !IsStored(t, x) ==> SupportedBy(t, x) == SupportedBy(s, x)
    ensures Structure(t)
  {
    assert forall x :: IsObj(t, x) <==> IsObj(s, x);
    forall r | 0 <= r < |t.ruleObjs| ensures |t.ruleObjs[r].lhs| > 0 {
      assert t.ruleObjs[r].lhs == s.ruleObjs[r].lhs;
    }
    assert InRange(t);
    assert Unique(t);
  }

  // ---------------------------------------------------------------------
  // Appending a new object

  lemma AppendView(s: Store, item: Item, x: Ref)
    requires IsObj(s, x)
    ensures var t := AppendNew(s, item);
      IsObj(t, x) && SupportedBy(t, x) == SupportedBy(s, x) && Dependents(t, x) == Dependents(s, x) &&
      Asserted(t, x) == Asserted(s, x) && (IsStored(t, x) <==> IsStored(s, x))
  {
    var t := AppendNew(s, item);
    match x
    case FactRef(i) => assert t.factObjs[i] == s.factObjs[i];
    case RuleRef(i) => assert t.ruleObjs[i] == s.ruleObjs[i];
  }

  /** Appending adds exactly one object, stored, built from the item. */
  lemma AppendNewShape(s: Store, item: Item)
    ensures var t := AppendNew(s, item); var n := NextRef(s, item);
      IsObj(t, n) && !IsObj(s, n) && IsStored(t, n) && Represents(t, n, item) &&
      SupportedBy(t, n) == item.supportedBy && Dependents(t, n) == [] &&
      Asserted(t, n) == (item.supportedBy == []) &&
      (forall x :: IsObj(t, x) ==> IsObj(s, x) || x == n)
  {
  }

  lemma AppendGrows(s: Store, item: Item)
    ensures Grows(s, AppendNew(s, item))
  {
  }

  lemma AppendStructure(s: Store, item: Item)
    requires Structure(s) && Admissible(s, item) && Absent(s, item)
    ensures Structure(AppendNew(s, item))
  {
    AppendInRange(s, item);
    AppendUnique(s, item);
    AppendCleared(s, item);
  }

  lemma AppendInRange(s: Store, item: Item)
    requires InRange(s) && Admissible(s, item)
    ensures InRange(AppendNew(s, item))
  {
    var t := AppendNew(s, item);
    var n := NextRef(s, item);
    AppendNewShape(s, item);
    assert ListsInRange(t);
    assert PremisesPresent(t) by {
      forall r | 0 <= r < |t.ruleObjs| ensures |t.ruleObjs[r].lhs| > 0 {
        if r < |s.ruleObjs| { assert t.ruleObjs[r] == s.ruleObjs[r]; }
      }
    }
    assert PairsInRange(t) by {
      forall x, p | IsObj(t, x) && p in SupportedBy(t, x) ensures p.fact < |t.factObjs| && p.rule < |t.ruleObjs| {
        if x == n {
          assert IsStored(s, FactRef(p.fact)) && IsStored(s, RuleRef(p.rule));
        } else {
          AppendView(s, item, x);
        }
      }
    }
    assert DependentsInRange(t) by {
      forall x, y | IsObj(t, x) && y in Dependents(t, x) ensures IsObj(t, y) {
        if x != n {
          AppendView(s, item, x);
          assert IsObj(s, y);
        }
      }
    }
  }

  lemma AppendUnique(s: Store, item: Item)
    requires InRange(s) && Unique(s) && Absent(s, item)
    ensures Unique(AppendNew(s, item))
  {
    var t := AppendNew(s, item);
    var n := NextRef(s, item);
    if item.FactItem? {
      assert n.id !in s.facts;
      assert NoDuplicates(t.facts) by {
        forall i, j | 0 <= i < j < |t.facts| ensures t.facts[i] != t.facts[j] {
          if j == |s.facts| {
            assert t.facts[i] in s.facts;
          }
        }
      }
      forall a | a in s.facts ensures t.factObjs[a] == s.factObjs[a] && s.factObjs[a].statement != item.statement {
        assert IsStored(s, FactRef(a)) && !Represents(s, FactRef(a), item);
      }
    } else {
      assert n.id !in s.rules;
      assert NoDuplicates(t.rules) by {
        forall i, j | 0 <= i < j < |t.rules| ensures t.rules[i] != t.rules[j] {
          if j == |s.rules| {
            assert t.rules[i] in s.rules;
          }
        }
      }
      forall a | a in s.rules
        ensures t.ruleObjs[a] == s.ruleObjs[a] && (s.ruleObjs[a].lhs != item.lhs || s.ruleObjs[a].rhs != item.rhs)
      {
        assert IsStored(s, RuleRef(a)) && !Represents(s, RuleRef(a), item);
      }
    }
  }

  lemma AppendCleared(s: Store, item: Item)
    requires Cleared(s)
    ensures Cleared(AppendNew(s, item))
  {
    var t := AppendNew(s, item);
    AppendNewShape(s, item);
    forall x | IsObj(t, x) && !IsStored(t, x) ensures SupportedBy(t, x) == [] {
      if IsObj(s, x) { AppendView(s, item, x); }
    }
  }

  /** Appending an item no stored object represents keeps the invariant; the
      new object's own pairs wait for their back-references. */
  lemma AppendKeeps(s: Store, item: Item, exempt: set<(Ref, Support)>)
    requires Coherent(s, exempt) && Admissible(s, item) && Absent(s, item)
    ensures Coherent(AppendNew(s, item), exempt + Pending(NextRef(s, item), item.supportedBy))
    ensures Grows(s, AppendNew(s, item))
  {
    var t := AppendNew(s, item);
    var n := NextRef(s, item);
    AppendNewShape(s, item);
    AppendGrows(s, item);
    AppendStructure(s, item);
    forall x | IsObj(s, x)
      ensures IsObj(t, x) && SupportedBy(t, x) == SupportedBy(s, x) && (IsStored(t, x) <==> IsStored(s, x))
    {
      AppendView(s, item, x);
    }
    GrowsLinked(s, t, exempt, exempt + Pending(n, item.supportedBy));
    GrowsGrounded(s, t);
    GrowsJustified(s, t);
    AppendDerived(s, item);
  }

  /** The new object's pairs record the steps that yield it. */
  lemma AppendDerived(s: Store, item: Item)
    requires Derived(s) && Admissible(s, item)
    ensures Derived(AppendNew(s, item))
  {
    var t := AppendNew(s, item);
    var n := NextRef(s, item);
    AppendNewShape(s, item);
    AppendGrows(s, item);
    forall x, p | IsObj(t, x) && p in SupportedBy(t, x) && !(IsObj(s, x) && p in SupportedBy(s, x))
      ensures Derives(t, x, p)
    {
      if x != n {
        AppendView(s, item, x);
      }
      DerivesNew(s, t, n, item, p);
    }
    GrowsDerived(s, t);
  }

  // ---------------------------------------------------------------------
  // Merging into a stored object

  lemma MergeView(s: Store, x: Ref, item: Item, y: Ref)
    requires IsObj(s, x) && IsObj(s, y)
    ensures var t := Merge(s, x, item);
      IsObj(t, y) && Dependents(t, y) == Dependents(s, y) && (IsStored(t, y) <==> IsStored(s, y)) &&
      (y != x ==> SupportedBy(t, y) == SupportedBy(s, y)) &&
      (y == x ==> SupportedBy(t, y) == (if item.supportedBy == [] then SupportedBy(s, y) else SupportedBy(s, y) + item.supportedBy))
  {
  }

  lemma MergeGrows(s: Store, x: Ref, item: Item)
    requires IsObj(s, x)
    ensures Grows(s, Merge(s, x, item))
  {
  }

  lemma MergeStructure(s: Store, x: Ref, item: Item)
    requires Structure(s) && Admissible(s, item) && IsStored(s, x)
    ensures Structure(Merge(s, x, item))
  {
    var t := Merge(s, x, item);
    MergeGrows(s, x, item);
    forall y | IsObj(t, y)
      ensures IsObj(s, y) && Dependents(t, y) == Dependents(s, y) && (IsStored(t, y) <==> IsStored(s, y))
      ensures y != x ==> SupportedBy(t, y) == SupportedBy(s, y)
      ensures forall p :: p in SupportedBy(t, y) ==> p in SupportedBy(s, y) || (y == x && p in item.supportedBy)
    {
      MergeView(s, x, item, y);
    }
    forall y, p | IsObj(t, y) && p in SupportedBy(t, y) ensures p.fact < |t.factObjs| && p.rule < |t.ruleObjs| {
      if !(p in SupportedBy(s, y)) {
        assert IsStored(s, FactRef(p.fact)) && IsStored(s, RuleRef(p.rule));
      }
    }
    assert |t.factObjs| == |s.factObjs| && |t.ruleObjs| == |s.ruleObjs| && t.facts == s.facts && t.rules == s.rules;
    forall y, z | IsObj(t, y) && z in Dependents(t, y) ensures IsObj(t, z) {
      assert z in Dependents(s, y);
      assert IsObj(s, z);
    }
    assert forall y :: IsObj(t, y) && !IsStored(t, y) ==> SupportedBy(t, y) == SupportedBy(s, y);
    InPlaceStructure(s, t);
  }

  /** Merging never adds an entry to a collection: an unjustified item
      marks the stored object asserted (and doing so again changes nothing),
      a justified one appends all of its pairs to the stored object's. */
  lemma MergeInPlace(s: Store, x: Ref, item: Item)
    requires IsStored(s, x) && IsObj(s, x)
    ensures var t := Merge(s, x, item);
      t.facts == s.facts && t.rules == s.rules &&
      |t.factObjs| == |s.factObjs| && |t.ruleObjs| == |s.ruleObjs| &&
      (item.supportedBy == [] ==> Asserted(t, x) && SupportedBy(t, x) == SupportedBy(s, x) && Merge(t, x, item) == t) &&
      (item.supportedBy != [] ==> Asserted(t, x) == Asserted(s, x) && SupportedBy(t, x) == SupportedBy(s, x) + item.supportedBy)
  {
  }

  lemma MergeKeeps(s: Store, x: Ref, item: Item, exempt: set<(Ref, Support)>)
    requires Coherent(s, exempt) && Admissible(s, item) && IsStored(s, x) && Represents(s, x, item)
    ensures Coherent(Merge(s, x, item), exempt + Pending(x, item.supportedBy))
    ensures Grows(s, Merge(s, x, item))
  {
    var t := Merge(s, x, item);
    forall y | IsObj(s, y)
      ensures IsObj(t, y) && Dependents(t, y) == Dependents(s, y) && (IsStored(t, y) <==> IsStored(s, y))
      ensures forall p :: p in SupportedBy(t, y) ==> p in SupportedBy(s, y) || (y == x && p in item.supportedBy)
      ensures !IsStored(s, y) ==> SupportedBy(t, y) == SupportedBy(s, y)
    {
      MergeView(s, x, item, y);
    }
    assert forall y :: IsObj(t, y) ==> IsObj(s, y);
    MergeGrows(s, x, item);
    MergeStructure(s, x, item);
    GrowsLinked(s, t, exempt, exempt + Pending(x, item.supportedBy));
    GrowsGrounded(s, t);
    GrowsJustified(s, t);
    MergeDerived(s, x, item);
  }

  /** The merged pairs record the steps that yield the stored object. */
  lemma MergeDerived(s: Store, x: Ref, item: Item)
    requires Derived(s) && Admissible(s, item) && IsObj(s, x) && Represents(s, x, item)
    ensures Derived(Merge(s, x, item))
  {
    var t := Merge(s, x, item);
    MergeGrows(s, x, item);
    GrowsView(s, t, x);
    forall y, p | IsObj(t, y) && p in SupportedBy(t, y) && !(IsObj(s, y) && p in SupportedBy(s, y))
      ensures Derives(t, y, p)
    {
      MergeView(s, x, item, y);
      DerivesNew(s, t, x, item, p);
    }
    GrowsDerived(s, t);
  }

  // ---------------------------------------------------------------------
  // Recording the back-references of an inference step

  lemma AddDependentView(s: Store, x: Ref, d: Ref, y: Ref)
    requires IsObj(s, x) && IsObj(s, y)
    ensures IsObj(AddDependent(s, x, d), y)
    ensures SupportedBy(AddDependent(s, x, d), y) == SupportedBy(s, y)
    ensures IsStored(AddDependent(s, x, d), y) == IsStored(s, y)
    ensures y != x ==> Dependents(AddDependent(s, x, d), y) == Dependents(s, y)
    ensures forall z :: z in Dependents(AddDependent(s, x, d), x) <==> z in Dependents(s, x) || z == d
  {
  }

  /** Recording a dependent changes no justification, storage or arena
      size, and adds only `d` to the dependents of `x`. */
  lemma AddDependentFrame(s: Store, x: Ref, d: Ref)
    requires IsObj(s, x)
    ensures var t := AddDependent(s, x, d);
      Grows(s, t) && |t.factObjs| == |s.factObjs| && |t.ruleObjs| == |s.ruleObjs| &&
      t.facts == s.facts && t.rules == s.rules && d in Dependents(t, x) &&
      (forall y :: IsObj(t, y) <==> IsObj(s, y)) &&
      (forall y :: IsObj(s, y) ==> SupportedBy(t, y) == SupportedBy(s, y)) &&
      (forall y, z :: IsObj(s, y) && z in Dependents(t, y) ==> z in Dependents(s, y) || z == d)
  {
    var t := AddDependent(s, x, d);
    forall y | IsObj(s, y)
      ensures SupportedBy(t, y) == SupportedBy(s, y)
      ensures forall z :: z in Dependents(t, y) ==> z in Dependents(s, y) || z == d
    {
      AddDependentView(s, x, d, y);
    }
  }

  /** A recorded dependent that is itself an object keeps every
      back-reference inside the arena. */
  lemma AddDependentClosed(s: Store, x: Ref, d: Ref)
    requires DependentsInRange(s) && IsObj(s, x) && IsObj(s, d)
    ensures DependentsInRange(AddDependent(s, x, d))
  {
    var t := AddDependent(s, x, d);
    AddDependentFrame(s, x, d);
    forall y, z | IsObj(t, y) && z in Dependents(t, y) ensures IsObj(t, z) {
      assert IsObj(s, y);
      assert z in Dependents(s, y) || z == d;
      assert IsObj(s, z);
    }
  }

  /** Recording a dependent is an in-place update that keeps every
      reference inside the arena and touches no justification. */
  lemma AddDependentInPlace(s: Store, x: Ref, d: Ref)
    requires Structure(s) && IsObj(s, x) && IsObj(s, d)
    ensures var t := AddDependent(s, x, d);
      Grows(s, t) &&
      |t.factObjs| == |s.factObjs| && |t.ruleObjs| == |s.ruleObjs| && t.facts == s.facts && t.rules == s.rules &&
      (forall y, p :: IsObj(t, y) && p in SupportedBy(t, y) ==> p.fact < |t.factObjs| && p.rule < |t.ruleObjs|) &&
      (forall y, z :: IsObj(t, y) && z in Dependents(t, y) ==> IsObj(t, z)) &&
      (forall y :: IsObj(t, y) && !IsStored(t, y) ==> SupportedBy(t, y) == SupportedBy(s, y))
  {
    AddDependentClosed(s, x, d);
    AddDependentFrame(s, x, d);
  }

  lemma AddDependentStructure(s: Store, x: Ref, d: Ref)
    requires Structure(s) && IsObj(s, x) && IsObj(s, d)
    ensures Structure(AddDependent(s, x, d))
  {
    AddDependentInPlace(s, x, d);
    InPlaceStructure(s, AddDependent(s, x, d));
  }

  /** Recording `d` as a dependent of `x` keeps the invariant with the same
      exemptions, and is an addition. */
  lemma AddDependentKeeps(s: Store, x: Ref, d: Ref, exempt: set<(Ref, Support)>)
    requires Coherent(s, exempt) && IsObj(s, x) && IsObj(s, d)
    ensures var t := AddDependent(s, x, d);
      Coherent(t, exempt) && Grows(s, t) && d in Dependents(t, x)
  {
    var t := AddDependent(s, x, d);
    AddDependentStructure(s, x, d);
    AddDependentFrame(s, x, d);
    GrowsLinked(s, t, exempt, exempt);
    GrowsGrounded(s, t);
    GrowsJustified(s, t);
    AddDependentDerived(s, x, d);
  }

  lemma AddDependentDerived(s: Store, x: Ref, d: Ref)
    requires Derived(s) && IsObj(s, x)
    ensures Derived(AddDependent(s, x, d))
  {
    AddDependentFrame(s, x, d);
    GrowsDerived(s, AddDependent(s, x, d));
  }

  /** Once the pair `p` of `d` is mirrored by back-references, it no longer
      needs its exemption. */
  lemma Discharge(t: Store, exempt: set<(Ref, Support)>, d: Ref, p: Support)
    requires Coherent(t, exempt + {(d, p)}) && LinkedPair(t, d, p)
    ensures Coherent(t, exempt)
  {
    forall y, q | IsObj(t, y) && q in SupportedBy(t, y) ensures (y, q) in exempt || LinkedPair(t, y, q) {
      assert (y, q) in exempt + {(d, p)} || LinkedPair(t, y, q);
    }
  }

  /** After the inference step for `f` and `r` has added `d` with the pair
      `[f, r]`, recording `d` on both premises settles that pair's
      exemption. */
  lemma RecordKeeps(s: Store, f: FactId, r: RuleId, d: Ref, exempt: set<(Ref, Support)>)
    requires Coherent(s, exempt + Pending(d, [Support(f, r)]))
    requires IsObj(s, d) && f < |s.factObjs| && r < |s.ruleObjs|
    ensures var t := AddDependent(AddDependent(s, FactRef(f), d), RuleRef(r), d);
      Coherent(t, exempt) && Grows(s, t) &&
      d in Dependents(t, FactRef(f)) && d in Dependents(t, RuleRef(r))
  {
    var e := exempt + {(d, Support(f, r))};
    assert Pending(d, [Support(f, r)]) == {(d, Support(f, r))};
    var u := AddDependent(s, FactRef(f), d);
    AddDependentKeeps(s, FactRef(f), d, e);
    var t := AddDependent(u, RuleRef(r), d);
    AddDependentKeeps(u, RuleRef(r), d, e);
    AddDependentView(u, RuleRef(r), d, FactRef(f));
    GrowsTrans(s, u, t);
    Discharge(t, exempt, d, Support(f, r));
  }

  // ---------------------------------------------------------------------
  // Which objects an addition asserts

  /** Two additions in a row assert what each of them asserts. */
  lemma AssertedOnlyTrans(s: Store, t: Store, u: Store, a: set<Ref>, b: set<Ref>)
    requires Grows(s, t) && AssertedOnly(s, t, a) && AssertedOnly(t, u, b)
    ensures AssertedOnly(s, u, a + b)
  {
    forall y | IsObj(u, y) && y !in a + b ensures Asserted(u, y) <==> IsObj(s, y) && Asserted(s, y) {
      if IsObj(s, y) {
        GrowsView(s, t, y);
      }
    }
  }

  /** Appending asserts the new object exactly when it comes without
      justification, and nothing else. */
  lemma AppendAsserted(s: Store, item: Item)
    ensures AssertedOnly(s, AppendNew(s, item), if item.supportedBy == [] then {NextRef(s, item)} else {})
    ensures Asserted(AppendNew(s, item), NextRef(s, item)) <==> item.supportedBy == []
  {
    var t := AppendNew(s, item);
    AppendNewShape(s, item);
    forall y | IsObj(s, y) ensures Asserted(t, y) == Asserted(s, y) {
      AppendView(s, item, y);
    }
  }

  /** Merging asserts the stored object when the item comes without
      justification, and nothing else. */
  lemma MergeAsserted(s: Store, x: Ref, item: Item)
    requires IsObj(s, x)
    ensures AssertedOnly(s, Merge(s, x, item), if item.supportedBy == [] then {x} else {})
  {
  }

  /** Recording back-references asserts nothing. */
  lemma RecordAsserted(s: Store, f: FactId, r: RuleId, d: Ref)
    requires f < |s.factObjs| && r < |s.ruleObjs|
    ensures AssertedOnly(s, AddDependent(AddDependent(s, FactRef(f), d), RuleRef(r), d), {})
  {
  }

  // ---------------------------------------------------------------------
  // The inference loops of a new fact and of a new rule

  /** After `i` rounds of the inference loop of fact `f`, started in `s1`:
      the first `i` stored rules have each had their step with `f`. */
  ghost predicate FactSweep(s1: Store, s: Store, e: set<(Ref, Support)>, f: FactId, i: int) {
    Coherent(s, e) && Grows(s1, s) && f < |s.factObjs| && 0 <= i <= |s.rules| &&
    forall k :: 0 <= k < i ==> s.rules[k] in s.rules && Fired(s, f, s.rules[k])
  }

  /** After `i` rounds of the inference loop of rule `r`, started in `s1`:
      the first `i` stored facts have each had their step with `r`. */
  ghost predicate RuleSweep(s1: Store, s: Store, e: set<(Ref, Support)>, r: RuleId, i: int) {
    Coherent(s, e) && Grows(s1, s) && r < |s.ruleObjs| && 0 <= i <= |s.facts| &&
    forall k :: 0 <= k < i ==> s.facts[k] in s.facts && Fired(s, s.facts[k], r)
  }

  lemma FactSweepStep(s1: Store, s: Store, t: Store, e: set<(Ref, Support)>, f: FactId, i: int)
    requires FactSweep(s1, s, e, f, i) && i < |s.rules|
    requires Coherent(t, e) && Grows(s, t)
    requires s.rules[i] in s.rules && Fired(t, f, s.rules[i])
    ensures FactSweep(s1, t, e, f, i + 1)
  {
    GrowsTrans(s1, s, t);
    assert s.rules <= t.rules;
    forall k | 0 <= k < i + 1 ensures t.rules[k] in t.rules && Fired(t, f, t.rules[k]) {
      assert t.rules[k] == s.rules[k];
      if k < i {
        FiredPersists(s, t, f, s.rules[k]);
      }
    }
  }

  lemma RuleSweepStep(s1: Store, s: Store, t: Store, e: set<(Ref, Support)>, r: RuleId, i: int)
    requires RuleSweep(s1, s, e, r, i) && i < |s.facts|
    requires Coherent(t, e) && Grows(s, t)
    requires s.facts[i] in s.facts && Fired(t, s.facts[i], r)
    ensures RuleSweep(s1, t, e, r, i + 1)
  {
    GrowsTrans(s1, s, t);
    assert s.facts <= t.facts;
    forall k | 0 <= k < i + 1 ensures t.facts[k] in t.facts && Fired(t, t.facts[k], r) {
      assert t.facts[k] == s.facts[k];
      if k < i {
        FiredPersists(s, t, s.facts[k], r);
      }
    }
  }

  /** A loop that has been through every stored rule leaves `f` saturated. */
  lemma FactSweepDone(s1: Store, s: Store, e: set<(Ref, Support)>, f: FactId)
    requires FactSweep(s1, s, e, f, |s.rules|)
    ensures Saturated(s, FactRef(f))
  {
    forall r | r in s.rules ensures Fired(s, f, r) {
      var k :| 0 <= k < |s.rules| && s.rules[k] == r;
    }
  }

  /** A loop that has been through every stored fact leaves `r` saturated. */
  lemma RuleSweepDone(s1: Store, s: Store, e: set<(Ref, Support)>, r: RuleId)
    requires RuleSweep(s1, s, e, r, |s.facts|)
    ensures Saturated(s, RuleRef(r))
  {
    forall f | f in s.facts ensures Fired(s, f, r) {
      var k :| 0 <= k < |s.facts| && s.facts[k] == f;
    }
  }

  // ---------------------------------------------------------------------
  // Closure under forward chaining

  /** An addition that stores no new fact or rule leaves every step that
      had taken effect in effect. */
  lemma ClosedGrows(s: Store, t: Store, todo: set<(FactId, RuleId)>)
    requires InRange(s) && InRange(t) && Grows(s, t) && t.facts == s.facts && t.rules == s.rules
    requires ClosedExcept(s, todo)
    ensures ClosedExcept(t, todo)
  {
    forall f, r | f in t.facts && r in t.rules && (f, r) !in todo ensures Fired(t, f, r) {
      FiredPersists(s, t, f, r);
    }
  }

  /** An addition that stores no new fact or rule keeps a saturated object
      saturated. */
  lemma SaturatedGrows(s: Store, t: Store, x: Ref)
    requires InRange(s) && InRange(t) && Grows(s, t) && t.facts == s.facts && t.rules == s.rules
    requires IsObj(s, x) && Saturated(s, x)
    ensures IsObj(t, x) && Saturated(t, x)
  {
    GrowsView(s, t, x);
    match x
    case FactRef(f) =>
      forall r | r in t.rules ensures Fired(t, f, r) {
        FiredPersists(s, t, f, r);
      }
    case RuleRef(r) =>
      forall f | f in t.facts ensures Fired(t, f, r) {
        FiredPersists(s, t, f, r);
      }
  }

  /** Appending a new object leaves open only its own steps: with every rule
      for a fact, with every fact for a rule. */
  lemma AppendClosed(s: Store, item: Item, todo: set<(FactId, RuleId)>)
    requires InRange(s) && InRange(AppendNew(s, item)) && ClosedExcept(s, todo)
    ensures var t := AppendNew(s, item);
      ClosedExcept(t, todo + if item.FactItem? then StepsOfFact(|s.factObjs|, t.rules)
                             else StepsOfRule(t.facts, |s.ruleObjs|))
  {
    var t := AppendNew(s, item);
    var newSteps := if item.FactItem? then StepsOfFact(|s.factObjs|, t.rules) else StepsOfRule(t.facts, |s.ruleObjs|);
    AppendGrows(s, item);
    forall f, r | f in t.facts && r in t.rules && (f, r) !in todo + newSteps ensures Fired(t, f, r) {
      assert f in s.facts && r in s.rules;
      FiredPersists(s, t, f, r);
    }
  }

  /** Recording a dependent keeps every step that had taken effect in
      effect. */
  lemma RecordClosed(s: Store, f: FactId, r: RuleId, d: Ref, exempt: set<(Ref, Support)>, todo: set<(FactId, RuleId)>)
    requires Coherent(s, exempt + Pending(d, [Support(f, r)]))
    requires IsObj(s, d) && f < |s.factObjs| && r < |s.ruleObjs| && ClosedExcept(s, todo)
    ensures var t := AddDependent(AddDependent(s, FactRef(f), d), RuleRef(r), d);
      InRange(t) && ClosedExcept(t, todo)
  {
    RecordKeeps(s, f, r, d, exempt);
    ClosedGrows(s, AddDependent(AddDependent(s, FactRef(f), d), RuleRef(r), d), todo);
  }

  /** The state of the inference loop of fact `f`, started in `s1`, after
      `i` rounds with `budget` steps left: the sweep so far, nothing newly
      asserted, and, when only the steps of `f` and those in `todo` were open
      at the start (`open`) and the budget lasts, only the steps of `f` with
      the rules from the `i`-th on and those in `todo` still open. */
  ghost predicate FactLoop(s1: Store, s: Store, e: set<(Ref, Support)>, f: FactId, i: int,
                           todo: set<(FactId, RuleId)>, open: bool, budget: nat) {
    FactSweep(s1, s, e, f, i) && AssertedOnly(s1, s, {}) &&
    (open && budget > 0 ==> ClosedExcept(s, todo + StepsOfFact(f, s.rules[i..])))
  }

  /** The same for the inference loop of rule `r`. */
  ghost predicate RuleLoop(s1: Store, s: Store, e: set<(Ref, Support)>, r: RuleId, i: int,
                           todo: set<(FactId, RuleId)>, open: bool, budget: nat) {
    RuleSweep(s1, s, e, r, i) && AssertedOnly(s1, s, {}) &&
    (open && budget > 0 ==> ClosedExcept(s, todo + StepsOfRule(s.facts[i..], r)))
  }

  /** One round of the inference loop of fact `f`, taking `s` to `t`: once
      the step with `s.rules[i]` has taken effect, only the steps with the
      rules after it are left open. */
  lemma FactStepClosed(s: Store, t: Store, todo: set<(FactId, RuleId)>, f: FactId, i: nat)
    requires InRange(t) && Grows(s, t) && i < |s.rules| && f < |t.factObjs| && s.rules[i] < |t.ruleObjs|
    requires ClosedExcept(t, todo + StepsOfFact(f, s.rules[i..])) && Fired(t, f, s.rules[i])
    ensures ClosedExcept(t, todo + StepsOfFact(f, t.rules[i + 1..]))
  {
    assert s.rules <= t.rules;
    forall k | i < k < |s.rules| ensures (f, s.rules[k]) in StepsOfFact(f, t.rules[i + 1..]) {
      assert t.rules[i + 1..][k - i - 1] == s.rules[k];
    }
    forall g, r | g in t.facts && r in t.rules && (g, r) !in todo + StepsOfFact(f, t.rules[i + 1..])
      ensures Fired(t, g, r)
    {
      if (g, r) in StepsOfFact(f, s.rules[i..]) {
        var k :| i <= k < |s.rules| && s.rules[k] == r;
      }
    }
  }

  /** One round of the inference loop of rule `r`, taking `s` to `t`: once
      the step with `s.facts[i]` has taken effect, only the steps with the
      facts after it are left open. */
  lemma RuleStepClosed(s: Store, t: Store, todo: set<(FactId, RuleId)>, r: RuleId, i: nat)
    requires InRange(t) && Grows(s, t) && i < |s.facts| && r < |t.ruleObjs| && s.facts[i] < |t.factObjs|
    requires ClosedExcept(t, todo + StepsOfRule(s.facts[i..], r)) && Fired(t, s.facts[i], r)
    ensures ClosedExcept(t, todo + StepsOfRule(t.facts[i + 1..], r))
  {
    assert s.facts <= t.facts;
    forall k | i < k < |s.facts| ensures (s.facts[k], r) in StepsOfRule(t.facts[i + 1..], r) {
      assert t.facts[i + 1..][k - i - 1] == s.facts[k];
    }
    forall f, q | f in t.facts && q in t.rules && (f, q) !in todo + StepsOfRule(t.facts[i + 1..], r)
      ensures Fired(t, f, q)
    {
      if (f, q) in StepsOfRule(s.facts[i..], r) {
        var k :| i <= k < |s.facts| && s.facts[k] == f;
      }
    }
  }

  /** One inference step of `f` and `r` whose match gave `b`: the consequence
      went into the knowledge base as `d` (taking it from `s` to `s1`), then `d`
      was recorded as a dependent of both premises. The result keeps the
      invariant and the step has taken effect. */
  lemma InferKeeps(s: Store, s1: Store, f: FactId, r: RuleId, b: Bindings, d: Ref, exempt: set<(Ref, Support)>)
    requires Coherent(s, exempt) && IsStored(s, FactRef(f)) && IsStored(s, RuleRef(r))
    requires Match(s.factObjs[f].statement, s.ruleObjs[r].lhs[0]) == Some(b)
    requires Coherent(s1, exempt + Pending(d, [Support(f, r)])) && Grows(s, s1)
    requires IsStored(s1, d) && Represents(s1, d, Consequence(s, f, r, b))
    requires Support(f, r) in SupportedBy(s1, d)
    ensures var t := AddDependent(AddDependent(s1, FactRef(f), d), RuleRef(r), d);
      Coherent(t, exempt) && Grows(s, t) && Fired(t, f, r)
  {
    GrowsView(s, s1, FactRef(f));
    GrowsView(s, s1, RuleRef(r));
    RecordKeeps(s1, f, r, d, exempt);
    var t := AddDependent(AddDependent(s1, FactRef(f), d), RuleRef(r), d);
    GrowsTrans(s, s1, t);
    GrowsView(s1, t, d);
    assert t.factObjs[f].statement == s.factObjs[f].statement;
    assert t.ruleObjs[r].lhs == s.ruleObjs[r].lhs && t.ruleObjs[r].rhs == s.ruleObjs[r].rhs;
    assert Consequence(t, f, r, b) == Consequence(s, f, r, b);
  }

  /** `InferKeeps`, and what the step leaves asserted and in effect: nothing
      newly asserted, and every step outside `todo` that was in effect after
      the consequence went in still in effect. */
  lemma InferRecorded(s: Store, s1: Store, f: FactId, r: RuleId, b: Bindings, d: Ref,
                      exempt: set<(Ref, Support)>, todo: set<(FactId, RuleId)>)
    requires Coherent(s, exempt) && IsStored(s, FactRef(f)) && IsStored(s, RuleRef(r))
    requires Match(s.factObjs[f].statement, s.ruleObjs[r].lhs[0]) == Some(b)
    requires Coherent(s1, exempt + Pending(d, [Support(f, r)])) && Grows(s, s1)
    requires IsStored(s1, d) && Represents(s1, d, Consequence(s, f, r, b))
    requires Support(f, r) in SupportedBy(s1, d) && AssertedOnly(s, s1, {})
    ensures var t := AddDependent(AddDependent(s1, FactRef(f), d), RuleRef(r), d);
      Coherent(t, exempt) && Grows(s, t) && Fired(t, f, r) && AssertedOnly(s, t, {}) &&
      (ClosedExcept(s1, todo) ==> ClosedExcept(t, todo)) &&
      (IsObj(s1, d) && Saturated(s1, d) ==> IsObj(t, d) && Saturated(t, d))
  {
    var t := AddDependent(AddDependent(s1, FactRef(f), d), RuleRef(r), d);
    InferKeeps(s, s1, f, r, b, d, exempt);
    if ClosedExcept(s1, todo) {
      RecordClosed(s1, f, r, d, exempt, todo);
    }
    if IsObj(s1, d) && Saturated(s1, d) {
      RecordKeeps(s1, f, r, d, exempt);
      SaturatedGrows(s1, t, d);
    }
    RecordAsserted(s1, f, r, d);
    AssertedOnlyTrans(s, s1, t, {}, {});
  }
}
