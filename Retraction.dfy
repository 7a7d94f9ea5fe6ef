// The retraction sweep as data: the state after each visit of a dependent,
// what one visit and one recursive deletion do to it, and what the finished
// sweep amounts to.

module Retraction {
  import opened Store
  import opened Erasure

  /** `t` is `s` after a retraction started at `x` that deleted the objects
      in `gone`: an arena of the same size (the back-references themselves
      are `SameBackRefs`, where the sweep needs them), the invariants that
      need no grounding, exactly the objects in `gone` taken off their
      collections, each of them falling with `x` (`FallsWith`: in every set
      that holds `x` and is closed under collapse) and left without
      justification, every pair naming no deleted object kept, no object
      gaining a justification, and no surviving object that had a
      justification losing all of them. */
  ghost predicate Retracted(s: Store, x: Ref, gone: set<Ref>, t: Store) {
    |t.factObjs| == |s.factObjs| && |t.ruleObjs| == |s.ruleObjs| &&
    Structure(t) && Linked(t, {}) &&
    |t.facts| + |t.rules| <= |s.facts| + |s.rules| &&
    (forall y :: IsStored(t, y) <==> IsStored(s, y) && y !in gone) &&
    (forall y :: y in gone ==> IsStored(s, y) && IsObj(s, y) && SupportedBy(t, y) == []) &&
    AllFall(s, x, gone) &&
    (forall d, p :: IsObj(s, d) && p in SupportedBy(s, d) && !Mentions(p, gone) ==> p in SupportedBy(t, d)) &&
    (forall d :: IsObj(s, d) && SupportedBy(s, d) == [] ==> SupportedBy(t, d) == []) &&
    (forall d :: IsObj(s, d) && IsStored(t, d) && SupportedBy(s, d) != [] ==> SupportedBy(t, d) != [])
  }

  /** The retraction sweep of the unjustified stored object `x` of `s`, after
      visiting the first `i` of its dependents `deps` and deleting `gone` by
      the recursive retractions so far, all falling with `x`. The state
      itself is `Erase(Detach(s, x, deps[..i]), gone)`, kept
      apart from this predicate (see `VisitState`). */
  ghost predicate Sweep(s: Store, x: Ref, deps: seq<Ref>, i: int, gone: set<Ref>, t: Store) {
    Structure(s) && Linked(s, {}) && IsStored(s, x) && IsObj(s, x) && SupportedBy(s, x) == [] &&
    deps == Dependents(s, x) && 0 <= i <= |deps| &&
    |t.factObjs| == |s.factObjs| && |t.ruleObjs| == |s.ruleObjs| &&
    Structure(t) && Linked(t, {}) &&
    |t.facts| + |t.rules| < |s.facts| + |s.rules| &&
    (forall y :: IsStored(t, y) <==> IsStored(s, y) && y != x && y !in gone) &&
    (forall y :: y in gone ==> IsStored(s, y) && IsObj(s, y) && SupportedBy(t, y) == []) &&
    AllFall(s, x, gone) &&
    (forall d :: IsObj(s, d) && IsStored(t, d) && SupportedBy(s, d) != [] ==> SupportedBy(t, d) != [])
  }

  /** Two states whose objects carry the same back-reference lists. */
  ghost predicate SameBackRefs(s: Store, u: Store) {
    |u.factObjs| == |s.factObjs| && |u.ruleObjs| == |s.ruleObjs| &&
    (forall i :: 0 <= i < |s.factObjs| ==>
      u.factObjs[i].supportsFacts == s.factObjs[i].supportsFacts &&
      u.factObjs[i].supportsRules == s.factObjs[i].supportsRules) &&
    (forall i :: 0 <= i < |s.ruleObjs| ==>
      u.ruleObjs[i].supportsFacts == s.ruleObjs[i].supportsFacts &&
      u.ruleObjs[i].supportsRules == s.ruleObjs[i].supportsRules)
  }

  /** A sweep state keeps every pair of `s` that names neither `x` nor a
      deleted object. */
  lemma SweepPairs(s: Store, x: Ref, done: seq<Ref>, gone: set<Ref>)
    ensures forall v, p :: IsObj(s, v) && p in SupportedBy(s, v) && !Mentions(p, {x} + gone) ==>
      p in SupportedBy(Erase(Detach(s, x, done), gone), v)
  {
    forall v, p | IsObj(s, v) && p in SupportedBy(s, v) && !Mentions(p, {x} + gone)
      ensures p in SupportedBy(Erase(Detach(s, x, done), gone), v)
    {
      var t := Detach(s, x, done);
      assert IsObj(t, v) && p in SupportedBy(t, v);
      SupportedByAfterErase(t, gone, v);
    }
  }

  /** What the recursive retraction of the dependent `d` of `x` deletes,
      started in the state `u` that deleting `x` and `gone` and dropping
      their pairs reached, falls with `x` when all of `gone` does: `d` has no
      justification left in `u`, so each it had named `x` or an object of
      `gone`, and `u` has lost no pair but those. */
  lemma FallsStep(s: Store, u: Store, x: Ref, gone: set<Ref>, d: Ref, y: Ref)
    requires IsObj(s, x) && d in Dependents(s, x) && IsObj(s, d) && SameBackRefs(s, u)
    requires forall v, p :: IsObj(s, v) && p in SupportedBy(s, v) && !Mentions(p, {x} + gone) ==>
      p in SupportedBy(u, v)
    requires forall v :: IsStored(u, v) ==> IsStored(s, v)
    requires IsStored(u, d) && SupportedBy(u, d) == []
    requires AllFall(s, x, gone)
    requires FallsWith(u, d, y)
    ensures FallsWith(s, x, y)
  {
    forall p | p in SupportedBy(s, d) ensures Mentions(p, {x} + gone) {
    }
    forall c | x in c && CollapseClosed(s, c) ensures y in c {
      assert forall v :: v in gone ==> v in c;
      assert Orphaned(s, d, c);
      assert CollapseClosed(u, c) by {
        forall z, v | z in c && IsObj(u, z) && v in Dependents(u, z) && IsObj(u, v) && IsStored(u, v) && Orphaned(u, v, c)
          ensures v in c
        {
          assert SupportsFacts(u, z) == SupportsFacts(s, z) && SupportsRules(u, z) == SupportsRules(s, z);
          assert Dependents(u, z) == Dependents(s, z);
          forall p | p in SupportedBy(s, v) ensures Mentions(p, c) {
            if !Mentions(p, {x} + gone) {
              assert p in SupportedBy(u, v);
            }
          }
          assert Orphaned(s, v, c);
        }
      }
    }
  }

  /** What the recursive retraction of the dependent `deps[i]` deleted falls
      with `x`. */
  lemma ReturnFalls(s: Store, x: Ref, deps: seq<Ref>, i: int, gone: set<Ref>, g: set<Ref>, v: Store)
    requires IsObj(s, x) && deps == Dependents(s, x) && 0 <= i < |deps| && IsObj(s, deps[i])
    requires AllFall(s, x, gone)
    requires var t := Erase(Detach(s, x, deps[..i]), gone);
      IsObj(t, deps[i]) &&
      var u := SetSupportedBy(t, deps[i], Without(SupportedBy(t, deps[i]), {x}));
      IsStored(u, deps[i]) && SupportedBy(u, deps[i]) == [] && Retracted(u, deps[i], g, v)
    ensures AllFall(s, x, g)
  {
    var t := Erase(Detach(s, x, deps[..i]), gone);
    var u := SetSupportedBy(t, deps[i], Without(SupportedBy(t, deps[i]), {x}));
    SweepBackRefs(s, x, deps[..i], gone, deps[i], Without(SupportedBy(t, deps[i]), {x}));
    VisitState(s, x, deps, i, gone);
    SweepPairs(s, x, deps[..i + 1], gone);
    forall w | IsStored(u, w) ensures IsStored(s, w) {
      SweepStored(s, x, deps[..i + 1], gone, w);
    }
    forall y | y in g ensures FallsWith(s, x, y) {
      FallsStep(s, u, x, gone, deps[i], y);
    }
  }

  /** Every state the sweep passes through has the back-references of `s`. */
  lemma SweepBackRefs(s: Store, x: Ref, done: seq<Ref>, gone: set<Ref>, d: Ref, sb: seq<Support>)
    requires IsObj(Erase(Detach(s, x, done), gone), d)
    ensures SameBackRefs(s, SetSupportedBy(Erase(Detach(s, x, done), gone), d, sb))
  {
  }

  lemma EmptyWithout(sb: seq<Support>, gone: set<Ref>)
    requires sb == []
    ensures Without(sb, gone) == []
  {
  }

  /** Taking `x` off its collection starts the sweep. */
  lemma SweepBegin(s: Store, x: Ref)
    requires Structure(s) && Linked(s, {}) && IsStored(s, x) && IsObj(s, x) && SupportedBy(s, x) == []
    ensures Sweep(s, x, Dependents(s, x), 0, {}, Unstore(s, x))
    ensures Unstore(s, x) == Erase(Detach(s, x, Dependents(s, x)[..0]), {})
  {
    var t := Unstore(s, x);
    SweepStart(s, x);
    assert Dependents(s, x)[..0] == [];
    UnstoreShrinks(s, x);
    ShrinksKeep(s, t, {});
    forall d | IsObj(s, d) ensures SupportedBy(t, d) == SupportedBy(s, d) {
    }
  }

  /** The state after visiting dependent `deps[i]`, as a deletion. */
  lemma VisitState(s: Store, x: Ref, deps: seq<Ref>, i: int, gone: set<Ref>)
    requires 0 <= i < |deps| && IsObj(s, deps[i])
    ensures IsObj(Erase(Detach(s, x, deps[..i]), gone), deps[i])
    ensures var t := Erase(Detach(s, x, deps[..i]), gone);
      SetSupportedBy(t, deps[i], Without(SupportedBy(t, deps[i]), {x})) == Erase(Detach(s, x, deps[..i + 1]), gone)
  {
    assert deps[..i] + [deps[i]] == deps[..i + 1];
    DetachStep(s, x, deps[..i], deps[i], gone);
  }

  /** Visiting the next dependent `d`: dropping the pairs naming `x` from it
      keeps the invariants. Unless `d` is stored and left without
      justification, the sweep moves on to the next dependent. */
  lemma SweepVisit(s: Store, x: Ref, deps: seq<Ref>, i: int, gone: set<Ref>, t: Store)
    requires Sweep(s, x, deps, i, gone, t) && i < |deps|
    ensures IsObj(s, deps[i]) && IsObj(t, deps[i])
    ensures var u := SetSupportedBy(t, deps[i], Without(SupportedBy(t, deps[i]), {x}));
      Structure(u) && Linked(u, {}) && u.facts == t.facts && u.rules == t.rules &&
      (!(IsStored(u, deps[i]) && SupportedBy(u, deps[i]) == []) ==> Sweep(s, x, deps, i + 1, gone, u))
  {
    var d := deps[i];
    assert d in Dependents(s, x);
    assert IsObj(s, d);
    var kept := Without(SupportedBy(t, d), {x});
    var u := SetSupportedBy(t, d, kept);
    if !IsStored(t, d) {
      EmptyWithout(SupportedBy(t, d), {x});
    }
    SetSupportedByShrinks(t, d, kept);
    ShrinksKeep(t, u, {});
    forall y ensures IsStored(u, y) == IsStored(t, y) {
    }
    if !(IsStored(u, d) && SupportedBy(u, d) == []) {
      forall y | y in gone ensures SupportedBy(u, y) == [] {
        if y == d {
          EmptyWithout(SupportedBy(t, d), {x});
        }
      }
      forall e | IsObj(s, e) && IsStored(u, e) && SupportedBy(s, e) != [] ensures SupportedBy(u, e) != [] {
        if e != d {
          assert SupportedBy(u, e) == SupportedBy(t, e);
        }
      }
    }
  }

  /** Visiting `d` left it stored and unjustified, and its own retraction
      deleted `g`, taking `u` to `v`: the sweep moves on with `g` deleted. */
  lemma SweepReturn(s: Store, x: Ref, deps: seq<Ref>, i: int, gone: set<Ref>, t: Store,
                    g: set<Ref>, v: Store)
    requires Sweep(s, x, deps, i, gone, t) && i < |deps| && IsObj(t, deps[i])
    requires AllFall(s, x, g)
    requires var u := SetSupportedBy(t, deps[i], Without(SupportedBy(t, deps[i]), {x}));
      IsStored(u, deps[i]) && SupportedBy(u, deps[i]) == [] && deps[i] in g && Retracted(u, deps[i], g, v)
    ensures Sweep(s, x, deps, i + 1, gone + g, v)
  {
    var d := deps[i];
    SweepVisit(s, x, deps, i, gone, t);
    AllFallUnion(s, x, gone, g);
    var u := SetSupportedBy(t, d, Without(SupportedBy(t, d), {x}));
    forall y | y in gone + g ensures IsStored(s, y) && IsObj(s, y) && SupportedBy(v, y) == [] {
      if y in gone {
        assert y != d && SupportedBy(u, y) == [];
      }
    }
    forall e | IsObj(s, e) && IsStored(v, e) && SupportedBy(s, e) != [] ensures SupportedBy(v, e) != [] {
      assert e != d;
      assert SupportedBy(u, e) == SupportedBy(t, e);
    }
  }

  /** One visit as the loop takes it: the state after dropping the pairs
      naming `x` from `deps[i]`, and the sweep one step further unless that
      dependent is left stored and unjustified. */
  lemma VisitAdvance(s: Store, x: Ref, deps: seq<Ref>, i: int, gone: set<Ref>, t: Store)
    requires Sweep(s, x, deps, i, gone, t) && i < |deps| && t == Erase(Detach(s, x, deps[..i]), gone)
    ensures IsObj(t, deps[i])
    ensures var u := SetSupportedBy(t, deps[i], Without(SupportedBy(t, deps[i]), {x}));
      u == Erase(Detach(s, x, deps[..i + 1]), gone) &&
      Structure(u) && Linked(u, {}) && u.facts == t.facts && u.rules == t.rules &&
      (!(IsStored(u, deps[i]) && SupportedBy(u, deps[i]) == []) ==> Sweep(s, x, deps, i + 1, gone, u))
  {
    SweepVisit(s, x, deps, i, gone, t);
    VisitState(s, x, deps, i, gone);
  }

  /** The recursive retraction of `deps[i]`, taking `u` to `v`, as the loop
      takes it: the sweep one step further with `g` deleted. */
  lemma ReturnAdvance(s: Store, x: Ref, deps: seq<Ref>, i: int, gone: set<Ref>, t: Store,
                      g: set<Ref>, v: Store)
    requires Sweep(s, x, deps, i, gone, t) && i < |deps| && t == Erase(Detach(s, x, deps[..i]), gone)
    requires IsObj(t, deps[i])
    requires var u := SetSupportedBy(t, deps[i], Without(SupportedBy(t, deps[i]), {x}));
      IsStored(u, deps[i]) && SupportedBy(u, deps[i]) == [] && deps[i] in g &&
      Retracted(u, deps[i], g, v) && v == Erase(u, g)
    ensures Sweep(s, x, deps, i + 1, gone + g, v) && v == Erase(Detach(s, x, deps[..i + 1]), gone + g)
  {
    VisitState(s, x, deps, i, gone);
    assert deps[i] in Dependents(s, x);
    ReturnFalls(s, x, deps, i, gone, g, v);
    SweepReturn(s, x, deps, i, gone, t, g, v);
    EraseCompose(Detach(s, x, deps[..i + 1]), gone, g);
  }

  /** The state of a sweep that has visited every dependent is the deletion
      of `x` together with everything deleted on the way. */
  lemma EndState(s: Store, x: Ref, deps: seq<Ref>, gone: set<Ref>)
    requires Linked(s, {}) && IsObj(s, x) && deps == Dependents(s, x)
    ensures Erase(Detach(s, x, deps[..|deps|]), gone) == Erase(s, {x} + gone)
  {
    assert deps[..|deps|] == deps;
    DetachAll(s, x);
    EraseCompose(s, {x}, gone);
  }

  /** A sweep that has visited every dependent is a retraction. */
  lemma SweepEnd(s: Store, x: Ref, deps: seq<Ref>, gone: set<Ref>, t: Store)
    requires Sweep(s, x, deps, |deps|, gone, t) && t == Erase(s, {x} + gone)
    ensures Retracted(s, x, {x} + gone, t)
  {
    ErasePairs(s, {x} + gone);
    assert FallsWith(s, x, x);
    AllFallUnion(s, x, {x}, gone);
  }

  /** Deletion keeps every pair that names no deleted object, and gives no
      object a justification it lacked. */
  lemma ErasePairs(s: Store, gone: set<Ref>)
    ensures forall d, p :: IsObj(s, d) && p in SupportedBy(s, d) && !Mentions(p, gone) ==>
      p in SupportedBy(Erase(s, gone), d)
    ensures forall d :: IsObj(s, d) && SupportedBy(s, d) == [] ==> SupportedBy(Erase(s, gone), d) == []
  {
    forall d | IsObj(s, d) ensures SupportedBy(Erase(s, gone), d) == Without(SupportedBy(s, d), gone) {
      SupportedByAfterErase(s, gone, d);
    }
  }

  /** Clearing the assertion of an object deletes nothing. */
  lemma UnassertRetracted(s: Store, x: Ref)
    requires Structure(s) && Linked(s, {}) && IsObj(s, x)
    ensures Retracted(s, x, {}, SetAsserted(s, x, false))
  {
    SetAssertedShrinks(s, x, false);
    ShrinksKeep(s, SetAsserted(s, x, false), {});
  }

  /** A retraction from a consistent knowledge base leaves it consistent. */
  lemma RetractedConsistent(s: Store, x: Ref, gone: set<Ref>, t: Store)
    requires Consistent(s) && Retracted(s, x, gone, t) && t == Erase(s, gone)
    ensures Consistent(t)
  {
    forall y | y in gone ensures IsStored(s, y) && Without(SupportedBy(s, y), gone) == [] {
      SupportedByAfterErase(s, gone, y);
    }
    forall d | IsObj(s, d) && IsStored(s, d) && d !in gone && SupportedBy(s, d) != []
      ensures Without(SupportedBy(s, d), gone) != []
    {
      SupportedByAfterErase(s, gone, d);
    }
    RetractionConsistent(s, gone);
  }

  /** A retraction started at `x` spares what lies outside the dependency
      cone of `x`: a stored object outside it stays stored, and a stored
      object with a justification whose fact and rule both lie outside it
      keeps that justification and stays stored. */
  lemma SparedOutsideCone(s: Store, x: Ref, gone: set<Ref>, t: Store, y: Ref, p: Support)
    requires Retracted(s, x, gone, t) && IsObj(s, y) && IsStored(s, y)
    ensures !InCone(s, x, y) ==> IsStored(t, y)
    ensures p in SupportedBy(s, y) && !InCone(s, x, FactRef(p.fact)) && !InCone(s, x, RuleRef(p.rule)) ==>
      p in SupportedBy(t, y) && IsStored(t, y)
  {
    forall z | z in gone ensures InCone(s, x, z) {
      FallsInCone(s, x, z);
    }
    if p in SupportedBy(s, y) && !InCone(s, x, FactRef(p.fact)) && !InCone(s, x, RuleRef(p.rule)) {
      assert FactRef(p.fact) in gone ==> InCone(s, x, FactRef(p.fact));
      assert RuleRef(p.rule) in gone ==> InCone(s, x, RuleRef(p.rule));
      assert !Mentions(p, gone);
      assert p in SupportedBy(t, y);
      assert y !in gone;
    }
  }

  /** A retraction started at `x` spares every stored object outside a set
      that holds `x` and is closed under collapse. */
  lemma SparedOutsideCollapse(s: Store, x: Ref, gone: set<Ref>, t: Store, c: set<Ref>)
    requires Retracted(s, x, gone, t) && x in c && CollapseClosed(s, c)
    ensures gone <= c
    ensures forall y :: IsStored(s, y) && y !in c ==> IsStored(t, y)
  {
  }

  /** When every stored dependent of `x` keeps a justification that does not
      name `x`, a retraction started at `x` deletes nothing else: objects
      that support one another in a cycle survive with it. */
  lemma OnlyRootFalls(s: Store, x: Ref, gone: set<Ref>, t: Store)
    requires Retracted(s, x, gone, t) && IsObj(s, x)
    requires forall y :: y in Dependents(s, x) && IsObj(s, y) && IsStored(s, y) ==> !Orphaned(s, y, {x})
    ensures gone <= {x}
    ensures forall y :: IsStored(s, y) && y != x ==> IsStored(t, y)
  {
    assert CollapseClosed(s, {x});
    SparedOutsideCollapse(s, x, gone, t, {x});
  }
}
