// Properties of deleting objects from a knowledge base: how pair removal and
// unstoring compose, how the retraction sweep's partial state relates to a
// whole deletion, and which invariants a deletion keeps.

module Erasure {
  import opened Logic
  import opened Store

  lemma {:induction false} WithoutCompose(sb: seq<Support>, a: set<Ref>, b: set<Ref>)
    ensures Without(Without(sb, a), b) == Without(sb, a + b)
  {
    if sb != [] {
      WithoutCompose(sb[1..], a, b);
      var head := if Mentions(sb[0], a) then [] else [sb[0]];
      assert Without(sb, a) == head + Without(sb[1..], a);
      WithoutAppend(head, Without(sb[1..], a), b);
    }
  }

  lemma {:induction false} WithoutAppend(x: seq<Support>, y: seq<Support>, gone: set<Ref>)
    ensures Without(x + y, gone) == Without(x, gone) + Without(y, gone)
  {
    if x != [] {
      assert (x + y)[1..] == x[1..] + y;
      WithoutAppend(x[1..], y, gone);
    } else {
      assert x + y == y;
    }
  }

  /** Removing pairs that name no object of `gone` changes nothing. */
  lemma {:induction false} WithoutNothing(sb: seq<Support>, gone: set<Ref>)
    requires forall p :: p in sb ==> !Mentions(p, gone)
    ensures Without(sb, gone) == sb
  {
    if sb != [] {
      WithoutNothing(sb[1..], gone);
    }
  }

  lemma {:induction false} DropIdsCompose(ids: seq<nat>, a: set<nat>, b: set<nat>)
    ensures DropIds(DropIds(ids, a), b) == DropIds(ids, a + b)
  {
    if ids != [] {
      DropIdsCompose(ids[1..], a, b);
      var head := if ids[0] in a then [] else [ids[0]];
      DropIdsAppend(head, DropIds(ids[1..], a), b);
    }
  }

  lemma {:induction false} DropIdsAppend(x: seq<nat>, y: seq<nat>, gone: set<nat>)
    ensures DropIds(x + y, gone) == DropIds(x, gone) + DropIds(y, gone)
  {
    if x != [] {
      assert (x + y)[1..] == x[1..] + y;
      DropIdsAppend(x[1..], y, gone);
    } else {
      assert x + y == y;
    }
  }

  /** The tail of a list without duplicates has none, and does not hold
      the head. */
  lemma NoDuplicatesTail(ids: seq<nat>)
    requires NoDuplicates(ids) && ids != []
    ensures NoDuplicates(ids[1..]) && ids[0] !in ids[1..]
  {
    forall i, j | 0 <= i < j < |ids| - 1 ensures ids[1..][i] != ids[1..][j] {
      assert ids[i + 1] != ids[j + 1];
    }
    forall k | 0 <= k < |ids| - 1 ensures ids[1..][k] != ids[0] {
      assert ids[k + 1] != ids[0];
    }
  }

  /** Putting an id in front of a list that lacks it keeps it free of
      duplicates. */
  lemma NoDuplicatesCons(h: nat, rest: seq<nat>)
    requires NoDuplicates(rest) && h !in rest
    ensures NoDuplicates([h] + rest)
  {
    forall i, j | 0 <= i < j < |[h] + rest| ensures ([h] + rest)[i] != ([h] + rest)[j] {
      assert ([h] + rest)[j] == rest[j - 1];
      if i > 0 {
        assert ([h] + rest)[i] == rest[i - 1];
      }
    }
  }

  /** Dropping ids never introduces a duplicate. */
  lemma {:induction false} DropIdsNoDuplicates(ids: seq<nat>, gone: set<nat>)
    requires NoDuplicates(ids)
    ensures NoDuplicates(DropIds(ids, gone))
  {
    if ids != [] {
      NoDuplicatesTail(ids);
      DropIdsNoDuplicates(ids[1..], gone);
      var rest := DropIds(ids[1..], gone);
      if ids[0] in gone {
        assert DropIds(ids, gone) == rest;
      } else {
        assert DropIds(ids, gone) == [ids[0]] + rest;
        NoDuplicatesCons(ids[0], rest);
      }
    }
  }

  lemma IdsOfUnion(a: set<Ref>, b: set<Ref>)
    ensures FactIds(a + b) == FactIds(a) + FactIds(b)
    ensures RuleIds(a + b) == RuleIds(a) + RuleIds(b)
  {
    forall i | i in FactIds(a + b) ensures i in FactIds(a) + FactIds(b) {
      var y :| y in a + b && y.FactRef? && y.id == i;
      if y in a { assert i in FactIds(a); } else { assert i in FactIds(b); }
    }
    forall i | i in FactIds(a) + FactIds(b) ensures i in FactIds(a + b) {
      assert FactRef(i) in a + b;
    }
    forall i | i in RuleIds(a + b) ensures i in RuleIds(a) + RuleIds(b) {
      var y :| y in a + b && y.RuleRef? && y.id == i;
      if y in a { assert i in RuleIds(a); } else { assert i in RuleIds(b); }
    }
    forall i | i in RuleIds(a) + RuleIds(b) ensures i in RuleIds(a + b) {
      assert RuleRef(i) in a + b;
    }
  }

  /** An object is stored after a deletion exactly when it was stored before
      and is not among the deleted. */
  lemma StoredAfterErase(s: Store, gone: set<Ref>, x: Ref)
    ensures IsStored(Erase(s, gone), x) <==> IsStored(s, x) && x !in gone
  {
    match x
    case FactRef(i) => assert i in FactIds(gone) <==> x in gone;
    case RuleRef(i) => assert i in RuleIds(gone) <==> x in gone;
  }

  lemma SupportedByAfterErase(s: Store, gone: set<Ref>, x: Ref)
    requires IsObj(s, x)
    ensures IsObj(Erase(s, gone), x)
    ensures SupportedBy(Erase(s, gone), x) == Without(SupportedBy(s, x), gone)
    ensures Asserted(Erase(s, gone), x) == Asserted(s, x)
    ensures Dependents(Erase(s, gone), x) == Dependents(s, x)
  {
  }

  lemma EraseComposeFact(s: Store, a: set<Ref>, b: set<Ref>, i: nat)
    requires i < |s.factObjs|
    ensures Erase(Erase(s, a), b).factObjs[i] == Erase(s, a + b).factObjs[i]
  {
    WithoutCompose(s.factObjs[i].supportedBy, a, b);
  }

  lemma EraseComposeRule(s: Store, a: set<Ref>, b: set<Ref>, i: nat)
    requires i < |s.ruleObjs|
    ensures Erase(Erase(s, a), b).ruleObjs[i] == Erase(s, a + b).ruleObjs[i]
  {
    WithoutCompose(s.ruleObjs[i].supportedBy, a, b);
  }

  /** Two deletions in a row are one deletion of both sets. */
  lemma EraseCompose(s: Store, a: set<Ref>, b: set<Ref>)
    ensures Erase(Erase(s, a), b) == Erase(s, a + b)
  {
    var t := Erase(Erase(s, a), b);
    var u := Erase(s, a + b);
    forall i | 0 <= i < |s.factObjs| ensures t.factObjs[i] == u.factObjs[i] {
      EraseComposeFact(s, a, b, i);
    }
    forall i | 0 <= i < |s.ruleObjs| ensures t.ruleObjs[i] == u.ruleObjs[i] {
      EraseComposeRule(s, a, b, i);
    }
    assert t.factObjs == u.factObjs && t.ruleObjs == u.ruleObjs;
    IdsOfUnion(a, b);
    DropIdsCompose(s.facts, FactIds(a), FactIds(b));
    DropIdsCompose(s.rules, RuleIds(a), RuleIds(b));
  }

  /** Dropping the pairs naming `x` after a deletion, whether or not they
      were dropped before it, is the deletion of the list without `x`. */
  lemma WithoutAgain(sb: seq<Support>, x: Ref, gone: set<Ref>, before: bool)
    ensures Without(Without(if before then Without(sb, {x}) else sb, gone), {x})
         == Without(Without(sb, {x}), gone)
  {
    WithoutCompose(sb, {x}, gone);
    if before {
      WithoutCompose(Without(sb, {x}), gone, {x});
      WithoutCompose(sb, {x}, gone + {x});
      assert {x} + (gone + {x}) == {x} + gone;
    } else {
      WithoutCompose(sb, gone, {x});
      assert gone + {x} == {x} + gone;
    }
  }

  /** One visit of the retraction sweep: dropping the pairs naming `x` from the
      next dependent `d` extends the set of visited dependents by `d`. */
  lemma DetachStep(s: Store, x: Ref, done: seq<Ref>, d: Ref, gone: set<Ref>)
    requires IsObj(s, d)
    ensures IsObj(Erase(Detach(s, x, done), gone), d)
    ensures
      var t := Erase(Detach(s, x, done), gone);
      SetSupportedBy(t, d, Without(SupportedBy(t, d), {x})) == Erase(Detach(s, x, done + [d]), gone)
  {
    var t := Erase(Detach(s, x, done), gone);
    var lhs := SetSupportedBy(t, d, Without(SupportedBy(t, d), {x}));
    var rhs := Erase(Detach(s, x, done + [d]), gone);
    forall i | 0 <= i < |s.factObjs| ensures lhs.factObjs[i] == rhs.factObjs[i] {
      var o := s.factObjs[i];
      var before := FactRef(i) in done;
      assert t.factObjs[i] == EraseFact(if before then EraseFact(o, {x}) else o, gone);
      assert rhs.factObjs[i] == EraseFact(if FactRef(i) in done + [d] then EraseFact(o, {x}) else o, gone);
      if d == FactRef(i) {
        WithoutAgain(o.supportedBy, x, gone, before);
        assert lhs.factObjs[i] == t.factObjs[i].(supportedBy := Without(t.factObjs[i].supportedBy, {x}));
      } else {
        assert lhs.factObjs[i] == t.factObjs[i];
        assert (FactRef(i) in done + [d]) == before;
      }
    }
    forall i | 0 <= i < |s.ruleObjs| ensures lhs.ruleObjs[i] == rhs.ruleObjs[i] {
      var o := s.ruleObjs[i];
      var before := RuleRef(i) in done;
      assert t.ruleObjs[i] == EraseRule(if before then EraseRule(o, {x}) else o, gone);
      assert rhs.ruleObjs[i] == EraseRule(if RuleRef(i) in done + [d] then EraseRule(o, {x}) else o, gone);
      if d == RuleRef(i) {
        WithoutAgain(o.supportedBy, x, gone, before);
        assert lhs.ruleObjs[i] == t.ruleObjs[i].(supportedBy := Without(t.ruleObjs[i].supportedBy, {x}));
      } else {
        assert lhs.ruleObjs[i] == t.ruleObjs[i];
        assert (RuleRef(i) in done + [d]) == before;
      }
    }
    assert lhs.factObjs == rhs.factObjs;
    assert lhs.ruleObjs == rhs.ruleObjs;
  }

  /** Before the sweep visits any dependent, its state is `x` taken off its
      collection. */
  lemma SweepStart(s: Store, x: Ref)
    ensures Erase(Detach(s, x, []), {}) == Unstore(s, x)
  {
    var t := Erase(Detach(s, x, []), {});
    var u := Unstore(s, x);
    forall i | 0 <= i < |s.factObjs| ensures t.factObjs[i] == u.factObjs[i] {
      WithoutNothing(s.factObjs[i].supportedBy, {});
    }
    forall i | 0 <= i < |s.ruleObjs| ensures t.ruleObjs[i] == u.ruleObjs[i] {
      WithoutNothing(s.ruleObjs[i].supportedBy, {});
    }
    assert FactIds({}) == {} && RuleIds({}) == {};
  }

  /** During the sweep the stored objects are those stored before, except `x`
      and the objects deleted so far. */
  lemma SweepStored(s: Store, x: Ref, done: seq<Ref>, gone: set<Ref>, y: Ref)
    ensures IsStored(Erase(Detach(s, x, done), gone), y) <==> IsStored(s, y) && y != x && y !in gone
  {
    StoredAfterErase(Detach(s, x, done), gone, y);
  }

  /** An object that is not a dependent of `x` holds no pair naming `x`. */
  lemma NotDependentClean(s: Store, x: Ref, y: Ref)
    requires Linked(s, {}) && IsObj(s, x) && IsObj(s, y) && y !in Dependents(s, x)
    ensures Without(SupportedBy(s, y), {x}) == SupportedBy(s, y)
  {
    forall p | p in SupportedBy(s, y) ensures !Mentions(p, {x}) {
      assert LinkedPair(s, y, p);
    }
    WithoutNothing(SupportedBy(s, y), {x});
  }

  lemma DetachAllFact(s: Store, x: Ref, i: nat)
    requires Linked(s, {}) && IsObj(s, x) && i < |s.factObjs|
    ensures Detach(s, x, Dependents(s, x)).factObjs[i] == Erase(s, {x}).factObjs[i]
  {
    if FactRef(i) !in Dependents(s, x) {
      NotDependentClean(s, x, FactRef(i));
    }
  }

  lemma DetachAllRule(s: Store, x: Ref, i: nat)
    requires Linked(s, {}) && IsObj(s, x) && i < |s.ruleObjs|
    ensures Detach(s, x, Dependents(s, x)).ruleObjs[i] == Erase(s, {x}).ruleObjs[i]
  {
    if RuleRef(i) !in Dependents(s, x) {
      NotDependentClean(s, x, RuleRef(i));
    }
  }

  /** Once every dependent of `x` has been visited, the sweep's partial state
      is the deletion of `x`: no other object holds a pair naming `x`. */
  lemma DetachAll(s: Store, x: Ref)
    requires Linked(s, {}) && IsObj(s, x)
    ensures Detach(s, x, Dependents(s, x)) == Erase(s, {x})
  {
    var t := Detach(s, x, Dependents(s, x));
    var u := Erase(s, {x});
    forall i | 0 <= i < |s.factObjs| ensures t.factObjs[i] == u.factObjs[i] {
      DetachAllFact(s, x, i);
    }
    forall i | 0 <= i < |s.ruleObjs| ensures t.ruleObjs[i] == u.ruleObjs[i] {
      DetachAllRule(s, x, i);
    }
    assert t.factObjs == u.factObjs && t.ruleObjs == u.ruleObjs;
    match x
    case FactRef(k) =>
      assert FactIds({x}) == {k};
      assert RuleIds({x}) == {};
    case RuleRef(k) =>
      assert FactIds({x}) == {};
      assert RuleIds({x}) == {k};
  }

  // ---------------------------------------------------------------------
  // Invariants kept by removal

  /** `o'` is `o` with some justification pairs dropped; its statement and
      back-references are unchanged. */
  predicate FactShrinks(o: FactObj, o': FactObj) {
    o'.statement == o.statement && o'.supportsFacts == o.supportsFacts &&
    o'.supportsRules == o.supportsRules && (forall p :: p in o'.supportedBy ==> p in o.supportedBy)
  }

  predicate RuleShrinks(o: RuleObj, o': RuleObj) {
    o'.lhs == o.lhs && o'.rhs == o.rhs && o'.supportsFacts == o.supportsFacts &&
    o'.supportsRules == o.supportsRules && (forall p :: p in o'.supportedBy ==> p in o.supportedBy)
  }

  /** `t` is `s` after removal: the same objects, some of them taken off their
      collection, some justification pairs dropped, every object off its
      collection left without justification. */
  ghost predicate Shrinks(s: Store, t: Store) {
    |t.factObjs| == |s.factObjs| && |t.ruleObjs| == |s.ruleObjs| &&
    (forall i :: 0 <= i < |s.factObjs| ==> FactShrinks(s.factObjs[i], t.factObjs[i])) &&
    (forall i :: 0 <= i < |s.ruleObjs| ==> RuleShrinks(s.ruleObjs[i], t.ruleObjs[i])) &&
    (forall i :: i in t.facts ==> i in s.facts) && (forall i :: i in t.rules ==> i in s.rules) &&
    NoDuplicates(t.facts) && NoDuplicates(t.rules) &&
    (forall x :: IsObj(t, x) && !IsStored(t, x) ==> SupportedBy(t, x) == [])
  }

  lemma ShrinksView(s: Store, t: Store, x: Ref)
    requires Shrinks(s, t) && IsObj(s, x)
    ensures IsObj(t, x) && Dependents(t, x) == Dependents(s, x)
    ensures forall p :: p in SupportedBy(t, x) ==> p in SupportedBy(s, x)
    ensures IsStored(t, x) ==> IsStored(s, x)
  {
    match x
    case FactRef(i) => assert FactShrinks(s.factObjs[i], t.factObjs[i]);
    case RuleRef(i) => assert RuleShrinks(s.ruleObjs[i], t.ruleObjs[i]);
  }

  /** Removal keeps the structure and the back-reference invariant. */
  lemma ShrinksKeep(s: Store, t: Store, exempt: set<(Ref, Support)>)
    requires Structure(s) && Linked(s, exempt) && Shrinks(s, t)
    ensures Structure(t) && Linked(t, exempt)
  {
    ShrinksStructure(s, t);
    ShrinksLinked(s, t, exempt);
  }

  lemma ShrinksLinked(s: Store, t: Store, exempt: set<(Ref, Support)>)
    requires Structure(s) && Linked(s, exempt) && Shrinks(s, t)
    ensures Linked(t, exempt)
  {
    forall x, p | IsObj(t, x) && p in SupportedBy(t, x) ensures (x, p) in exempt || LinkedPair(t, x, p) {
      ShrinksView(s, t, x);
      if LinkedPair(s, x, p) {
        ShrinksView(s, t, FactRef(p.fact));
        ShrinksView(s, t, RuleRef(p.rule));
      }
    }
  }

  lemma ShrinksStructure(s: Store, t: Store)
    requires Structure(s) && Shrinks(s, t)
    ensures Structure(t)
  {
    ShrinksInRange(s, t);
    ShrinksUnique(s, t);
  }

  lemma ShrinksInRange(s: Store, t: Store)
    requires InRange(s) && Shrinks(s, t)
    ensures InRange(t)
  {
    forall x | IsObj(t, x)
      ensures IsObj(s, x) && Dependents(t, x) == Dependents(s, x)
      ensures forall p :: p in SupportedBy(t, x) ==> p in SupportedBy(s, x)
    {
      ShrinksView(s, t, x);
    }
    forall r | 0 <= r < |t.ruleObjs| ensures |t.ruleObjs[r].lhs| > 0 {
      assert RuleShrinks(s.ruleObjs[r], t.ruleObjs[r]);
    }
    forall x, y | IsObj(t, x) && y in Dependents(t, x) ensures IsObj(t, y) {
      assert y in Dependents(s, x);
      assert IsObj(s, y);
    }
  }

  lemma ShrinksUnique(s: Store, t: Store)
    requires InRange(s) && Unique(s) && Shrinks(s, t)
    ensures Unique(t)
  {
    forall a, b | a in t.facts && b in t.facts && a != b && a < |t.factObjs| && b < |t.factObjs|
      ensures t.factObjs[a].statement != t.factObjs[b].statement
    {
      assert FactShrinks(s.factObjs[a], t.factObjs[a]) && FactShrinks(s.factObjs[b], t.factObjs[b]);
    }
    forall a, b | a in t.rules && b in t.rules && a != b && a < |t.ruleObjs| && b < |t.ruleObjs|
      ensures t.ruleObjs[a].lhs != t.ruleObjs[b].lhs || t.ruleObjs[a].rhs != t.ruleObjs[b].rhs
    {
      assert RuleShrinks(s.ruleObjs[a], t.ruleObjs[a]) && RuleShrinks(s.ruleObjs[b], t.ruleObjs[b]);
    }
  }

  /** A recorded inference step reads the same after a removal that keeps
      its pair. */
  lemma DerivesShrinks(s: Store, t: Store, x: Ref, p: Support)
    requires Shrinks(s, t) && IsObj(s, x) && Derives(s, x, p)
    ensures Derives(t, x, p)
  {
    var b := Match(s.factObjs[p.fact].statement, s.ruleObjs[p.rule].lhs[0]).value;
    assert FactShrinks(s.factObjs[p.fact], t.factObjs[p.fact]);
    assert RuleShrinks(s.ruleObjs[p.rule], t.ruleObjs[p.rule]);
    assert Consequence(t, p.fact, p.rule, b) == Consequence(s, p.fact, p.rule, b);
    match x
    case FactRef(i) => assert FactShrinks(s.factObjs[i], t.factObjs[i]);
    case RuleRef(i) => assert RuleShrinks(s.ruleObjs[i], t.ruleObjs[i]);
  }

  /** Removal keeps every remaining pair a real inference step. */
  lemma ShrinksDerived(s: Store, t: Store)
    requires Shrinks(s, t) && Derived(s)
    ensures Derived(t)
  {
    forall x, p | IsObj(t, x) && p in SupportedBy(t, x) ensures Derives(t, x, p) {
      ShrinksView(s, t, x);
      DerivesShrinks(s, t, x, p);
    }
  }

  /** Shrinking one object's justification list is a removal, provided an
      unstored object stays without justification. */
  lemma SetSupportedByShrinks(s: Store, d: Ref, sb: seq<Support>)
    requires Structure(s) && IsObj(s, d)
    requires forall p :: p in sb ==> p in SupportedBy(s, d)
    requires !IsStored(s, d) ==> sb == []
    ensures Shrinks(s, SetSupportedBy(s, d, sb))
  {
    var t := SetSupportedBy(s, d, sb);
    forall x | IsObj(t, x) && !IsStored(t, x) ensures SupportedBy(t, x) == [] {
      assert IsObj(s, x);
    }
  }

  /** Clearing or setting the assertion flag is a removal of nothing. */
  lemma SetAssertedShrinks(s: Store, x: Ref, a: bool)
    requires Structure(s) && IsObj(s, x)
    ensures Shrinks(s, SetAsserted(s, x, a))
  {
    var t := SetAsserted(s, x, a);
    forall y | IsObj(t, y) && !IsStored(t, y) ensures SupportedBy(t, y) == [] {
      assert IsObj(s, y);
    }
  }

  /** Taking an object without justification off its collection is a removal,
      and shortens the collections when the object was on one. */
  lemma UnstoreShrinks(s: Store, x: Ref)
    requires Structure(s) && IsObj(s, x) && SupportedBy(s, x) == []
    ensures Shrinks(s, Unstore(s, x))
    ensures forall y :: IsStored(Unstore(s, x), y) <==> IsStored(s, y) && y != x
    ensures |Unstore(s, x).facts| + |Unstore(s, x).rules| <= |s.facts| + |s.rules|
    ensures IsStored(s, x) ==> |Unstore(s, x).facts| + |Unstore(s, x).rules| < |s.facts| + |s.rules|
  {
    var t := Unstore(s, x);
    DropIdsNoDuplicates(s.facts, {x.id});
    DropIdsNoDuplicates(s.rules, {x.id});
    forall y | IsObj(t, y) && !IsStored(t, y) ensures SupportedBy(t, y) == [] {
      assert IsObj(s, y);
    }
  }

  /** A deletion in which every deleted object has lost all of its
      justifications is a removal. */
  lemma EraseShrinks(s: Store, gone: set<Ref>)
    requires Structure(s)
    requires forall y :: y in gone && IsObj(s, y) ==> Without(SupportedBy(s, y), gone) == []
    ensures Shrinks(s, Erase(s, gone))
  {
    var t := Erase(s, gone);
    DropIdsNoDuplicates(s.facts, FactIds(gone));
    DropIdsNoDuplicates(s.rules, RuleIds(gone));
    forall y | IsObj(t, y) && !IsStored(t, y) ensures SupportedBy(t, y) == [] {
      SupportedByAfterErase(s, gone, y);
      StoredAfterErase(s, gone, y);
    }
  }

  /** The partial state of the retraction sweep is a removal. */
  lemma DetachShrinks(s: Store, x: Ref, done: seq<Ref>)
    requires Structure(s) && IsObj(s, x) && SupportedBy(s, x) == []
    ensures Shrinks(s, Detach(s, x, done))
  {
    var t := Detach(s, x, done);
    DropIdsNoDuplicates(s.facts, {x.id});
    DropIdsNoDuplicates(s.rules, {x.id});
    assert t.facts == Unstore(s, x).facts && t.rules == Unstore(s, x).rules;
    forall i | 0 <= i < |s.factObjs| ensures FactShrinks(s.factObjs[i], t.factObjs[i]) {
      if FactRef(i) in done {
        assert t.factObjs[i] == EraseFact(s.factObjs[i], {x});
      } else {
        assert t.factObjs[i] == s.factObjs[i];
      }
    }
    forall i | 0 <= i < |s.ruleObjs| ensures RuleShrinks(s.ruleObjs[i], t.ruleObjs[i]) {
      if RuleRef(i) in done {
        assert t.ruleObjs[i] == EraseRule(s.ruleObjs[i], {x});
      } else {
        assert t.ruleObjs[i] == s.ruleObjs[i];
      }
    }
    forall y | IsObj(t, y) && !IsStored(t, y) ensures SupportedBy(t, y) == [] {
      assert IsObj(s, y);
      if y != x {
        assert !IsStored(s, y);
      }
    }
  }

  // ---------------------------------------------------------------------
  // What a whole retraction keeps

  /** After a deletion in which every deleted object lost all of its
      justifications and every surviving object that had a justification
      still has one, no surviving object is justified by a deleted one and
      every surviving object is still asserted or derived. */
  lemma RetractionConsistent(s: Store, gone: set<Ref>)
    requires Consistent(s)
    requires forall y :: y in gone ==> IsStored(s, y) && Without(SupportedBy(s, y), gone) == []
    requires forall d :: IsObj(s, d) && IsStored(s, d) && d !in gone && SupportedBy(s, d) != [] ==>
      Without(SupportedBy(s, d), gone) != []
    ensures Consistent(Erase(s, gone))
  {
    var t := Erase(s, gone);
    EraseShrinks(s, gone);
    ShrinksKeep(s, t, {});
    ShrinksDerived(s, t);
    forall y | IsObj(t, y)
      ensures IsObj(s, y) && SupportedBy(t, y) == Without(SupportedBy(s, y), gone)
      ensures Asserted(t, y) == Asserted(s, y) && (IsStored(t, y) <==> IsStored(s, y) && y !in gone)
    {
      SupportedByAfterErase(s, gone, y);
      StoredAfterErase(s, gone, y);
    }
    forall x, p | IsObj(t, x) && IsStored(t, x) && p in SupportedBy(t, x)
      ensures IsStored(t, FactRef(p.fact)) && IsStored(t, RuleRef(p.rule))
    {
      StoredAfterErase(s, gone, FactRef(p.fact));
      StoredAfterErase(s, gone, RuleRef(p.rule));
    }
  }

  /** Clearing the assertion of an object that is still derived keeps the
      knowledge base consistent. */
  lemma UnassertKeeps(s: Store, x: Ref)
    requires Consistent(s) && IsObj(s, x) && SupportedBy(s, x) != []
    ensures Consistent(SetAsserted(s, x, false))
  {
    var t := SetAsserted(s, x, false);
    SetAssertedShrinks(s, x, false);
    ShrinksKeep(s, t, {});
    ShrinksDerived(s, t);
    forall y | IsObj(t, y)
      ensures IsObj(s, y) && SupportedBy(t, y) == SupportedBy(s, y) && (IsStored(t, y) <==> IsStored(s, y))
      ensures y != x ==> Asserted(t, y) == Asserted(s, y)
    {
    }
  }
}
