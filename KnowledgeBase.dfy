// The knowledge base and the inference engine: adding, asserting, asking and
// retracting, with forward chaining on every addition and truth maintenance
// on every retraction.

module Engine {
  import opened Wrappers
  import opened Logic
  import opened Store
  import opened Erasure
  import opened Growth
  import opened Retraction
  import opened Chaining

  /** The justification list with the pairs naming `x` removed: the fact slot
      when `x` is a fact, the rule slot when it is a rule. */
  method DropPairsNaming(sb: seq<Support>, x: Ref) returns (kept: seq<Support>)
    ensures kept == Without(sb, {x})
  {
    kept := [];
    var k := 0;
    while k < |sb|
      invariant 0 <= k <= |sb|
      invariant kept == Without(sb[..k], {x})
    {
      var names := if x.FactRef? then sb[k].fact == x.id else sb[k].rule == x.id;
      assert names == Mentions(sb[k], {x});
      assert sb[..k + 1] == sb[..k] + [sb[k]];
      WithoutAppend(sb[..k], [sb[k]], {x});
      if !names {
        kept := kept + [sb[k]];
      }
      k := k + 1;
    }
    assert sb[..|sb|] == sb;
  }

  class KnowledgeBase {
    var factObjs: seq<FactObj>
    var ruleObjs: seq<RuleObj>
    var facts: seq<FactId>
    var rules: seq<RuleId>
    /** How many more inference steps the current assertion may take. */
    var budget: nat
    const ie: InferenceEngine

    function State(): Store
      reads this`factObjs, this`ruleObjs, this`facts, this`rules
    {
      Store(factObjs, ruleObjs, facts, rules)
    }

    ghost predicate Valid()
      reads this`factObjs, this`ruleObjs, this`facts, this`rules
    {
      Consistent(State())
    }

    /** An empty knowledge base. */
    constructor ()
      ensures Valid() && State() == Store([], [], [], []) && budget == 0
    {
      factObjs := [];
      ruleObjs := [];
      facts := [];
      rules := [];
      budget := 0;
      ie := new InferenceEngine();
    }

    /** The stored fact whose statement equals `statement`, if any. */
    method GetFact(statement: Statement) returns (r: Option<FactId>)
      requires ListsInRange(State())
      ensures r.Some? ==> r.value in facts && factObjs[r.value].statement == statement
      ensures r.None? ==> forall i :: i in facts ==> factObjs[i].statement != statement
    {
      var k := 0;
      while k < |facts|
        invariant 0 <= k <= |facts|
        invariant forall j :: 0 <= j < k ==> facts[j] in facts && factObjs[facts[j]].statement != statement
      {
        assert facts[k] in facts;
        if factObjs[facts[k]].statement == statement {
          return Some(facts[k]);
        }
        k := k + 1;
      }
      return None;
    }

    /** The stored rule with the same left- and right-hand sides, if any. */
    method GetRule(lhs: seq<Statement>, rhs: Statement) returns (r: Option<RuleId>)
      requires ListsInRange(State())
      ensures r.Some? ==> r.value in rules && ruleObjs[r.value].lhs == lhs && ruleObjs[r.value].rhs == rhs
      ensures r.None? ==> forall i :: i in rules ==> ruleObjs[i].lhs != lhs || ruleObjs[i].rhs != rhs
    {
      var k := 0;
      while k < |rules|
        invariant 0 <= k <= |rules|
        invariant forall j :: 0 <= j < k ==>
          rules[j] in rules && (ruleObjs[rules[j]].lhs != lhs || ruleObjs[rules[j]].rhs != rhs)
      {
        assert rules[k] in rules;
        if ruleObjs[rules[k]].lhs == lhs && ruleObjs[rules[k]].rhs == rhs {
          return Some(rules[k]);
        }
        k := k + 1;
      }
      return None;
    }

    /** Add a fact or rule. An item equal to a stored one is merged into it;
        otherwise it is appended and run through the inference step against
        every rule (for a fact) or every fact (for a rule), including those
        the inference adds meanwhile. The new item's own justification pairs
        are left for the caller to record as back-references. Unless the
        budget runs out, every inference step outside `todo` (the steps that
        loops further up have yet to take) is in effect afterwards if it was
        before: the new object's steps, and those of everything its
        inference adds in turn. */
    method KbAdd(item: Item, ghost exempt: set<(Ref, Support)>, ghost todo: set<(FactId, RuleId)>)
      returns (ghost target: Ref)
      modifies this
      requires Coherent(State(), exempt) && Admissible(State(), item)
      decreases budget, 4
      ensures Coherent(State(), exempt + Pending(target, item.supportedBy))
      ensures Grows(old(State()), State()) && budget <= old(budget)
      ensures IsStored(State(), target) && Represents(State(), target, item)
      ensures forall p :: p in item.supportedBy ==> p in SupportedBy(State(), target)
      ensures AssertedOnly(old(State()), State(), if item.supportedBy == [] then {target} else {})
      ensures !old(Absent(State(), item)) ==>
        IsStored(old(State()), target) && State() == Merge(old(State()), target, item) && budget == old(budget)
      ensures old(Absent(State(), item)) ==>
        target == NextRef(old(State()), item) && Grows(AppendNew(old(State()), item), State())
      ensures old(Absent(State(), item)) && budget > 0 ==> Saturated(State(), target)
      ensures old(ClosedExcept(State(), todo)) && budget > 0 ==> ClosedExcept(State(), todo)
    {
      ghost var s0 := State();
      ghost var closed := ClosedExcept(s0, todo);
      var found: Option<Ref>;
      if item.FactItem? {
        var i := GetFact(item.statement);
        found := if i.Some? then Some(FactRef(i.value)) else None;
      } else {
        var i := GetRule(item.lhs, item.rhs);
        found := if i.Some? then Some(RuleRef(i.value)) else None;
      }
      match found
      case Some(x) =>
        target := x;
        assert IsStored(s0, target) && Represents(s0, target, item);
        MergeInto(x, item);
        MergeKeeps(s0, target, item, exempt);
        MergeInPlace(s0, target, item);
        MergeAsserted(s0, target, item);
        GrowsView(s0, State(), target);
        if closed {
          ClosedGrows(s0, State(), todo);
        }
      case None =>
        assert Absent(s0, item);
        var x := Append(item);
        target := x;
        AppendKeeps(s0, item, exempt);
        AppendNewShape(s0, item);
        AppendAsserted(s0, item);
        if closed {
          AppendClosed(s0, item, todo);
        }
        if x.FactRef? {
          SaturateFact(x.id, item, exempt + Pending(target, item.supportedBy), todo);
        } else {
          SaturateRule(x.id, item, exempt + Pending(target, item.supportedBy), todo);
        }
        GrowsTrans(s0, AppendNew(s0, item), State());
        AssertedOnlyTrans(s0, AppendNew(s0, item), State(), if item.supportedBy == [] then {target} else {}, {});
    }

    /** Merge `item` into the stored object `x` that equals it: a justified
        item extends `x`'s justification list, an unjustified one marks `x`
        asserted. */
    method MergeInto(x: Ref, item: Item)
      modifies this
      requires IsObj(State(), x)
      ensures State() == Merge(old(State()), x, item) && budget == old(budget)
    {
      match x
      case FactRef(i) =>
        if item.supportedBy != [] {
          factObjs := factObjs[i := factObjs[i].(supportedBy := factObjs[i].supportedBy + item.supportedBy)];
        } else {
          factObjs := factObjs[i := factObjs[i].(asserted := true)];
        }
      case RuleRef(i) =>
        if item.supportedBy != [] {
          ruleObjs := ruleObjs[i := ruleObjs[i].(supportedBy := ruleObjs[i].supportedBy + item.supportedBy)];
        } else {
          ruleObjs := ruleObjs[i := ruleObjs[i].(asserted := true)];
        }
    }

    /** Store `item` as a new object at the end of its kind's list. */
    method Append(item: Item) returns (x: Ref)
      modifies this
      ensures x == NextRef(old(State()), item) && State() == AppendNew(old(State()), item)
      ensures budget == old(budget)
    {
      if item.FactItem? {
        x := FactRef(|factObjs|);
        factObjs := factObjs + [NewFact(item)];
        facts := facts + [x.id];
      } else {
        x := RuleRef(|ruleObjs|);
        ruleObjs := ruleObjs + [NewRule(item)];
        rules := rules + [x.id];
      }
    }

    /** The inference loop of a newly appended fact `f`: one step against each
        rule in turn, for as long as the budget lasts. When only the steps of
        `f` and those in `todo` were open, only those in `todo` are left. */
    method SaturateFact(f: FactId, ghost item: Item, ghost e: set<(Ref, Support)>, ghost todo: set<(FactId, RuleId)>)
      modifies this
      requires Coherent(State(), e) && IsStored(State(), FactRef(f))
      requires Represents(State(), FactRef(f), item)
      requires forall p :: p in item.supportedBy ==> p in SupportedBy(State(), FactRef(f))
      decreases budget, 3
      ensures Coherent(State(), e) && Grows(old(State()), State()) && budget <= old(budget)
      ensures IsStored(State(), FactRef(f)) && Represents(State(), FactRef(f), item)
      ensures forall p :: p in item.supportedBy ==> p in SupportedBy(State(), FactRef(f))
      ensures AssertedOnly(old(State()), State(), {})
      ensures budget > 0 ==> Saturated(State(), FactRef(f))
      ensures old(ClosedExcept(State(), todo + StepsOfFact(f, rules))) && budget > 0 ==> ClosedExcept(State(), todo)
    {
      ghost var s1 := State();
      ghost var open := ClosedExcept(s1, todo + StepsOfFact(f, rules));
      var i := 0;
      while i < |rules| && budget > 0
        invariant FactLoop(s1, State(), e, f, i, todo, open, budget) && budget <= old(budget)
        decreases budget, |rules| - i
      {
        FactRound(s1, f, i, e, todo, open);
        i := i + 1;
      }
      if budget > 0 {
        FactSweepDone(s1, State(), e, f);
        assert StepsOfFact(f, rules[i..]) == {};
      }
      GrowsView(s1, State(), FactRef(f));
    }

    /** The inference loop of a newly appended rule `r`: one step against each
        fact in turn, for as long as the budget lasts. When only the steps of
        `r` and those in `todo` were open, only those in `todo` are left. */
    method SaturateRule(r: RuleId, ghost item: Item, ghost e: set<(Ref, Support)>, ghost todo: set<(FactId, RuleId)>)
      modifies this
      requires Coherent(State(), e) && IsStored(State(), RuleRef(r))
      requires Represents(State(), RuleRef(r), item)
      requires forall p :: p in item.supportedBy ==> p in SupportedBy(State(), RuleRef(r))
      decreases budget, 3
      ensures Coherent(State(), e) && Grows(old(State()), State()) && budget <= old(budget)
      ensures IsStored(State(), RuleRef(r)) && Represents(State(), RuleRef(r), item)
      ensures forall p :: p in item.supportedBy ==> p in SupportedBy(State(), RuleRef(r))
      ensures AssertedOnly(old(State()), State(), {})
      ensures budget > 0 ==> Saturated(State(), RuleRef(r))
      ensures old(ClosedExcept(State(), todo + StepsOfRule(facts, r))) && budget > 0 ==> ClosedExcept(State(), todo)
    {
      ghost var s1 := State();
      ghost var open := ClosedExcept(s1, todo + StepsOfRule(facts, r));
      var i := 0;
      while i < |facts| && budget > 0
        invariant RuleLoop(s1, State(), e, r, i, todo, open, budget) && budget <= old(budget)
        decreases budget, |facts| - i
      {
        RuleRound(s1, r, i, e, todo, open);
        i := i + 1;
      }
      if budget > 0 {
        RuleSweepDone(s1, State(), e, r);
        assert StepsOfRule(facts[i..], r) == {};
      }
      GrowsView(s1, State(), RuleRef(r));
    }

    /** One round of the inference loop of fact `f`: its step with the
        `i`-th stored rule. */
    method FactRound(ghost s1: Store, f: FactId, i: nat, ghost e: set<(Ref, Support)>,
                     ghost todo: set<(FactId, RuleId)>, ghost open: bool)
      modifies this
      requires FactLoop(s1, State(), e, f, i, todo, open, budget) && IsStored(s1, FactRef(f)) && IsObj(s1, FactRef(f))
      requires i < |rules| && budget > 0
      decreases budget, 2
      ensures FactLoop(s1, State(), e, f, i + 1, todo, open, budget) && budget <= old(budget)
      ensures budget == old(budget) ==> State() == old(State())
    {
      ghost var before := State();
      GrowsView(s1, before, FactRef(f));
      assert rules[i] in rules;
      ie.FcInfer(f, rules[i], this, e, todo + StepsOfFact(f, rules[i..]));
      FactSweepStep(s1, before, State(), e, f, i);
      AssertedOnlyTrans(s1, before, State(), {}, {});
      if open && budget > 0 {
        FactStepClosed(before, State(), todo, f, i);
      }
    }

    /** One round of the inference loop of rule `r`: its step with the
        `i`-th stored fact. */
    method RuleRound(ghost s1: Store, r: RuleId, i: nat, ghost e: set<(Ref, Support)>,
                     ghost todo: set<(FactId, RuleId)>, ghost open: bool)
      modifies this
      requires RuleLoop(s1, State(), e, r, i, todo, open, budget) && IsStored(s1, RuleRef(r)) && IsObj(s1, RuleRef(r))
      requires i < |facts| && budget > 0
      decreases budget, 2
      ensures RuleLoop(s1, State(), e, r, i + 1, todo, open, budget) && budget <= old(budget)
      ensures budget == old(budget) ==> State() == old(State())
    {
      ghost var before := State();
      GrowsView(s1, before, RuleRef(r));
      assert facts[i] in facts;
      ie.FcInfer(facts[i], r, this, e, todo + StepsOfRule(facts[i..], r));
      RuleSweepStep(s1, before, State(), e, r, i);
      AssertedOnlyTrans(s1, before, State(), {}, {});
      if open && budget > 0 {
        RuleStepClosed(before, State(), todo, r, i);
      }
    }

    /** Look up the stored object equal to `item`, the one `kb_add` merged
        it into or appended, and record it as a dependent of both premises. */
    method RecordStored(f: FactId, r: RuleId, item: Item, ghost d: Ref)
      modifies this
      requires Structure(State()) && f < |factObjs| && r < |ruleObjs|
      requires IsStored(State(), d) && Represents(State(), d, item)
      ensures State() == AddDependent(AddDependent(old(State()), FactRef(f), d), RuleRef(r), d)
      ensures budget == old(budget)
    {
      ghost var s1 := State();
      if item.RuleItem? {
        var found := GetRule(item.lhs, item.rhs);
        assert found.Some? && RuleRef(found.value) == d by {
          if found.Some? {
            StoredUnique(s1, RuleRef(found.value), d, item);
          }
        }
        Record(f, r, RuleRef(found.value));
      } else {
        var found := GetFact(item.statement);
        assert found.Some? && FactRef(found.value) == d by {
          if found.Some? {
            StoredUnique(s1, FactRef(found.value), d, item);
          }
        }
        Record(f, r, FactRef(found.value));
      }
    }

    /** Record `d` as a dependent of fact `f` and of rule `r`, on the list
        for its kind. */
    method Record(f: FactId, r: RuleId, d: Ref)
      modifies this
      requires f < |factObjs| && r < |ruleObjs|
      ensures State() == AddDependent(AddDependent(old(State()), FactRef(f), d), RuleRef(r), d)
      ensures budget == old(budget)
    {
      if d.FactRef? {
        factObjs := factObjs[f := factObjs[f].(supportsFacts := factObjs[f].supportsFacts + [d.id])];
        ruleObjs := ruleObjs[r := ruleObjs[r].(supportsFacts := ruleObjs[r].supportsFacts + [d.id])];
      } else {
        factObjs := factObjs[f := factObjs[f].(supportsRules := factObjs[f].supportsRules + [d.id])];
        ruleObjs := ruleObjs[r := ruleObjs[r].(supportsRules := ruleObjs[r].supportsRules + [d.id])];
      }
    }

    /** Assert a fact or rule: add it as an unjustified item, with `steps`
        inference steps allowed for the saturation this sets off. */
    method KbAssert(item: Item, steps: nat) returns (ghost target: Ref)
      modifies this
      requires Valid() && Admissible(State(), item) && item.supportedBy == []
      ensures Valid() && Grows(old(State()), State())
      ensures IsStored(State(), target) && Represents(State(), target, item) && Asserted(State(), target)
      ensures AssertedOnly(old(State()), State(), {target})
      ensures !old(Absent(State(), item)) ==> State() == SetAsserted(old(State()), target, true)
      ensures old(Absent(State(), item)) ==>
        target == NextRef(old(State()), item) && Grows(AppendNew(old(State()), item), State())
      ensures old(Absent(State(), item)) && budget > 0 ==> Saturated(State(), target)
      ensures old(Closed(State())) && budget > 0 ==> Closed(State())
    {
      budget := steps;
      assert Coherent(State(), {});
      target := KbAdd(item, {}, {});
      assert Pending(target, item.supportedBy) == {};
      if !old(Absent(State(), item)) {
        assert Asserted(State(), target);
      } else {
        AppendNewShape(old(State()), item);
        GrowsView(AppendNew(old(State()), item), State(), target);
      }
    }

    /** The answers to `query`: for a fact, one binding per stored fact its
        statement matches, in storage order; nothing for a rule. */
    method KbAsk(query: Item) returns (answers: seq<Answer>)
      requires ListsInRange(State())
      ensures query.FactItem? ==> answers == AnswersFrom(State(), query.statement, facts)
      ensures query.RuleItem? ==> answers == []
    {
      if !query.FactItem? {
        return [];
      }
      answers := [];
      ghost var s := State();
      var k := 0;
      while k < |facts|
        invariant 0 <= k <= |facts| && IdsIn(facts[..k], |factObjs|)
        invariant answers == AnswersFrom(s, query.statement, facts[..k])
      {
        assert facts[..k + 1] == facts[..k] + [facts[k]];
        assert facts[k] in facts;
        AnswersSnoc(s, query.statement, facts[..k], facts[k]);
        var m := Match(query.statement, factObjs[facts[k]].statement);
        if m.Some? {
          answers := answers + [Answer(m.value, facts[k])];
        }
        k := k + 1;
      }
      assert facts[..k] == facts;
    }

    /** Retract a fact: the stored fact equal to it, if any, goes through
        `RetractHelper`. Rules are not retracted. */
    method KbRetract(item: Item) returns (ghost found: Option<Ref>, ghost gone: set<Ref>)
      modifies this
      requires Valid()
      ensures Valid()
      ensures found.None? ==> State() == old(State()) && gone == {}
      ensures found.None? && item.FactItem? ==> Absent(old(State()), item)
      ensures found.Some? ==>
        item.FactItem? && IsStored(old(State()), found.value) && Represents(old(State()), found.value, item)
      ensures found.Some? && SupportedBy(old(State()), found.value) != [] ==>
        gone == {} && State() == SetAsserted(old(State()), found.value, false)
      ensures found.Some? && SupportedBy(old(State()), found.value) == [] ==>
        found.value in gone && State() == Erase(old(State()), gone)
      ensures found.Some? ==> Retracted(old(State()), found.value, gone, State())
    {
      ghost var s := State();
      gone := {};
      found := None;
      if item.FactItem? {
        var i := GetFact(item.statement);
        if i.Some? {
          found := Some(FactRef(i.value));
          gone := RetractHelper(FactRef(i.value));
          if SupportedBy(s, FactRef(i.value)) != [] {
            UnassertKeeps(s, FactRef(i.value));
          } else {
            RetractedConsistent(s, FactRef(i.value), gone, State());
          }
          return;
        }
      }
    }

    /** Retract the stored object `x`: an unjustified one is taken off its
        collection, the pairs naming it are dropped from each of its
        dependents, and every dependent left stored without justification is
        retracted in turn; a justified one only stops being asserted. */
    method RetractHelper(x: Ref) returns (ghost gone: set<Ref>)
      modifies this
      requires Structure(State()) && Linked(State(), {}) && IsStored(State(), x)
      decreases |facts| + |rules|, 2
      ensures IsObj(old(State()), x)
      ensures SupportedBy(old(State()), x) != [] ==>
        gone == {} && State() == SetAsserted(old(State()), x, false)
      ensures SupportedBy(old(State()), x) == [] ==>
        x in gone && State() == Erase(old(State()), gone)
      ensures Retracted(old(State()), x, gone, State())
    {
      ghost var s := State();
      assert IsObj(s, x);
      if SupportedBy(State(), x) != [] {
        ClearAsserted(x);
        gone := {};
        UnassertRetracted(s, x);
        return;
      }
      var deps := Dependents(State(), x);
      TakeOff(x);
      SweepBegin(s, x);
      var done := SweepDependents(s, x, deps);
      EndState(s, x, deps, done);
      SweepEnd(s, x, deps, done, State());
      gone := {x} + done;
    }

    /** The sweep of `retract_helper` over the dependents `deps` of the
        unjustified `x`, already taken off its collection: drop the pairs
        naming `x` from each, and retract each one left stored without
        justification. */
    method SweepDependents(ghost s: Store, x: Ref, deps: seq<Ref>) returns (ghost done: set<Ref>)
      modifies this
      requires Sweep(s, x, deps, 0, {}, State()) && State() == Erase(Detach(s, x, deps[..0]), {})
      decreases |s.facts| + |s.rules|, 1
      ensures Sweep(s, x, deps, |deps|, done, State())
      ensures State() == Erase(Detach(s, x, deps[..|deps|]), done)
    {
      var i := 0;
      done := {};
      while i < |deps|
        invariant i <= |deps|
        invariant Sweep(s, x, deps, i, done, State()) && State() == Erase(Detach(s, x, deps[..i]), done)
        decreases |deps| - i
      {
        done := VisitDependent(s, x, deps, i, done);
        i := i + 1;
      }
    }

    /** One round of the sweep: drop the pairs naming `x` from `deps[i]`,
        and retract it when that leaves it stored without justification. */
    method VisitDependent(ghost s: Store, x: Ref, deps: seq<Ref>, i: nat, ghost done: set<Ref>)
      returns (ghost grown: set<Ref>)
      modifies this
      requires i < |deps| && Sweep(s, x, deps, i, done, State())
      requires State() == Erase(Detach(s, x, deps[..i]), done)
      decreases |s.facts| + |s.rules|, 0
      ensures Sweep(s, x, deps, i + 1, grown, State())
      ensures State() == Erase(Detach(s, x, deps[..i + 1]), grown)
    {
      ghost var cur := State();
      var d := deps[i];
      VisitAdvance(s, x, deps, i, done, cur);
      var kept := DropPairsNaming(SupportedBy(State(), d), x);
      SetSupport(d, kept);
      grown := done;
      if IsStored(State(), d) && kept == [] {
        var g := RetractHelper(d);
        ReturnAdvance(s, x, deps, i, done, cur, g, State());
        grown := done + g;
      }
    }

    method ClearAsserted(x: Ref)
      modifies this
      requires IsObj(State(), x)
      ensures State() == SetAsserted(old(State()), x, false)
    {
      match x
      case FactRef(i) => factObjs := factObjs[i := factObjs[i].(asserted := false)];
      case RuleRef(i) => ruleObjs := ruleObjs[i := ruleObjs[i].(asserted := false)];
    }

    /** Remove `x` from its collection. */
    method TakeOff(x: Ref)
      modifies this
      ensures State() == Unstore(old(State()), x)
    {
      match x
      case FactRef(i) => facts := DropIds(facts, {i});
      case RuleRef(i) => rules := DropIds(rules, {i});
    }

    method SetSupport(x: Ref, sb: seq<Support>)
      modifies this
      requires IsObj(State(), x)
      ensures State() == SetSupportedBy(old(State()), x, sb)
    {
      match x
      case FactRef(i) => factObjs := factObjs[i := factObjs[i].(supportedBy := sb)];
      case RuleRef(i) => ruleObjs := ruleObjs[i := ruleObjs[i].(supportedBy := sb)];
    }
  }

  class InferenceEngine {
    constructor () {}

    /** One forward-chaining step: when `f` matches the first premise of `r`,
        add the consequence with the justification `[f, r]` and record it as a
        dependent of both premises. */
    method FcInfer(f: FactId, r: RuleId, kb: KnowledgeBase, ghost exempt: set<(Ref, Support)>,
                   ghost todo: set<(FactId, RuleId)>)
      modifies kb
      requires Coherent(kb.State(), exempt)
      requires IsStored(kb.State(), FactRef(f)) && IsStored(kb.State(), RuleRef(r))
      decreases kb.budget, 1
      ensures Coherent(kb.State(), exempt) && Grows(old(kb.State()), kb.State())
      ensures kb.budget <= old(kb.budget)
      ensures kb.budget == old(kb.budget) ==> kb.State() == old(kb.State())
      ensures AssertedOnly(old(kb.State()), kb.State(), {})
      ensures old(Match(kb.factObjs[f].statement, kb.ruleObjs[r].lhs[0])).None? ==> kb.budget == old(kb.budget)
      ensures old(kb.budget) > 0 ==> Fired(kb.State(), f, r)
      ensures old(ClosedExcept(kb.State(), todo)) && kb.budget > 0 ==> ClosedExcept(kb.State(), todo)
      ensures kb.budget > 0 ==> ConsequenceSaturated(old(kb.State()), kb.State(), f, r)
    {
      match Match(kb.factObjs[f].statement, kb.ruleObjs[r].lhs[0])
      case None =>
      case Some(b) =>
        if kb.budget > 0 {
          Derive(f, r, b, kb, exempt, todo);
        }
    }

    /** The consequence of a successful match of `f` against the first premise
        of `r`: add it with the justification `[f, r]`, then record it as a
        dependent of both premises. One unit of the budget is spent. */
    method Derive(f: FactId, r: RuleId, b: Bindings, kb: KnowledgeBase, ghost exempt: set<(Ref, Support)>,
                  ghost todo: set<(FactId, RuleId)>)
      modifies kb
      requires Coherent(kb.State(), exempt)
      requires IsStored(kb.State(), FactRef(f)) && IsStored(kb.State(), RuleRef(r))
      requires Match(kb.factObjs[f].statement, kb.ruleObjs[r].lhs[0]) == Some(b)
      requires kb.budget > 0
      decreases kb.budget, 0
      ensures Coherent(kb.State(), exempt) && Grows(old(kb.State()), kb.State())
      ensures kb.budget < old(kb.budget)
      ensures AssertedOnly(old(kb.State()), kb.State(), {})
      ensures Fired(kb.State(), f, r)
      ensures old(ClosedExcept(kb.State(), todo)) && kb.budget > 0 ==> ClosedExcept(kb.State(), todo)
      ensures kb.budget > 0 ==> ConsequenceSaturated(old(kb.State()), kb.State(), f, r)
    {
      var rule := kb.ruleObjs[r];
      ghost var s0 := kb.State();
      kb.budget := kb.budget - 1;
      var item := if |rule.lhs| > 1
        then RuleItem(InstantiateAll(rule.lhs[1..], b), Instantiate(rule.rhs, b), [Support(f, r)])
        else FactItem(Instantiate(rule.rhs, b), [Support(f, r)]);
      assert item == Consequence(s0, f, r, b);
      ghost var d := kb.KbAdd(item, exempt, todo);
      ghost var s1 := kb.State();
      kb.RecordStored(f, r, item, d);
      InferRecorded(s0, s1, f, r, b, d, exempt, todo);
    }
  }

  /** Assert the rule P(?x) & R(?x) => Q(?x) into an empty knowledge base,
      then the facts P(a) and R(a): P(a) first when `pFirst` holds, R(a)
      first otherwise, each assertion allowed `steps` inference steps. When
      none of the three runs out of steps (`complete`), the knowledge base is
      closed under forward chaining and holds the fact Q(a), in either
      order. */
  method ChainInEitherOrder(pFirst: bool, steps: nat) returns (kb: KnowledgeBase, complete: bool)
    ensures kb.Valid()
    ensures complete ==> Closed(kb.State())
    ensures complete ==> exists i :: i in kb.facts && kb.factObjs[i].statement == Unary("Q", Constant("a"))
  {
    kb := new KnowledgeBase();
    var p := FactItem(Unary("P", Constant("a")), []);
    var q := FactItem(Unary("R", Constant("a")), []);
    var first := if pFirst then p else q;
    var second := if pFirst then q else p;
    ghost var xr := kb.KbAssert(Conjunction(), steps);
    complete := kb.budget > 0;
    ghost var s1 := kb.State();
    ghost var x1 := kb.KbAssert(first, steps);
    complete := complete && kb.budget > 0;
    ghost var s2 := kb.State();
    ghost var x2 := kb.KbAssert(second, steps);
    complete := complete && kb.budget > 0;
    GrowsView(s1, s2, xr);
    GrowsView(s2, kb.State(), xr);
    GrowsView(s2, kb.State(), x1);
    if complete {
      if pFirst {
        ConjunctionConcludes(kb.State(), xr.id, x1.id, x2.id);
      } else {
        ConjunctionConcludes(kb.State(), xr.id, x2.id, x1.id);
      }
    }
  }
}
