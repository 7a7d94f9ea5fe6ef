# Forward-chaining knowledge base with truth maintenance, in Dafny

This project models the knowledge base of `student_code.py`: a store of
facts and implication rules that derives new facts and rules by forward
chaining, and keeps every derived item linked to its justifications so that
retracting a fact unwinds everything that depended on it.

The model is imperative, like the source:

- `Engine.KnowledgeBase` is a class whose fields are the two collections,
  `facts` and `rules`, together with the objects they refer to.
  `kb_add`, `kb_assert`, `kb_ask`, `kb_retract`, `retract_helper`,
  `_get_fact` and `_get_rule` are its methods.
- `Engine.InferenceEngine.FcInfer` is `fc_infer`. It mutates the knowledge
  base it is given.

Every method is proved against a value-level specification of the
knowledge base.

## Files

- `Logic.dfy`: terms, statements, bindings, `match` and `instantiate`.
  - The repository's `util` and `logical_classes` modules are not part of
    this model.
  - The model defines matching itself: predicate and arity must agree, and
    a variable on either side is bound consistently. It proves this
    definition sound and complete.
- `Store.dfy`: the knowledge base as a value and the invariants it keeps.
  - Objects live in an arena: the list of every Fact and Rule object ever
    created. An object's index in the arena is its identity.
  - The two collections are lists of arena indices.
  - A justification pair `[fact, rule]` holds two indices. The
    back-reference lists `supports_facts` and `supports_rules` hold indices
    too.
  - The file also defines the state transitions the operations are made
    of, what one inference step leaves behind (`Fired`), and the answers to
    a query (`AnswersFrom`).
- `Growth.dfy`: what adding keeps: appending, merging, recording
  back-references, and the saturation loops.
- `Erasure.dfy` and `Retraction.dfy`: what removal keeps, and the
  retraction sweep step by step.
- `KnowledgeBase.dfy`: the two classes.
- `Chaining.dfy`: what forward chaining can have derived. Every derived
  rule descends, one premise at a time, from an asserted rule. A fact is
  derived only through a one-premise rule whose premise a stored fact
  matched.
- `Findings.dfy`: two departures of the source from its evident intent.
  Each is written out as the code stands and shown on a concrete knowledge
  base. The classes implement the corrected behaviour.

### The invariant (`Store.Consistent`)

- Every id is in range, and every rule has a premise.
- No two stored facts, or stored rules, are equal.
- An object off its collection has no justification.
- Every justification pair is mirrored by back-references on both of its
  premises.
- Every justification of a stored object names a stored fact and a stored
  rule.
- Every stored object is asserted, derived, or both.
- Every justification pair records a real inference step (`Derived`). The
  pair's fact matches the first premise of the pair's rule, and the object
  is the consequence of that match.

Adding keeps this invariant (`KbAdd`, `KbAssert`, `FcInfer`), and so does
retracting (`KbRetract`).

### Termination

`kb_add` and `fc_infer` call each other. Their termination in the source
rests on the finite set of statements the rules can produce. The model
makes it explicit with a budget instead:

- `KnowledgeBase.budget` counts the inference steps the current assertion
  may still take. `KbAssert(item, steps)` sets it.
- Each successful match spends one unit.
- Once the budget is spent, the saturation loops stop.
- Every promise about saturation (`Saturated`) is conditional on budget
  being left.

Retraction terminates because each recursive call starts with one
object fewer in the collections.

## Model

| member | source | states |
|---|---|---|
| Logic.Match | student_code.py:199-201 | A successful match implies equal predicates and equal arity |
| Logic.MatchSound | student_code.py:199-201 | The bindings of a successful match reconcile every argument pair, variables on either side bound consistently |
| Logic.MatchComplete | student_code.py:199-201 | Whenever some bindings reconcile two statements of the same predicate and arity, the match succeeds and returns bindings contained in them (most general) |
| Logic.MatchGroundPattern | student_code.py:199-201 | Matching a ground fact against a premise: the premise instantiated with the bindings is the fact |
| Logic.MatchGroundCandidate | student_code.py:108-111 | Matching a query against a ground stored fact: the query instantiated with the bindings is the stored fact |
| Logic.MatchGroundIff | student_code.py:199-201 | A ground fact matches a premise exactly when some instance of the premise is the fact |
| Logic.TestAndBind | student_code.py:199-201 | Binding a variable succeeds exactly when it is unbound or already bound to the same term, and the result extends the old bindings |
| Logic.Instantiate | student_code.py:209-219 | Keeps the predicate and the arity. A ground statement is left alone, and binding every variable to a constant grounds the result |
| Logic.InstantiateAll | student_code.py:205-211 | As many premises as given, each keeping its predicate and arity; a ground conjunction is left alone |
| Store.ConsequenceSound | student_code.py:199-226 | The derived item is a fact `instantiate(rhs, b)` for a one-premise rule, else a rule with one premise fewer (`lhs[1:]` instantiated element-wise, in order) and rhs `instantiate(rhs, b)`; it is justified by exactly `[fact, rule]`; its bindings turn the first premise into the fact |
| Store.Dependents | student_code.py:140-157 | The objects an item supports, as retraction visits them: its `supports_rules`, then its `supports_facts` |
| Store.Without | student_code.py:142-174 | Exactly the pairs that name none of the removed objects (fact slot for a fact, rule slot for a rule) are kept, in order |
| Store.DropIds | student_code.py:157-177 | Removing from a collection keeps exactly the other entries, in order, and shrinks it when something was removed |
| Store.AnswersFrom | student_code.py:104-113 | Every answer is a listed fact whose statement the query matches, with the match's bindings; every listed fact that matches has an answer |
| Store.AnswersSnoc | student_code.py:108-111 | Answers come in storage order: one more fact appends its answer, if it matches, at the end |
| Growth.StoredUnique | student_code.py:59-72 | No two stored objects are equal, so the add path's membership test and `index` agree on one object |
| Growth.DerivesGrows | student_code.py:58-83 | A recorded inference step stays a real one when the knowledge base only grows |
| Growth.DerivesNew | student_code.py:58-83 | An item whose pairs each derive it passes that on to the object it becomes |
| Growth.GrowsDerived | student_code.py:58-83 | Growth keeps every pair a real inference step, provided each new pair is one |
| Growth.AppendDerived | student_code.py:58-73 | Appending an item whose pairs each derive it keeps every pair a real inference step |
| Growth.MergeDerived | student_code.py:63-83 | Merging such an item into the stored equal object does too |
| Growth.AddDependentDerived | student_code.py:215-216 | Recording a back-reference changes no pair |
| Growth.AssertedOnlyTrans | student_code.py:50-92 | Two additions in a row assert at most the union of what each asserts; every other object keeps its flag |
| Growth.AppendAsserted | student_code.py:58-73 | Appending asserts the new object exactly when it has no justification, and changes no other flag |
| Growth.MergeAsserted | student_code.py:63-83 | Merging asserts the stored object only for an unjustified item, and changes no other flag |
| Growth.RecordAsserted | student_code.py:214-226 | Recording back-references changes no `asserted` flag |
| Growth.AppendKeeps | student_code.py:58-73 | Appending an item that is absent keeps the invariant, except the new item's justifications, whose back-references the caller records |
| Growth.MergeKeeps | student_code.py:63-83 | Merging into the stored equal object keeps the invariant with the same exception, and only adds |
| Growth.MergeInPlace | student_code.py:63-83 | Merging adds nothing to either collection. An unjustified item marks the stored one asserted, and doing it again changes nothing. A justified one appends every incoming pair |
| Growth.RecordKeeps | student_code.py:214-226 | Recording the derived object on both premises settles the exception of its pair `[fact, rule]` |
| Growth.AddDependentKeeps | student_code.py:215-216 | Appending a back-reference to an object of the arena keeps the invariant with the same exceptions, only adds, and leaves the new dependent on the list |
| Growth.Discharge | student_code.py:224-226 | Once a justification pair is mirrored on both of its premises, the invariant holds without its exception |
| Growth.InferKeeps | student_code.py:199-226 | One inference step keeps the invariant and leaves the step in effect (`Fired`) |
| Growth.FiredPersists | student_code.py:58-75 | Once an inference step has taken effect, every later addition keeps it in effect |
| Growth.ClosedGrows | student_code.py:58-83 | Growth that leaves both collections as they were keeps every inference step that had taken effect |
| Growth.SaturatedGrows | student_code.py:58-83 | Growth that leaves both collections as they were keeps a saturated object saturated |
| Growth.AppendClosed | student_code.py:58-75 | Appending a new object leaves open only its own steps with the opposite collection |
| Growth.RecordClosed | student_code.py:214-226 | Recording a derived object on its premises keeps every inference step that had taken effect |
| Growth.FactStepClosed | student_code.py:61-62 | Once the new fact's step with the i-th rule has taken effect, only its steps with the later rules stay open, even if the rule list grew meanwhile |
| Growth.RuleStepClosed | student_code.py:74-75 | Once the new rule's step with the i-th fact has taken effect, only its steps with the later facts stay open |
| Growth.InferRecorded | student_code.py:199-226 | The inference step, after its consequence is added and recorded: the invariant is kept, the state only grows, the step takes effect, no flag changes, every step that had taken effect before recording still has, and a saturated consequence stays saturated |
| Growth.FactSweepStep | student_code.py:61-62 | One round of the new fact's loop extends the prefix of rules it has fired against; the rule list is re-read and may have grown |
| Growth.FactSweepDone | student_code.py:61-62 | After every rule, the new fact is saturated: each stored rule's step with it has taken effect |
| Growth.RuleSweepStep | student_code.py:74-75 | One round of the new rule's loop extends the prefix of facts it has fired against |
| Growth.RuleSweepDone | student_code.py:74-75 | After every fact, the new rule is saturated |
| Erasure.EraseCompose | student_code.py:137-180 | Deleting one set and then another is deleting their union |
| Erasure.DetachAll | student_code.py:140-177 | Under the back-reference invariant, dropping the pairs naming X from X's dependents drops them everywhere |
| Erasure.ShrinksKeep | student_code.py:137-180 | Any removal step keeps the structural and back-reference invariants |
| Erasure.RetractionConsistent | student_code.py:137-180 | A deletion where each deleted object lost every justification, and no survivor lost its last one, leaves the knowledge base consistent |
| Erasure.DerivesShrinks | student_code.py:137-180 | A pair that survives a removal step is still a real inference step |
| Erasure.ShrinksDerived | student_code.py:137-180 | Removal keeps every pair a real inference step |
| Erasure.UnassertKeeps | student_code.py:159-180 | Clearing `asserted` on a still-justified object leaves the knowledge base consistent |
| Store.FallsInCone | student_code.py:137-180 | What falls with X (lies in every set holding X that is closed under collapse) lies in X's dependency cone |
| Retraction.SweepPairs | student_code.py:142-174 | Every sweep state keeps each pair that names neither X nor an object deleted so far |
| Retraction.FallsStep | student_code.py:162-176 | What the recursive retraction of a dependent left without justification deletes falls with X, given that everything deleted before it does |
| Retraction.ReturnFalls | student_code.py:168-176 | Everything the recursive retraction of a dependent deleted falls with X |
| Retraction.ErasePairs | student_code.py:142-174 | Deleting objects drops only the pairs that name them, and gives no pair to an unjustified object |
| Retraction.SparedOutsideCone | student_code.py:137-180 | A retraction deletes nothing outside X's cone, the objects reachable from X through back-references. A pair whose fact and rule both lie outside the cone survives, and so does its object |
| Retraction.SweepBegin | student_code.py:162-177 | Taking X off its collection starts the sweep |
| Retraction.SweepVisit | student_code.py:162-174 | Dropping the pairs naming X from one dependent keeps the invariants; unless the dependent is left stored and unjustified, the sweep moves on |
| Retraction.VisitAdvance | student_code.py:162-169 | Dropping the pairs naming X from the next dependent is one more step of X's detachment, keeps the structural and back-reference invariants, and, unless the dependent is left stored and unjustified, moves the sweep on |
| Retraction.SweepReturn | student_code.py:168-176 | After the recursive retraction of a dependent left without justification, the sweep moves on with its deletions, all falling with X, added |
| Retraction.ReturnAdvance | student_code.py:168-176 | After the recursive retraction of that dependent, the sweep moves on, and the state is X's detachment so far with the union of everything deleted |
| Retraction.SweepEnd | student_code.py:162-177 | The finished sweep is the retraction of X and all it deleted. Each deleted object was stored, falls with X and has no justification left. Every pair naming no deleted object is kept, and every survivor that had a justification still has one |
| Retraction.SparedOutsideCollapse | student_code.py:137-180 | A retraction deletes nothing outside any set that holds X and contains every stored dependent of its members whose pairs all name its members: such a set includes everything deleted, and every stored object outside it stays stored |
| Retraction.OnlyRootFalls | student_code.py:137-180 | When every stored dependent of X keeps a pair not naming X, as when two derived items justify each other in a cycle, the retraction deletes only X and every other stored object stays stored |
| Retraction.UnassertRetracted | student_code.py:159-180 | Clearing `asserted` deletes nothing |
| Retraction.RetractedConsistent | student_code.py:119-180 | Such a retraction from a consistent knowledge base leaves it consistent |
| Engine.DropPairsNaming | student_code.py:142-174 | The loop removes every pair naming X from a justification list (`Without`) |
| Engine.KnowledgeBase.constructor | student_code.py:8-11 | A new knowledge base is empty and consistent |
| Engine.KnowledgeBase.GetFact | student_code.py:22-34 | Returns a stored fact with an equal statement, or reports that there is none |
| Engine.KnowledgeBase.GetRule | student_code.py:36-48 | Returns a stored rule with equal sides, or reports that there is none |
| Engine.KnowledgeBase.KbAdd | student_code.py:50-83 | An item equal to a stored one is merged into it (exactly `Merge`, no new entry). An absent item is appended, and when budget is left it is saturated against the opposite collection, and every inference step between a stored fact and a stored rule outside the caller's pending ones has taken effect if it had before (closure under forward chaining, passed on through nested additions). The invariant is kept, and the state only grows. Only the item's object can become asserted, and only when the item has no justification; every other object keeps its flag, and every derived object is unasserted |
| Engine.KnowledgeBase.MergeInto | student_code.py:63-83 | The in-place update of the stored equal object is `Merge` |
| Engine.KnowledgeBase.Append | student_code.py:60-73 | A new object built from the item is appended to its collection |
| Engine.KnowledgeBase.SaturateFact | student_code.py:61-62 | With budget left, the new fact ends saturated against every stored rule, including rules derived meanwhile, and the knowledge base is closed except for the caller's pending steps. No `asserted` flag changes |
| Engine.KnowledgeBase.FactRound | student_code.py:61-62 | One round of the new fact's loop moves the loop invariant on by one rule; with the budget unspent the state is unchanged |
| Engine.KnowledgeBase.RuleRound | student_code.py:74-75 | One round of the new rule's loop moves the loop invariant on by one fact |
| Engine.KnowledgeBase.SaturateRule | student_code.py:74-75 | With budget left, the new rule ends saturated against every stored fact, and the knowledge base is closed except for the caller's pending steps. No `asserted` flag changes |
| Engine.KnowledgeBase.KbAssert | student_code.py:85-92 | The item ends stored and asserted, and the knowledge base stays consistent. Re-asserting a stored item only sets its flag (idempotent, count unchanged). A new item is appended, and saturated when budget is left. The item is the only object that becomes asserted. A knowledge base closed under forward chaining (every stored fact's step with every stored rule has taken effect) stays closed when budget is left, so derivations chain over several steps |
| Engine.KnowledgeBase.KbAsk | student_code.py:94-117 | The answers to a fact query are exactly `AnswersFrom` over the stored facts, in storage order; a rule query gets `[]` |
| Engine.KnowledgeBase.KbRetract | student_code.py:119-134 | A rule, or a fact with no equal stored fact, changes nothing. A still-justified fact only loses `asserted`. An unjustified one is deleted with everything the sweep deletes, all of it falling with the fact. The knowledge base stays consistent |
| Engine.KnowledgeBase.RetractHelper | student_code.py:137-180 | A justified X only loses `asserted`. Otherwise X and the set it returns are deleted: they leave their collections and every pair naming them is dropped. Each deleted object was stored, falls with X (so lies in its cone) and is left unjustified. Every pair naming no deleted object is kept, and no survivor loses its last justification |
| Engine.KnowledgeBase.SweepDependents | student_code.py:162-176 | Every dependent of X, in order, loses the pairs naming X, and one left stored without justification is retracted recursively. The final state is X detached from all of them with everything the recursive calls deleted erased, and the sweep invariant holds at the end |
| Engine.KnowledgeBase.VisitDependent | student_code.py:162-176 | One round of the sweep: the next dependent loses the pairs naming X and, left stored without justification, is retracted recursively. The sweep invariant moves one dependent on, with the recursive deletions added |
| Engine.KnowledgeBase.RecordStored | student_code.py:212-226 | The stored object equal to the consequence, the one `kb_add` merged into or appended, is recorded on both premises |
| Engine.KnowledgeBase.Record | student_code.py:214-226 | The derived object is appended to the back-reference list of its kind on both premises |
| Engine.KnowledgeBase.ClearAsserted | student_code.py:160-180 | Only the object's `asserted` flag changes |
| Engine.KnowledgeBase.TakeOff | student_code.py:157-177 | The object leaves its collection |
| Engine.KnowledgeBase.SetSupport | student_code.py:142-167 | Only the object's justification list changes |
| Engine.InferenceEngine.FcInfer | student_code.py:184-201 | With no match, nothing changes. With budget left, the step takes effect (`Fired`), and its consequence is added by `kb_add`: when the consequence was new and budget is left, the object appended for it is itself saturated against the opposite collection (`ConsequenceSaturated`), and the knowledge base is closed except for the caller's pending steps. The invariant is kept, the state only grows, and no `asserted` flag changes |
| Engine.InferenceEngine.Derive | student_code.py:202-226 | The consequence of a match is added with justification `[fact, rule]` and recorded on both premises. The invariant is kept, the step takes effect, a new consequence ends saturated while budget is left, closure outside the caller's pending steps is kept, and no `asserted` flag changes |
| Findings.DeriveMergedAsWritten | student_code.py:212-226 | The inference step as written, when its consequence is merged: the collections are unchanged, and exactly one object joins the arena. That object is the one the step built, and it goes on the premises' back-reference lists |
| Findings.TransientDependent | student_code.py:212-226 | On a consistent knowledge base where Q(a) is derived a second time, the step as written leaves the pair [S(a), rule 1] on Q(a) without a back-reference on S(a). S(a)'s back-reference names an object outside both collections |
| Findings.MergedAsWrittenIs | student_code.py:212-226 | The knowledge base that step leaves, written out: Q(a) carries both pairs, and the copy the step built is fact 3, off the fact list |
| Findings.TransientRemovesStored | student_code.py:171-177 | Retracting S(a) from it, as written, visits the copy, leaves it unjustified and removes it by `==`. That removes the stored Q(a), which P(a) and rule 0 still justify |
| Findings.FirstEqual | student_code.py:157-177 | The position of the first listed object `==` to X: none before it is, and the one there is |
| Findings.RemoveFromCollection | student_code.py:157-177 | `list.remove` by `==` fails exactly when no listed object equals X; otherwise it drops the first listed object equal to X, which need not be X |
| Chaining.DerivedRule | student_code.py:202-211 | A derived rule has one premise fewer than the rule its pair names, and its sides are that rule's later premises and conclusion instantiated |
| Chaining.DerivedFact | student_code.py:202-208 | A derived fact comes from a one-premise rule whose premise the pair's fact matches; its statement is the conclusion instantiated |
| Chaining.DerivedRulesDescend | student_code.py:50-92 | Every unasserted stored rule names, in its first pair, a stored rule with one premise more |
| Chaining.RulesBelow | student_code.py:50-92 | By descent: when every asserted stored rule has fewer than m premises, so has every stored rule |
| Chaining.RulesBounded | student_code.py:50-92 | No stored rule has more premises than the longest asserted one |
| Chaining.NothingWithoutRules | student_code.py:50-92 | Without an asserted rule no rule is stored, and every stored fact is asserted |
| Chaining.StoredFactsAsserted | student_code.py:50-92 | With only P(?x) & R(?x) ⇒ Q(?x) and P(a) asserted, every stored fact is asserted, and it is P(a) |
| Chaining.FirstPremiseOnly | student_code.py:50-92 | After asserting P(?x) & R(?x) ⇒ Q(?x) and then P(a), with their step taken, the rule R(a) ⇒ Q(a) is stored and P(a) is the only stored fact: there is no Q(a) fact yet |
| Chaining.ConjunctionConcludes | student_code.py:184-226 | In a knowledge base closed under forward chaining that stores P(?x) & R(?x) ⇒ Q(?x), P(a) and R(a), the fact Q(a) is stored |
| Engine.ChainInEitherOrder | student_code.py:85-92 | Asserting that rule, then P(a) and R(a) in either order, leaves a consistent knowledge base; when no assertion ran out of budget it is closed under forward chaining and stores Q(a) |
| Findings.StaleDependentRaises | student_code.py:137-180 | On a consistent knowledge base, retracting P(a) reaches the already deleted Q(a) through rule 1. The guard as written recurses into Q(a), whose removal from the fact list fails |

## Findings

| source | as written | input that shows it | evidently intended | confidence | as-written member | corrected member |
|---|---|---|---|---|---|---|
| student_code.py:212-226 | `kb.kb_add` may merge the new consequence into an equal stored object. The back-reference lists then record the object the step built, which never joins a collection. The stored object holds the pair `[fact, rule]` with no back-reference on the fact. Retracting the fact later visits the copy, and `self.facts.remove(copy)` removes the stored object by `==` while another pair still justifies it | assert the rules P(?x) ⇒ Q(?x) and S(?x) ⇒ Q(?x), then P(a), then S(a): the second derivation of Q(a) is merged; retracting S(a) then deletes Q(a), which P(a) still derives | record the stored object that now carries the pair | not executed | Findings.TransientRemovesStored | Engine.InferenceEngine.Derive |
| student_code.py:146-177 | a dependent whose justification list is empty is retracted whether or not it is still stored. A dependent deleted by an earlier retraction is still on the back-reference lists, so it is retracted again, and `self.facts.remove` raises `ValueError` | assert the rule P(?x) ∧ S(?x) ⇒ Q(?x), then P(a), then S(a); retract S(a); retract P(a) | recurse only into dependents that are still stored | not executed | Findings.StaleDependentRaises | Engine.KnowledgeBase.RetractHelper |

## Left out

- Logging and output (`printv`, `print`), `__repr__` and `__str__`: display only.
- The `read` module and parsing: callers hand the knowledge base ready-made items.
- `util.match`, `util.instantiate`, `util.factq`, `ListOfBindings` and the equality of Fact and Rule are not part of this model. `Logic` gives them a self-written definition with the contract the knowledge base relies on. Equality is structural: statements for facts, both sides for rules.
- Engine.KnowledgeBase.KbAsk: returns the sequence of (bindings, fact) answers. It does not build a `ListOfBindings` object.
- The `factq` test is the item's kind: a fact query is answered, and a rule query gets `[]`.
- `if binding:` is read as "the match succeeded". If `util`'s `Bindings` defines `__len__` or `__bool__`, an empty binding set, from matching two ground statements, would be falsy and skipped. `util` is not part of this model, so the model does not decide this.
- Engine.KnowledgeBase.constructor: starts empty. The mutable default lists of `__init__` are a Python aliasing artefact.
- Engine.KnowledgeBase.KbAdd: saturation of a new item and closure under forward chaining are promised only while the inference budget lasts. The source has no bound; it terminates only if the derivable statements are finite.
- Engine.KnowledgeBase.KbAssert: saturation of a new item and closure are promised only while the budget lasts, as for `KbAdd`.
- Engine.KnowledgeBase.SaturateFact: saturation and closure only while the budget lasts, as for `KbAdd`.
- Engine.KnowledgeBase.SaturateRule: saturation and closure only while the budget lasts, as for `KbAdd`.
- Engine.InferenceEngine.FcInfer: the step takes effect, and its new consequence is saturated, only while the budget lasts, as for `KbAdd`.
- Engine.InferenceEngine.Derive: saturation of a new consequence and closure only while the budget lasts, as for `KbAdd`.
- Engine.ChainInEitherOrder: proves Q(a) when every assertion kept budget. How many steps are enough is not proved.
- Engine.KnowledgeBase.KbAssert: requires an item without justification pairs. `kb_assert` is meant for user assertions, which carry none. A justified item would get no back-references, which breaks the back-reference invariant.
- Engine.KnowledgeBase.KbAdd: requires every justification pair to name a stored fact and rule, to record the inference step that yields the item, and every rule to have a premise. `fc_infer` only ever builds such items, and `rule.lhs[0]` fails on a rule without premises.
- Adding a fact does not always leave the number of rules as it was. When a stored rule has several premises, the new fact's match derives a rule with one premise fewer and appends it. The model states what is appended instead (`KbAdd`: `Grows(AppendNew(old, item), new)`).
- Engine.DropPairsNaming: removes every pair naming X. The source removes from a list while iterating over it, which skips the pair after each one removed. The model follows the evident intent.
- Engine.KnowledgeBase.KbRetract: `kb_retract` loops over `self.facts` while `retract_helper` removes from it. Facts are unique, so the loop finds at most one equal fact, and the model looks it up with `GetFact`.
- Engine.KnowledgeBase.RetractHelper: takes X off its collection before the sweep; the source removes X after it. The final state is the same. Removing first means a dependent that leads back to X finds X already gone.
- Engine.InferenceEngine.Derive and Engine.KnowledgeBase.RetractHelper: they model the corrected behaviour described under "## Findings". The source as written appears only in `Findings`.
- Engine.KnowledgeBase.RetractHelper: a dependent whose justification list ends empty is retracted even when it is asserted. The source does the same.
- Justification pairs are compared by value (fact and rule ids), and the classes compare objects by identity. Python's `couple[0] == fact_or_rule` and `list.remove(item)` compare by `==`. The two agree only while every object that reaches the retraction is the stored one. The copy of Finding 1 is not, and there `==` removes the stored equal fact (`Findings.TransientRemovesStored`). The corrected inference step records only stored objects, so the classes never meet the difference.
- The invariant is not proved free of circular support. Items that justify one another through a cycle of derivations survive the retraction of what first derived them (`Retraction.OnlyRootFalls`), as in the source.
- Concurrency is out of scope, as in the source (single-threaded).
