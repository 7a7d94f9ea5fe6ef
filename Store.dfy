// The state of a knowledge base as a value: every Fact and Rule object the
// knowledge base has created (its object arena, indexed by identity), the
// two collections `facts` and `rules` (lists of object ids, in insertion
// order), the invariants the add and retract operations keep, and the
// state transitions they are made of.

module Store {
  import opened Wrappers
  import opened Logic

  type FactId = nat
  type RuleId = nat

  /** The identity of a Fact or Rule object. */
  datatype Ref = FactRef(id: nat) | RuleRef(id: nat)

  /** A justification pair `[fact, rule]`. */
  datatype Support = Support(fact: FactId, rule: RuleId)

  datatype FactObj = FactObj(
    statement: Statement,
    asserted: bool,
    supportedBy: seq<Support>,
    supportsFacts: seq<FactId>,
    supportsRules: seq<RuleId>)

  datatype RuleObj = RuleObj(
    lhs: seq<Statement>,
    rhs: Statement,
    asserted: bool,
    supportedBy: seq<Support>,
    supportsFacts: seq<FactId>,
    supportsRules: seq<RuleId>)

  /** A freshly constructed Fact or Rule, as handed to `kb_add`. */
  datatype Item =
    | FactItem(statement: Statement, supportedBy: seq<Support>)
    | RuleItem(lhs: seq<Statement>, rhs: Statement, supportedBy: seq<Support>)

  /** A new object is asserted exactly when it carries no justification, and
      supports nothing yet. */
  function NewFact(item: Item): FactObj
    requires item.FactItem?
  {
    FactObj(item.statement, item.supportedBy == [], item.supportedBy, [], [])
  }

  function NewRule(item: Item): RuleObj
    requires item.RuleItem?
  {
    RuleObj(item.lhs, item.rhs, item.supportedBy == [], item.supportedBy, [], [])
  }

  datatype Store = Store(
    factObjs: seq<FactObj>,
    ruleObjs: seq<RuleObj>,
    facts: seq<FactId>,
    rules: seq<RuleId>)

  // ---------------------------------------------------------------------
  // Access by reference

  predicate IsObj(s: Store, x: Ref) {
    match x
    case FactRef(i) => i < |s.factObjs|
    case RuleRef(i) => i < |s.ruleObjs|
  }

  /** The object is in the knowledge base's fact or rule list. */
  predicate IsStored(s: Store, x: Ref) {
    match x
    case FactRef(i) => i in s.facts
    case RuleRef(i) => i in s.rules
  }

  function SupportedBy(s: Store, x: Ref): seq<Support>
    requires IsObj(s, x)
  {
    match x
    case FactRef(i) => s.factObjs[i].supportedBy
    case RuleRef(i) => s.ruleObjs[i].supportedBy
  }

  function Asserted(s: Store, x: Ref): bool
    requires IsObj(s, x)
  {
    match x
    case FactRef(i) => s.factObjs[i].asserted
    case RuleRef(i) => s.ruleObjs[i].asserted
  }

  function SupportsFacts(s: Store, x: Ref): seq<FactId>
    requires IsObj(s, x)
  {
    match x
    case FactRef(i) => s.factObjs[i].supportsFacts
    case RuleRef(i) => s.ruleObjs[i].supportsFacts
  }

  function SupportsRules(s: Store, x: Ref): seq<RuleId>
    requires IsObj(s, x)
  {
    match x
    case FactRef(i) => s.factObjs[i].supportsRules
    case RuleRef(i) => s.ruleObjs[i].supportsRules
  }

  /** The objects `x` supports: its rule back-references, then its fact
      back-references, the order in which retraction visits them. */
  function Dependents(s: Store, x: Ref): (deps: seq<Ref>)
    requires IsObj(s, x)
    ensures forall y :: y in deps <==>
      (y.RuleRef? && y.id in SupportsRules(s, x)) || (y.FactRef? && y.id in SupportsFacts(s, x))
  {
    var rs := SupportsRules(s, x);
    var fs := SupportsFacts(s, x);
    var deps := seq(|rs|, k requires 0 <= k < |rs| => RuleRef(rs[k]))
              + seq(|fs|, k requires 0 <= k < |fs| => FactRef(fs[k]));
    assert forall k :: 0 <= k < |rs| ==> deps[k] == RuleRef(rs[k]);
    assert forall k :: 0 <= k < |fs| ==> deps[|rs| + k] == FactRef(fs[k]);
    deps
  }

  /** Every dependent of an object of `c` is in `c`. */
  ghost predicate DependentsClosed(s: Store, c: set<Ref>) {
    forall y, z :: y in c && IsObj(s, y) && z in Dependents(s, y) ==> z in c
  }

  /** `y` lies in the dependency cone of `x`: it is `x` or is reached from
      `x` by following back-references, so it belongs to every set that
      holds `x` and is closed under dependents. */
  ghost predicate InCone(s: Store, x: Ref, y: Ref) {
    forall c {:trigger DependentsClosed(s, c)} :: x in c && DependentsClosed(s, c) ==> y in c
  }

  /** Every justification of `y` names an object of `c`. */
  ghost predicate Orphaned(s: Store, y: Ref, c: set<Ref>)
    requires IsObj(s, y)
  {
    forall p :: p in SupportedBy(s, y) ==> Mentions(p, c)
  }

  /** Deleting `c` would leave no stored dependent of one of its objects
      without justification outside `c`: every such dependent whose
      justifications all name objects of `c` is itself in `c`. */
  ghost predicate CollapseClosed(s: Store, c: set<Ref>) {
    forall z, y ::
      z in c && IsObj(s, z) && y in Dependents(s, z) && IsObj(s, y) && IsStored(s, y) && Orphaned(s, y, c) ==>
        y in c
  }

  /** `y` falls with `x`: it belongs to every set that holds `x` and is
      closed under collapse, so it is `x` or a dependent that deleting what
      fell before leaves without justification. */
  ghost predicate FallsWith(s: Store, x: Ref, y: Ref) {
    forall c {:trigger CollapseClosed(s, c)} :: x in c && CollapseClosed(s, c) ==> y in c
  }

  /** Everything in `gone` falls with `x`. */
  ghost predicate AllFall(s: Store, x: Ref, gone: set<Ref>) {
    forall y :: y in gone ==> FallsWith(s, x, y)
  }

  lemma AllFallUnion(s: Store, x: Ref, a: set<Ref>, b: set<Ref>)
    requires AllFall(s, x, a) && AllFall(s, x, b)
    ensures AllFall(s, x, a + b)
  {
  }

  /** What falls with `x` lies in its dependency cone. */
  lemma FallsInCone(s: Store, x: Ref, y: Ref)
    requires FallsWith(s, x, y)
    ensures InCone(s, x, y)
  {
    forall c | x in c && DependentsClosed(s, c) ensures y in c {
      assert CollapseClosed(s, c);
    }
  }

  /** Structural equality of an object with an item: statements for facts,
      left- and right-hand sides for rules. */
  predicate Represents(s: Store, x: Ref, item: Item) {
    IsObj(s, x) &&
    match item
    case FactItem(st, _) => x.FactRef? && s.factObjs[x.id].statement == st
    case RuleItem(l, r, _) => x.RuleRef? && s.ruleObjs[x.id].lhs == l && s.ruleObjs[x.id].rhs == r
  }

  /** The pair names one of the objects in `gone`, in its fact or rule slot. */
  predicate Mentions(p: Support, gone: set<Ref>) {
    FactRef(p.fact) in gone || RuleRef(p.rule) in gone
  }

  /** The justification list with every pair that names an object in `gone`
      removed, the others kept in order. */
  function Without(sb: seq<Support>, gone: set<Ref>): (r: seq<Support>)
    ensures forall p :: p in r <==> p in sb && !Mentions(p, gone)
    ensures |r| <= |sb|
  {
    if sb == [] then []
    else (if Mentions(sb[0], gone) then [] else [sb[0]]) + Without(sb[1..], gone)
  }

  /** The id list with every id in `gone` removed, the others kept in order. */
  function DropIds(ids: seq<nat>, gone: set<nat>): (r: seq<nat>)
    ensures forall i :: i in r <==> i in ids && i !in gone
    ensures |r| <= |ids|
    ensures (forall i :: i in ids ==> i !in gone) ==> r == ids
    ensures (exists i :: i in ids && i in gone) ==> |r| < |ids|
  {
    if ids == [] then []
    else (if ids[0] in gone then [] else [ids[0]]) + DropIds(ids[1..], gone)
  }

  function FactIds(gone: set<Ref>): set<nat> {
    set y | y in gone && y.FactRef? :: y.id
  }

  function RuleIds(gone: set<Ref>): set<nat> {
    set y | y in gone && y.RuleRef? :: y.id
  }

  // ---------------------------------------------------------------------
  // Invariants

  predicate IdsIn(ids: seq<nat>, n: nat) {
    forall i :: i in ids ==> i < n
  }

  predicate NoDuplicates(ids: seq<nat>) {
    forall i, j :: 0 <= i < j < |ids| ==> ids[i] != ids[j]
  }

  /** Ids in range, every rule has a premise, and every reference points
      into the arena. */
  ghost predicate InRange(s: Store) {
    ListsInRange(s) && PremisesPresent(s) && PairsInRange(s) && DependentsInRange(s)
  }

  ghost predicate ListsInRange(s: Store) {
    IdsIn(s.facts, |s.factObjs|) && IdsIn(s.rules, |s.ruleObjs|)
  }

  ghost predicate PremisesPresent(s: Store) {
    forall r :: 0 <= r < |s.ruleObjs| ==> |s.ruleObjs[r].lhs| > 0
  }

  ghost predicate PairsInRange(s: Store) {
    forall x, p :: IsObj(s, x) && p in SupportedBy(s, x) ==> p.fact < |s.factObjs| && p.rule < |s.ruleObjs|
  }

  ghost predicate DependentsInRange(s: Store) {
    forall x, y :: IsObj(s, x) && y in Dependents(s, x) ==> IsObj(s, y)
  }

  /** No id is listed twice, and no two stored facts (rules) are
      structurally equal. */
  ghost predicate Unique(s: Store) {
    NoDuplicates(s.facts) && NoDuplicates(s.rules) &&
    (forall a, b :: a in s.facts && b in s.facts && a != b && a < |s.factObjs| && b < |s.factObjs| ==>
      s.factObjs[a].statement != s.factObjs[b].statement) &&
    (forall a, b :: a in s.rules && b in s.rules && a != b && a < |s.ruleObjs| && b < |s.ruleObjs| ==>
      s.ruleObjs[a].lhs != s.ruleObjs[b].lhs || s.ruleObjs[a].rhs != s.ruleObjs[b].rhs)
  }

  /** An object that is no longer stored has no justification left. */
  ghost predicate Cleared(s: Store) {
    forall x :: IsObj(s, x) && !IsStored(s, x) ==> SupportedBy(s, x) == []
  }

  ghost predicate Structure(s: Store) {
    InRange(s) && Unique(s) && Cleared(s)
  }

  /** The pair `p` in the justification list of `x` is recorded as a
      back-reference on both of its premises. */
  predicate LinkedPair(s: Store, x: Ref, p: Support) {
    p.fact < |s.factObjs| && p.rule < |s.ruleObjs| &&
    x in Dependents(s, FactRef(p.fact)) && x in Dependents(s, RuleRef(p.rule))
  }

  /** Every justification pair is mirrored by back-references, except the
      (object, pair) combinations in `exempt`, whose back-references the
      inference step records after `kb_add` returns. */
  ghost predicate Linked(s: Store, exempt: set<(Ref, Support)>) {
    forall x, p :: IsObj(s, x) && p in SupportedBy(s, x) ==> (x, p) in exempt || LinkedPair(s, x, p)
  }

  /** Every justification of a stored object names a stored fact and a
      stored rule. */
  ghost predicate Grounded(s: Store) {
    forall x, p :: IsObj(s, x) && IsStored(s, x) && p in SupportedBy(s, x) ==>
      IsStored(s, FactRef(p.fact)) && IsStored(s, RuleRef(p.rule))
  }

  /** A stored object is asserted, derived, or both: never neither. */
  ghost predicate Justified(s: Store) {
    forall x :: IsObj(s, x) && IsStored(s, x) ==> Asserted(s, x) || SupportedBy(s, x) != []
  }

  /** The pair `p` records a real inference step that yields `x`: fact
      `p.fact` matches the first premise of rule `p.rule`, and `x` equals the
      consequence. */
  ghost predicate Derives(s: Store, x: Ref, p: Support) {
    p.fact < |s.factObjs| && p.rule < |s.ruleObjs| && |s.ruleObjs[p.rule].lhs| > 0 &&
    match Match(s.factObjs[p.fact].statement, s.ruleObjs[p.rule].lhs[0])
    case None => false
    case Some(b) => Represents(s, x, Consequence(s, p.fact, p.rule, b))
  }

  /** Every justification pair records a real inference step. */
  ghost predicate Derived(s: Store) {
    forall x, p :: IsObj(s, x) && p in SupportedBy(s, x) ==> Derives(s, x, p)
  }

  /** The invariant of a knowledge base between operations. */
  ghost predicate Consistent(s: Store) {
    Structure(s) && Linked(s, {}) && Grounded(s) && Justified(s) && Derived(s)
  }

  /** The invariant while an addition is in progress: the pairs in `exempt`
      still wait for their back-references. */
  ghost predicate Coherent(s: Store, exempt: set<(Ref, Support)>) {
    Structure(s) && Linked(s, exempt) && Grounded(s) && Justified(s) && Derived(s)
  }

  /** The (object, pair) combinations of `x` with each pair of `sb`. */
  function Pending(x: Ref, sb: seq<Support>): set<(Ref, Support)> {
    set p | p in sb :: (x, p)
  }

  /** No stored object represents `item`. */
  ghost predicate Absent(s: Store, item: Item) {
    forall x :: IsStored(s, x) ==> !Represents(s, x, item)
  }

  /** Two items with the same statement, or the same two sides. */
  predicate SameContent(a: Item, b: Item) {
    if a.FactItem? then b.FactItem? && b.statement == a.statement
    else b.RuleItem? && b.lhs == a.lhs && b.rhs == a.rhs
  }

  /** The pair `p` records a real inference step that yields `item`. */
  ghost predicate DerivesItem(s: Store, item: Item, p: Support) {
    p.fact < |s.factObjs| && p.rule < |s.ruleObjs| && |s.ruleObjs[p.rule].lhs| > 0 &&
    match Match(s.factObjs[p.fact].statement, s.ruleObjs[p.rule].lhs[0])
    case None => false
    case Some(b) => SameContent(Consequence(s, p.fact, p.rule, b), item)
  }

  /** An item `kb_add` can take: every justification names a stored fact and
      a stored rule and records the inference step that yields the item, and
      a rule has at least one premise (the inference step reads the first). */
  ghost predicate Admissible(s: Store, item: Item) {
    (forall p :: p in item.supportedBy ==>
      IsStored(s, FactRef(p.fact)) && IsStored(s, RuleRef(p.rule)) && DerivesItem(s, item, p)) &&
    (item.RuleItem? ==> |item.lhs| > 0)
  }

  /** From `s` to `t`, only the objects in `a` may have become asserted:
      every other object of `t` is asserted exactly when it is an asserted
      object of `s`, so an object new in `t` is unasserted. */
  ghost predicate AssertedOnly(s: Store, t: Store, a: set<Ref>) {
    forall y :: IsObj(t, y) && y !in a ==> (Asserted(t, y) <==> IsObj(s, y) && Asserted(s, y))
  }

  // ---------------------------------------------------------------------
  // Transitions

  /** Append a new fact object to the arena and to the fact list. */
  function AppendFact(s: Store, o: FactObj): Store {
    s.(factObjs := s.factObjs + [o], facts := s.facts + [|s.factObjs|])
  }

  function AppendRule(s: Store, o: RuleObj): Store {
    s.(ruleObjs := s.ruleObjs + [o], rules := s.rules + [|s.ruleObjs|])
  }

  /** The reference a newly appended item gets: the next free id of its kind. */
  function NextRef(s: Store, item: Item): Ref {
    if item.FactItem? then FactRef(|s.factObjs|) else RuleRef(|s.ruleObjs|)
  }

  /** Append a new object built from `item` to the arena and its collection. */
  function AppendNew(s: Store, item: Item): Store {
    if item.FactItem? then AppendFact(s, NewFact(item)) else AppendRule(s, NewRule(item))
  }

  function SetSupportedBy(s: Store, x: Ref, sb: seq<Support>): Store
    requires IsObj(s, x)
  {
    match x
    case FactRef(i) => s.(factObjs := s.factObjs[i := s.factObjs[i].(supportedBy := sb)])
    case RuleRef(i) => s.(ruleObjs := s.ruleObjs[i := s.ruleObjs[i].(supportedBy := sb)])
  }

  function SetAsserted(s: Store, x: Ref, a: bool): Store
    requires IsObj(s, x)
  {
    match x
    case FactRef(i) => s.(factObjs := s.factObjs[i := s.factObjs[i].(asserted := a)])
    case RuleRef(i) => s.(ruleObjs := s.ruleObjs[i := s.ruleObjs[i].(asserted := a)])
  }

  /** Append `y` to the matching back-reference list of `x`. */
  function AddDependent(s: Store, x: Ref, y: Ref): Store
    requires IsObj(s, x)
  {
    match x
    case FactRef(i) =>
      var o := s.factObjs[i];
      s.(factObjs := s.factObjs[i := if y.FactRef? then o.(supportsFacts := o.supportsFacts + [y.id])
                                     else o.(supportsRules := o.supportsRules + [y.id])])
    case RuleRef(i) =>
      var o := s.ruleObjs[i];
      s.(ruleObjs := s.ruleObjs[i := if y.FactRef? then o.(supportsFacts := o.supportsFacts + [y.id])
                                     else o.(supportsRules := o.supportsRules + [y.id])])
  }

  /** Adding an item equal to the stored object `x`: its justifications are
      appended to those of `x`, or, when it has none, `x` becomes asserted. */
  function Merge(s: Store, x: Ref, item: Item): Store
    requires IsObj(s, x)
  {
    if item.supportedBy == [] then SetAsserted(s, x, true)
    else SetSupportedBy(s, x, SupportedBy(s, x) + item.supportedBy)
  }

  /** Take `x` off its collection; the object itself stays in the arena. */
  function Unstore(s: Store, x: Ref): Store {
    match x
    case FactRef(i) => s.(facts := DropIds(s.facts, {i}))
    case RuleRef(i) => s.(rules := DropIds(s.rules, {i}))
  }

  function EraseFact(o: FactObj, gone: set<Ref>): FactObj {
    o.(supportedBy := Without(o.supportedBy, gone))
  }

  function EraseRule(o: RuleObj, gone: set<Ref>): RuleObj {
    o.(supportedBy := Without(o.supportedBy, gone))
  }

  /** The knowledge base after deleting every object in `gone`: each is taken
      off its collection and every justification pair naming one of them is
      dropped from every object. */
  function Erase(s: Store, gone: set<Ref>): Store {
    Store(
      seq(|s.factObjs|, i requires 0 <= i < |s.factObjs| => EraseFact(s.factObjs[i], gone)),
      seq(|s.ruleObjs|, i requires 0 <= i < |s.ruleObjs| => EraseRule(s.ruleObjs[i], gone)),
      DropIds(s.facts, FactIds(gone)),
      DropIds(s.rules, RuleIds(gone)))
  }

  /** `x` taken off its collection, and the pairs naming `x` dropped from the
      dependents in `done` (those the retraction sweep has visited so far). */
  function Detach(s: Store, x: Ref, done: seq<Ref>): Store {
    var t := Unstore(s, x);
    t.(factObjs := seq(|s.factObjs|, i requires 0 <= i < |s.factObjs| =>
                         if FactRef(i) in done then EraseFact(s.factObjs[i], {x}) else s.factObjs[i]),
       ruleObjs := seq(|s.ruleObjs|, i requires 0 <= i < |s.ruleObjs| =>
                         if RuleRef(i) in done then EraseRule(s.ruleObjs[i], {x}) else s.ruleObjs[i]))
  }

  /** `t` is `s` after adding: nothing is removed or reordered, statements and
      rule sides never change, justification and back-reference lists only
      grow at their ends, and an asserted object stays asserted. */
  ghost predicate Grows(s: Store, t: Store) {
    |s.factObjs| <= |t.factObjs| && |s.ruleObjs| <= |t.ruleObjs| &&
    s.facts <= t.facts && s.rules <= t.rules &&
    (forall i :: 0 <= i < |s.factObjs| ==>
      t.factObjs[i].statement == s.factObjs[i].statement &&
      (s.factObjs[i].asserted ==> t.factObjs[i].asserted) &&
      s.factObjs[i].supportedBy <= t.factObjs[i].supportedBy &&
      s.factObjs[i].supportsFacts <= t.factObjs[i].supportsFacts &&
      s.factObjs[i].supportsRules <= t.factObjs[i].supportsRules) &&
    (forall i :: 0 <= i < |s.ruleObjs| ==>
      t.ruleObjs[i].lhs == s.ruleObjs[i].lhs && t.ruleObjs[i].rhs == s.ruleObjs[i].rhs &&
      (s.ruleObjs[i].asserted ==> t.ruleObjs[i].asserted) &&
      s.ruleObjs[i].supportedBy <= t.ruleObjs[i].supportedBy &&
      s.ruleObjs[i].supportsFacts <= t.ruleObjs[i].supportsFacts &&
      s.ruleObjs[i].supportsRules <= t.ruleObjs[i].supportsRules)
  }

  // ---------------------------------------------------------------------
  // One inference step, as data

  /** What the inference step builds from fact `f` and rule `r` when the
      fact matches the rule's first premise with bindings `b`: a rule over the
      remaining premises, or, for a one-premise rule, a fact; both
      instantiated with `b` and justified by the single pair `[f, r]`. */
  function Consequence(s: Store, f: FactId, r: RuleId, b: Bindings): Item
    requires r < |s.ruleObjs| && |s.ruleObjs[r].lhs| > 0
  {
    var rule := s.ruleObjs[r];
    if |rule.lhs| > 1 then
      RuleItem(InstantiateAll(rule.lhs[1..], b), Instantiate(rule.rhs, b), [Support(f, r)])
    else
      FactItem(Instantiate(rule.rhs, b), [Support(f, r)])
  }

  /** The inference step for `f` and `r` has taken effect: either the fact
      does not match the rule's first premise, or a stored object equal to
      the consequence carries the pair `[f, r]` and is recorded as a
      dependent of both premises. */
  ghost predicate Fired(s: Store, f: FactId, r: RuleId)
    requires f < |s.factObjs| && r < |s.ruleObjs| && |s.ruleObjs[r].lhs| > 0
  {
    match Match(s.factObjs[f].statement, s.ruleObjs[r].lhs[0])
    case None => true
    case Some(b) =>
      exists d :: IsStored(s, d) && Represents(s, d, Consequence(s, f, r, b)) &&
        Support(f, r) in SupportedBy(s, d) &&
        d in Dependents(s, FactRef(f)) && d in Dependents(s, RuleRef(r))
  }

  /** What an inference step derives is the rule instantiated by bindings
      that turn its first premise into the (ground) fact: a fact for a
      one-premise rule, otherwise a rule with one premise fewer; either way
      justified by the single pair `[f, r]`. The rule itself is not changed. */
  lemma ConsequenceSound(s: Store, f: FactId, r: RuleId, b: Bindings)
    requires f < |s.factObjs| && r < |s.ruleObjs| && |s.ruleObjs[r].lhs| > 0
    requires IsGround(s.factObjs[f].statement)
    requires Match(s.factObjs[f].statement, s.ruleObjs[r].lhs[0]) == Some(b)
    ensures Instantiate(s.ruleObjs[r].lhs[0], b) == s.factObjs[f].statement
    ensures var c := Consequence(s, f, r, b); var rule := s.ruleObjs[r];
      c.supportedBy == [Support(f, r)] &&
      (|rule.lhs| == 1 ==> c.FactItem? && c.statement == Instantiate(rule.rhs, b)) &&
      (|rule.lhs| > 1 ==>
        c.RuleItem? && |c.lhs| == |rule.lhs| - 1 && c.rhs == Instantiate(rule.rhs, b) &&
        (forall k :: 0 <= k < |c.lhs| ==> c.lhs[k] == Instantiate(rule.lhs[k + 1], b)))
  {
    MatchGroundPattern(s.factObjs[f].statement, s.ruleObjs[r].lhs[0]);
  }

  /** Every inference step between `x` and the opposite collection has taken
      effect: against every stored rule for a fact, against every stored fact
      for a rule. */
  ghost predicate Saturated(s: Store, x: Ref)
    requires InRange(s) && IsObj(s, x)
  {
    match x
    case FactRef(f) => forall r :: r in s.rules ==> Fired(s, f, r)
    case RuleRef(r) => forall f :: f in s.facts ==> Fired(s, f, r)
  }

  /** The step of fact `f` with rule `r`, taken from `s` to `t`, saturated
      what it added: when its consequence was not stored in `s`, the object
      appended for it has taken every step with the opposite collection. */
  ghost predicate ConsequenceSaturated(s: Store, t: Store, f: FactId, r: RuleId)
    requires InRange(t) && f < |s.factObjs| && r < |s.ruleObjs| && |s.ruleObjs[r].lhs| > 0
  {
    match Match(s.factObjs[f].statement, s.ruleObjs[r].lhs[0])
    case None => true
    case Some(b) =>
      var c := Consequence(s, f, r, b);
      Absent(s, c) ==> IsObj(t, NextRef(s, c)) && Saturated(t, NextRef(s, c))
  }

  /** Every inference step between a stored fact and a stored rule has taken
      effect, except the (fact, rule) steps in `todo`: those an inference
      loop still in progress has yet to reach. */
  ghost predicate ClosedExcept(s: Store, todo: set<(FactId, RuleId)>)
    requires InRange(s)
  {
    forall f, r :: f in s.facts && r in s.rules && (f, r) !in todo ==> Fired(s, f, r)
  }

  /** The knowledge base is closed under forward chaining: every step
      between a stored fact and a stored rule has taken effect. */
  ghost predicate Closed(s: Store)
    requires InRange(s)
  {
    ClosedExcept(s, {})
  }

  /** The steps of fact `f` with each rule of `rs`. */
  function StepsOfFact(f: FactId, rs: seq<RuleId>): set<(FactId, RuleId)> {
    set r | r in rs :: (f, r)
  }

  /** The steps of each fact of `fs` with rule `r`. */
  function StepsOfRule(fs: seq<FactId>, r: RuleId): set<(FactId, RuleId)> {
    set f | f in fs :: (f, r)
  }

  // ---------------------------------------------------------------------
  // Asking, as data

  datatype Answer = Answer(bindings: Bindings, fact: FactId)

  /** One answer per fact in `ids` whose statement the query matches, in the
      order of `ids`. */
  function AnswersFrom(s: Store, q: Statement, ids: seq<FactId>): (r: seq<Answer>)
    requires IdsIn(ids, |s.factObjs|)
    ensures |r| <= |ids|
    ensures forall k :: 0 <= k < |r| ==>
      r[k].fact in ids && Match(q, s.factObjs[r[k].fact].statement) == Some(r[k].bindings)
    ensures forall i :: i in ids && Match(q, s.factObjs[i].statement).Some? ==>
      exists k :: 0 <= k < |r| && r[k].fact == i
  {
    if ids == [] then []
    else
      assert ids[0] in ids && forall i :: i in ids[1..] ==> i in ids;
      var rest := AnswersFrom(s, q, ids[1..]);
      match Match(q, s.factObjs[ids[0]].statement)
      case None =>
        assert forall i :: i in ids && i != ids[0] ==> i in ids[1..];
        rest
      case Some(b) =>
        var r := [Answer(b, ids[0])] + rest;
        assert forall k :: 1 <= k < |r| ==> r[k] == rest[k - 1];
        forall i | i in ids && Match(q, s.factObjs[i].statement).Some?
          ensures exists k :: 0 <= k < |r| && r[k].fact == i
        {
          if i == ids[0] {
            assert r[0].fact == i;
          } else {
            assert i in ids[1..];
            var k :| 0 <= k < |rest| && rest[k].fact == i;
            assert r[k + 1].fact == i;
          }
        }
        r
  }

  /** Asking over one more fact appends that fact's answer, if any: answers
      come in storage order. */
  lemma {:induction false} AnswersSnoc(s: Store, q: Statement, ids: seq<FactId>, i: FactId)
    requires IdsIn(ids, |s.factObjs|) && i < |s.factObjs|
    ensures IdsIn(ids + [i], |s.factObjs|)
    ensures AnswersFrom(s, q, ids + [i]) == AnswersFrom(s, q, ids) +
      (match Match(q, s.factObjs[i].statement)
       case None => []
       case Some(b) => [Answer(b, i)])
  {
    assert forall j :: j in ids + [i] ==> j in ids || j == i;
    if ids != [] {
      assert (ids + [i])[1..] == ids[1..] + [i];
      assert forall j :: j in ids[1..] ==> j in ids;
      AnswersSnoc(s, q, ids[1..], i);
    } else {
      assert ids + [i] == [i];
    }
  }
}
