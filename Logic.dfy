// Terms, statements, bindings, pattern matching and instantiation: the
// statement layer the knowledge base is built on.  The repository's own
// `util` and `logical_classes` modules are not part of this model; this
// module gives them a self-written definition with the contract the
// knowledge base relies on.

module Wrappers {
  datatype Option<T> = None | Some(value: T)
}

module Logic {
  import opened Wrappers

  /** An atomic term: a constant symbol or a named variable. */
  datatype Term = Constant(symbol: string) | Variable(name: string)

  /** A predicate applied to an ordered list of terms. Equality is structural. */
  datatype Statement = Statement(pred: string, terms: seq<Term>)

  /** A predicate applied to a single term. */
  function Unary(pred: string, t: Term): Statement {
    Statement(pred, [t])
  }

  /** Variable name to the term it is bound to. */
  type Bindings = map<string, Term>

  predicate IsGround(s: Statement) {
    forall i :: 0 <= i < |s.terms| ==> s.terms[i].Constant?
  }

  /** `b` extends `a`: every binding of `a` is also in `b`. */
  predicate Extends(b: Bindings, a: Bindings) {
    forall v :: v in a ==> v in b && b[v] == a[v]
  }

  /** Bind variable `v` to `t`, or check a binding that already exists. */
  function TestAndBind(b: Bindings, v: string, t: Term): (r: Option<Bindings>)
    ensures r.Some? <==> (v in b ==> b[v] == t)
    ensures r.Some? ==> Extends(r.value, b) && v in r.value && r.value[v] == t
  {
    if v in b then (if b[v] == t then Some(b) else None) else Some(b[v := t])
  }

  /** The argument pair `p`, `c` is reconciled by `b`: a variable on the pattern
      side is bound to the candidate's term; otherwise a variable on the
      candidate side is bound to the pattern's term; two constants are equal. */
  predicate Agree(p: Term, c: Term, b: Bindings) {
    if p.Variable? then p.name in b && b[p.name] == c
    else if c.Variable? then c.name in b && b[c.name] == p
    else p == c
  }

  predicate AgreeAll(ps: seq<Term>, cs: seq<Term>, b: Bindings)
    requires |ps| == |cs|
  {
    forall i :: 0 <= i < |ps| ==> Agree(ps[i], cs[i], b)
  }

  /** One matching step on a pair of terms. */
  function MatchTerm(p: Term, c: Term, b: Bindings): Option<Bindings> {
    if p.Variable? then TestAndBind(b, p.name, c)
    else if c.Variable? then TestAndBind(b, c.name, p)
    else if p == c then Some(b)
    else None
  }

  /** Walk the argument lists left to right, threading the bindings. */
  function MatchTerms(ps: seq<Term>, cs: seq<Term>, b: Bindings): Option<Bindings>
    requires |ps| == |cs|
    decreases |ps|
  {
    if |ps| == 0 then Some(b)
    else
      match MatchTerm(ps[0], cs[0], b)
      case None => None
      case Some(b') => MatchTerms(ps[1..], cs[1..], b')
  }

  /** Match `pattern` against `candidate`: predicates and arities must agree,
      and every variable, on either side, is bound consistently. */
  function Match(pattern: Statement, candidate: Statement): (r: Option<Bindings>)
    ensures r.Some? ==> pattern.pred == candidate.pred
    ensures r.Some? ==> |pattern.terms| == |candidate.terms|
  {
    if |pattern.terms| != |candidate.terms| || pattern.pred != candidate.pred then None
    else MatchTerms(pattern.terms, candidate.terms, map[])
  }

  function Substitute(t: Term, b: Bindings): Term {
    if t.Variable? && t.name in b then b[t.name] else t
  }

  /** Replace every bound variable of `s` with its value; unbound variables
      and constants stay as they are. The shape is kept, a ground statement
      is left alone, and binding every variable to a constant grounds it. */
  function Instantiate(s: Statement, b: Bindings): (r: Statement)
    ensures r.pred == s.pred && |r.terms| == |s.terms|
    ensures IsGround(s) ==> r == s
    ensures (forall i :: 0 <= i < |s.terms| && s.terms[i].Variable? ==>
               s.terms[i].name in b && b[s.terms[i].name].Constant?) ==> IsGround(r)
  {
    Statement(s.pred, seq(|s.terms|, i requires 0 <= i < |s.terms| => Substitute(s.terms[i], b)))
  }

  /** Instantiate each statement of a conjunction: as many statements, each
      with its predicate and arity, and a ground conjunction left alone. */
  function InstantiateAll(ss: seq<Statement>, b: Bindings): (r: seq<Statement>)
    ensures |r| == |ss|
    ensures forall i :: 0 <= i < |ss| ==> r[i].pred == ss[i].pred && |r[i].terms| == |ss[i].terms|
    ensures (forall i :: 0 <= i < |ss| ==> IsGround(ss[i])) ==> r == ss
  {
    seq(|ss|, i requires 0 <= i < |ss| => Instantiate(ss[i], b))
  }

  // ---------------------------------------------------------------------
  // Properties of matching

  lemma {:induction false} MatchTermsSound(ps: seq<Term>, cs: seq<Term>, b0: Bindings, b: Bindings)
    requires |ps| == |cs| && MatchTerms(ps, cs, b0) == Some(b)
    ensures Extends(b, b0) && AgreeAll(ps, cs, b)
    decreases |ps|
  {
    if |ps| > 0 {
      var b' := MatchTerm(ps[0], cs[0], b0).value;
      MatchTermsSound(ps[1..], cs[1..], b', b);
      assert Agree(ps[0], cs[0], b');
      forall i | 0 <= i < |ps| ensures Agree(ps[i], cs[i], b) {
        if i > 0 { assert ps[i] == ps[1..][i - 1] && cs[i] == cs[1..][i - 1]; }
      }
    }
  }

  lemma {:induction false} MatchTermsComplete(ps: seq<Term>, cs: seq<Term>, b0: Bindings, b: Bindings)
    requires |ps| == |cs| && Extends(b, b0) && AgreeAll(ps, cs, b)
    ensures MatchTerms(ps, cs, b0).Some? && Extends(b, MatchTerms(ps, cs, b0).value)
    decreases |ps|
  {
    if |ps| > 0 {
      assert Agree(ps[0], cs[0], b);
      var step := MatchTerm(ps[0], cs[0], b0);
      assert step.Some? && Extends(b, step.value);
      assert AgreeAll(ps[1..], cs[1..], b) by {
        forall i | 0 <= i < |ps| - 1 ensures Agree(ps[1..][i], cs[1..][i], b) {
          assert Agree(ps[i + 1], cs[i + 1], b);
        }
      }
      MatchTermsComplete(ps[1..], cs[1..], step.value, b);
    }
  }

  /** Soundness: the bindings a successful match returns reconcile every
      argument pair. */
  lemma MatchSound(pattern: Statement, candidate: Statement)
    requires Match(pattern, candidate).Some?
    ensures AgreeAll(pattern.terms, candidate.terms, Match(pattern, candidate).value)
  {
    MatchTermsSound(pattern.terms, candidate.terms, map[], Match(pattern, candidate).value);
  }

  /** Completeness and generality: whenever some bindings reconcile two
      statements with the same predicate and arity, the match succeeds and
      its bindings are contained in them. */
  lemma MatchComplete(pattern: Statement, candidate: Statement, b: Bindings)
    requires pattern.pred == candidate.pred && |pattern.terms| == |candidate.terms|
    requires AgreeAll(pattern.terms, candidate.terms, b)
    ensures Match(pattern, candidate).Some?
    ensures Extends(b, Match(pattern, candidate).value)
  {
    MatchTermsComplete(pattern.terms, candidate.terms, map[], b);
  }

  /** Matching a ground fact against a rule premise: instantiating the premise
      with the bindings gives the fact back. */
  lemma MatchGroundPattern(pattern: Statement, candidate: Statement)
    requires IsGround(pattern) && Match(pattern, candidate).Some?
    ensures Instantiate(candidate, Match(pattern, candidate).value) == pattern
  {
    var b := Match(pattern, candidate).value;
    MatchSound(pattern, candidate);
    var r := Instantiate(candidate, b);
    forall i | 0 <= i < |pattern.terms| ensures r.terms[i] == pattern.terms[i] {
      assert Agree(pattern.terms[i], candidate.terms[i], b);
    }
  }

  /** Matching a query against a ground stored fact: instantiating the query
      with the bindings gives the stored fact. */
  lemma MatchGroundCandidate(pattern: Statement, candidate: Statement)
    requires IsGround(candidate) && Match(pattern, candidate).Some?
    ensures Instantiate(pattern, Match(pattern, candidate).value) == candidate
  {
    var b := Match(pattern, candidate).value;
    MatchSound(pattern, candidate);
    var r := Instantiate(pattern, b);
    forall i | 0 <= i < |pattern.terms| ensures r.terms[i] == candidate.terms[i] {
      assert Agree(pattern.terms[i], candidate.terms[i], b);
    }
  }

  /** For a ground fact, matching succeeds exactly when some instance of the
      premise is the fact. */
  lemma MatchGroundIff(fact: Statement, premise: Statement)
    requires IsGround(fact)
    ensures Match(fact, premise).Some? <==> exists b :: Instantiate(premise, b) == fact
  {
    if Match(fact, premise).Some? {
      MatchGroundPattern(fact, premise);
    }
    if exists b :: Instantiate(premise, b) == fact {
      var b :| Instantiate(premise, b) == fact;
      forall i | 0 <= i < |fact.terms| ensures Agree(fact.terms[i], premise.terms[i], b) {
        assert Substitute(premise.terms[i], b) == fact.terms[i];
      }
      MatchComplete(fact, premise, b);
    }
  }
}
