/**
 * The lambda-calculus reactor of `src/lambda/lambda.rs`: the shape tests on
 * terms, reduction under a step and a size limit, the collision of two
 * expressions under every reaction rule, and the soup's population
 * updates.  The `lambda_calculus` crate's one-step reduction, term size,
 * isomorphism test and free-variable test are parameters (`Crate`).
 */
module Lambda {
  import opened Wrappers

  /** A term in de Bruijn notation, as the crate's `Term`. */
  datatype Term = Var(index: nat) | Abs(body: Term) | App(fun: Term, arg: Term)

  /** The crate operations the reactor calls: one head-applicative
      reduction step (None when no redex is left), `size`,
      `is_isomorphic_to` and `has_free_variables`. */
  datatype Crate = Crate(
    step: Term -> Option<Term>,
    size: Term -> nat,
    isomorphic: (Term, Term) -> bool,
    hasFreeVariables: Term -> bool)

  datatype CollisionError =
    | ExceedsReductionLimit
    | NotEnoughExpressions
    | IsIdentity
    | IsParent
    | HasFreeVariables
    | ExceedsDepthLimit
    | BadArgument

  // ------------------------------------------------------------ shapes

  /** The number of abstractions a term starts with. */
  function AbsDepth(t: Term): nat {
    if t.Abs? then 1 + AbsDepth(t.body) else 0
  }

  /** What is left under a term's leading abstractions. */
  function Core(t: Term): Term {
    if t.Abs? then Core(t.body) else t
  }

  /** `has_two_args`: the term starts with two abstractions. */
  function HasTwoArgs(t: Term): (r: bool)
    ensures r <==> AbsDepth(t) >= 2
  {
    match t
    case Abs(body) => body.Abs?
    case _ => false
  }

  /** `is_truthy`, as written: recursion under the first abstraction. */
  function IsTruthy(t: Term): bool {
    match t
    case Abs(body) => (body.Abs? && body.body.Var?) || IsTruthy(body)
    case _ => false
  }

  /** A term is truthy exactly when it is two or more abstractions around a
      variable, `λx1. … λxn. v` with n ≥ 2; so a truthy term takes two
      arguments, and no term but an abstraction is truthy. */
  lemma {:induction false} IsTruthySpec(t: Term)
    ensures IsTruthy(t) <==> AbsDepth(t) >= 2 && Core(t).Var?
    ensures IsTruthy(t) ==> HasTwoArgs(t)
    ensures !t.Abs? ==> !IsTruthy(t)
  {
    if t.Abs? {
      IsTruthySpec(t.body);
      if t.body.Abs? {
        assert AbsDepth(t.body) == 1 + AbsDepth(t.body.body) && Core(t.body) == Core(t.body.body);
      }
    }
  }

  // ------------------------------------------------------------ reduction

  /** The term after `k` successful steps, or None when a normal form is
      reached before. */
  function Iterate(ops: Crate, e: Term, k: nat): Option<Term>
    decreases k
  {
    if k == 0 then Some(e)
    else
      match ops.step(e)
      case None => None
      case Some(next) => Iterate(ops, next, k - 1)
  }

  /** What `reduce_with_limit` leaves in `expr` and returns: up to `rlimit`
      steps, stopping at a normal form, and failing as soon as a step
      leaves a term larger than `slimit`. */
  function Reduction(ops: Crate, e: Term, rlimit: nat, slimit: nat): (Term, Result<nat, CollisionError>)
    decreases rlimit
  {
    if rlimit == 0 then (e, Ok(0))
    else
      match ops.step(e)
      case None => (e, Ok(0))
      case Some(next) =>
        if ops.size(next) > slimit then (next, Err(ExceedsDepthLimit))
        else Counted(Reduction(ops, next, rlimit - 1, slimit))
  }

  /** One more successful step in front of a reduction. */
  function Counted(p: (Term, Result<nat, CollisionError>)): (Term, Result<nat, CollisionError>) {
    (p.0, if p.1.Ok? then Ok(p.1.value + 1) else p.1)
  }

  function CountedBy(n: nat, p: (Term, Result<nat, CollisionError>)): (Term, Result<nat, CollisionError>) {
    (p.0, if p.1.Ok? then Ok(p.1.value + n) else p.1)
  }

  /** `reduce_with_limit`: reduces `expr` in place step by step. */
  method ReduceWithLimit(ops: Crate, expr: Term, rlimit: nat, slimit: nat)
    returns (out: Term, r: Result<nat, CollisionError>)
    ensures (out, r) == Reduction(ops, expr, rlimit, slimit)
  {
    out := expr;
    var n := 0;
    for i := 0 to rlimit
      invariant n == i
      invariant Reduction(ops, expr, rlimit, slimit) == CountedBy(n, Reduction(ops, out, rlimit - i, slimit))
    {
      var next := ops.step(out);
      if next.None? {
        return out, Ok(n);
      }
      out := next.value;
      if ops.size(out) > slimit {
        return out, Err(ExceedsDepthLimit);
      }
      n := n + 1;
    }
    return out, Ok(n);
  }

  /** Whether the first `k` steps from `e` all succeed and stay within the
      size limit. */
  predicate WithinSize(ops: Crate, e: Term, k: nat, slimit: nat) {
    forall j :: 1 <= j <= k ==> Iterate(ops, e, j).Some? && ops.size(Iterate(ops, e, j).value) <= slimit
  }

  /** `reduce_with_limit` returns `Ok(n)` with `n ≤ rlimit` after `n`
      successful steps, all within the size limit, and stops early only at
      a normal form; it fails with ExceedsDepthLimit exactly when one of the
      first `rlimit` steps leaves a term larger than `slimit`, and that
      step is not counted.  With no steps allowed the term is unchanged. */
  lemma {:induction false} ReductionSpec(ops: Crate, e: Term, rlimit: nat, slimit: nat)
    ensures var (out, r) := Reduction(ops, e, rlimit, slimit);
      && (rlimit == 0 ==> out == e && r == Ok(0))
      && (r.Ok? ==>
            && r.value <= rlimit
            && Iterate(ops, e, r.value) == Some(out)
            && WithinSize(ops, e, r.value, slimit)
            && (r.value < rlimit ==> ops.step(out).None?))
      && (r.Err? ==>
            && r.error == ExceedsDepthLimit
            && exists k :: 1 <= k <= rlimit && WithinSize(ops, e, k - 1, slimit) && Iterate(ops, e, k) == Some(out)
                           && ops.size(out) > slimit)
    decreases rlimit
  {
    if rlimit > 0 && ops.step(e).Some? {
      var next := ops.step(e).value;
      if ops.size(next) <= slimit {
        ReductionSpec(ops, next, rlimit - 1, slimit);
        var (out, r) := Reduction(ops, next, rlimit - 1, slimit);
        if r.Ok? {
          assert Iterate(ops, e, r.value + 1) == Iterate(ops, next, r.value);
          forall j | 1 <= j <= r.value + 1
            ensures Iterate(ops, e, j).Some? && ops.size(Iterate(ops, e, j).value) <= slimit
          {
            assert Iterate(ops, e, j) == Iterate(ops, next, j - 1);
          }
        } else {
          var k :| 1 <= k <= rlimit - 1 && WithinSize(ops, next, k - 1, slimit) && Iterate(ops, next, k) == Some(out)
                   && ops.size(out) > slimit;
          assert Iterate(ops, e, k + 1) == Iterate(ops, next, k);
          forall j | 1 <= j <= k
            ensures Iterate(ops, e, j).Some? && ops.size(Iterate(ops, e, j).value) <= slimit
          {
            assert Iterate(ops, e, j) == Iterate(ops, next, j - 1);
          }
        }
      } else {
        assert Iterate(ops, e, 1) == Some(next);
      }
    }
  }

  /** The converse of the failure case: when every step that happens stays
      within the size limit, the reduction does not fail. */
  lemma {:induction false} ReductionSucceeds(ops: Crate, e: Term, rlimit: nat, slimit: nat)
    requires forall j :: 1 <= j <= rlimit && Iterate(ops, e, j).Some? ==> ops.size(Iterate(ops, e, j).value) <= slimit
    ensures Reduction(ops, e, rlimit, slimit).1.Ok?
    decreases rlimit
  {
    if rlimit > 0 && ops.step(e).Some? {
      var next := ops.step(e).value;
      assert Iterate(ops, e, 1) == Some(next);
      forall j | 1 <= j <= rlimit - 1 && Iterate(ops, next, j).Some?
        ensures ops.size(Iterate(ops, next, j).value) <= slimit
      {
        assert Iterate(ops, e, j + 1) == Iterate(ops, next, j);
      }
      ReductionSucceeds(ops, next, rlimit - 1, slimit);
    }
  }

  // ------------------------------------------------------------ collisions

  /** The settings of an `AlchemyCollider`. */
  datatype Collider = Collider(
    rlimit: nat,
    slimit: nat,
    disallowRecursive: bool,
    rules: seq<Term>,
    discardCopyActions: bool,
    discardIdentity: bool,
    discardFreeVariableExpressions: bool)

  /** What a successful collision reports.  `reductions` holds the sizes of
      the results and `sizes` the step counts: the source fills them
      crosswise. */
  datatype CollisionOk = CollisionOk(
    results: seq<Term>,
    reductions: seq<nat>,
    sizes: seq<nat>,
    leftSize: nat,
    rightSize: nat)

  /** `λ.1`, the identity. */
  const Identity: Term := Abs(Var(1))

  /** `Particle::compose`: applying one expression to another. */
  function Compose(a: Term, b: Term): Term {
    App(a, b)
  }

  /** The checks `collide` makes on one rule, in order: the reduction of
      `((rule left) right)` must not fail, must stop before the step limit,
      and must not give (when discarded) the identity, a copy of a parent
      or a term with free variables.  On success: the reduced term, its
      size and the step count. */
  function RuleOutcome(ops: Crate, c: Collider, lt: Term, rt: Term, rule: Term): Result<(Term, nat, nat), CollisionError> {
    var (expr, r) := Reduction(ops, Compose(Compose(rule, lt), rt), c.rlimit, c.slimit);
    if r.Err? then Err(r.error)
    else
      var n := r.value;
      var size := ops.size(expr);
      if n == c.rlimit then Err(ExceedsReductionLimit)
      else if ops.isomorphic(expr, Identity) && c.discardIdentity then Err(IsIdentity)
      else if (ops.isomorphic(expr, lt) || ops.isomorphic(expr, rt)) && c.discardCopyActions then Err(IsParent)
      else if ops.hasFreeVariables(expr) && c.discardFreeVariableExpressions then Err(HasFreeVariables)
      else Ok((expr, size, n))
  }

  /** A rule that gets through the checks gives the normal form of
      `((rule left) right)`, reached in fewer steps than the limit without
      exceeding the size limit, and not discarded by any enabled filter. */
  lemma RuleOutcomeSpec(ops: Crate, c: Collider, lt: Term, rt: Term, rule: Term)
    ensures var o := RuleOutcome(ops, c, lt, rt, rule);
      && (o.Ok? ==>
            var (e, size, n) := o.value;
            && n < c.rlimit
            && size == ops.size(e)
            && Iterate(ops, App(App(rule, lt), rt), n) == Some(e)
            && ops.step(e).None?
            && WithinSize(ops, App(App(rule, lt), rt), n, c.slimit)
            && !(c.discardIdentity && ops.isomorphic(e, Identity))
            && !(c.discardCopyActions && (ops.isomorphic(e, lt) || ops.isomorphic(e, rt)))
            && !(c.discardFreeVariableExpressions && ops.hasFreeVariables(e)))
      && (c.rlimit == 0 ==> o == Err(ExceedsReductionLimit))
  {
    ReductionSpec(ops, App(App(rule, lt), rt), c.rlimit, c.slimit);
  }

  /** `AlchemyCollider::collide`: every rule in order, the first failing
      check aborting the whole collision. */
  method Collide(ops: Crate, c: Collider, lt: Term, rt: Term) returns (r: Result<CollisionOk, CollisionError>)
    ensures r.Ok? <==> forall i :: 0 <= i < |c.rules| ==> RuleOutcome(ops, c, lt, rt, c.rules[i]).Ok?
    ensures r.Err? ==>
              exists k :: 0 <= k < |c.rules| && RuleOutcome(ops, c, lt, rt, c.rules[k]) == Err(r.error)
                          && forall j :: 0 <= j < k ==> RuleOutcome(ops, c, lt, rt, c.rules[j]).Ok?
    ensures r.Ok? ==>
              && |r.value.results| == |r.value.reductions| == |r.value.sizes| == |c.rules|
              && Count(r.value) == |c.rules|
              && r.value.leftSize == ops.size(lt) && r.value.rightSize == ops.size(rt)
              && forall i :: 0 <= i < |c.rules| ==>
                   var o := RuleOutcome(ops, c, lt, rt, c.rules[i]).value;
                   && r.value.results[i] == o.0
                   && r.value.reductions[i] == o.1
                   && r.value.sizes[i] == o.2
  {
    var collisionResults: seq<(Term, nat, nat)> := [];
    for i := 0 to |c.rules|
      invariant |collisionResults| == i
      invariant forall j :: 0 <= j < i ==>
                  RuleOutcome(ops, c, lt, rt, c.rules[j]) == Ok(collisionResults[j])
    {
      var rule := c.rules[i];
      var expr, reduced := ReduceWithLimit(ops, Compose(Compose(rule, lt), rt), c.rlimit, c.slimit);
      if reduced.Err? {
        return Err(reduced.error);
      }
      var n := reduced.value;
      var size := ops.size(expr);
      if n == c.rlimit {
        return Err(ExceedsReductionLimit);
      }
      if ops.isomorphic(expr, Identity) && c.discardIdentity {
        return Err(IsIdentity);
      }
      var isCopyAction := ops.isomorphic(expr, lt) || ops.isomorphic(expr, rt);
      if isCopyAction && c.discardCopyActions {
        return Err(IsParent);
      }
      if ops.hasFreeVariables(expr) && c.discardFreeVariableExpressions {
        return Err(HasFreeVariables);
      }
      collisionResults := collisionResults + [(expr, size, n)];
    }
    r := Ok(CollisionOk(
      seq(|collisionResults|, i requires 0 <= i < |collisionResults| => collisionResults[i].0),
      seq(|collisionResults|, i requires 0 <= i < |collisionResults| => collisionResults[i].1),
      seq(|collisionResults|, i requires 0 <= i < |collisionResults| => collisionResults[i].2),
      ops.size(lt),
      ops.size(rt)));
  }

  /** With no reduction steps allowed, every collision under at least one
      rule fails with ExceedsReductionLimit, whatever the terms. */
  lemma ZeroLimitNeverCollides(ops: Crate, c: Collider, lt: Term, rt: Term)
    requires c.rlimit == 0 && |c.rules| >= 1
    ensures RuleOutcome(ops, c, lt, rt, c.rules[0]) == Err(ExceedsReductionLimit)
  {
    RuleOutcomeSpec(ops, c, lt, rt, c.rules[0]);
  }

  /** `Residue::count`: the number of results. */
  function Count(ok: CollisionOk): nat {
    |ok.results|
  }

  // ------------------------------------------------------------ the soup

  /** The `config::Reactor` fields the soup reads; the rules already parsed. */
  datatype Reactor = Reactor(
    reductionCutoff: nat,
    sizeCutoff: nat,
    rules: seq<Term>,
    discardCopyActions: bool,
    discardIdentity: bool,
    discardFreeVariableExpressions: bool,
    maintainConstantPopulationSize: bool,
    discardParents: bool)

  function ColliderOf(cfg: Reactor): Collider {
    Collider(cfg.reductionCutoff, cfg.sizeCutoff, false, cfg.rules, cfg.discardCopyActions,
             cfg.discardIdentity, cfg.discardFreeVariableExpressions)
  }

  /** `Vec::swap_remove`: the last element takes the place of the removed
      one. */
  function SwapRemove(s: seq<Term>, k: nat): (r: seq<Term>)
    requires k < |s|
    ensures |r| == |s| - 1
    ensures multiset(r) + multiset{s[k]} == multiset(s)
    ensures forall i :: 0 <= i < |r| && i != k ==> r[i] == s[i]
  {
    var last := |s| - 1;
    if k == last then
      assert s == s[..last] + [s[last]];
      s[..last]
    else
      MoveLastInto(s, k);
      s[..k] + [s[last]] + s[k + 1..last]
  }

  /** Moving the last element into slot `k` drops exactly `s[k]` and keeps
      every other slot below the last. */
  lemma MoveLastInto(s: seq<Term>, k: nat)
    requires k < |s| - 1
    ensures multiset(s[..k] + [s[|s| - 1]] + s[k + 1..|s| - 1]) + multiset{s[k]} == multiset(s)
    ensures forall i :: 0 <= i < |s| - 1 && i != k ==> (s[..k] + [s[|s| - 1]] + s[k + 1..|s| - 1])[i] == s[i]
  {
    var last := |s| - 1;
    var r := s[..k] + [s[last]] + s[k + 1..last];
    assert s == s[..k] + [s[k]] + (s[k + 1..last] + [s[last]]);
    calc {
      multiset(r) + multiset{s[k]};
      multiset(s[..k]) + multiset{s[last]} + multiset(s[k + 1..last]) + multiset{s[k]};
      multiset(s[..k]) + multiset{s[k]} + (multiset(s[k + 1..last]) + multiset{s[last]});
      multiset(s);
    }
    forall i | 0 <= i < last && i != k
      ensures r[i] == s[i]
    {
      if i > k {
        assert r[i] == s[k + 1..last][i - k - 1];
      }
    }
  }

  /** `cycle().take(n)`: the first `n` items of the inputs repeated; none
      when there are no inputs. */
  function Cycled(inputs: seq<Term>, n: nat): (r: seq<Term>)
    ensures |r| == if inputs == [] then 0 else n
    ensures inputs != [] ==> forall i :: 0 <= i < n ==> r[i] == inputs[i % |inputs|]
  {
    if inputs == [] then [] else seq(n, i requires 0 <= i < n => inputs[i % |inputs|])
  }

  /** The removals of `perturb_lambda_expressions`: each draw picks an
      index below the current length. */
  function SwapRemoves(s: seq<Term>, draws: seq<nat>): (r: seq<Term>)
    requires |draws| <= |s|
    ensures |r| == |s| - |draws|
    ensures multiset(r) <= multiset(s)
  {
    if draws == [] then s
    else
      var before := SwapRemoves(s, draws[..|draws| - 1]);
      SwapRemove(before, draws[|draws| - 1] % |before|)
  }

  /** How many terms of `s` are isomorphic to `item`. */
  function CountIsomorphic(ops: Crate, s: seq<Term>, item: Term): (r: nat)
    ensures r <= |s|
  {
    if s == [] then 0
    else (if ops.isomorphic(s[0], item) then 1 else 0) + CountIsomorphic(ops, s[1..], item)
  }

  /** Adding expressions adds their isomorphic copies to every population
      count. */
  lemma {:induction false} CountIsomorphicAppend(ops: Crate, s: seq<Term>, t: seq<Term>, item: Term)
    ensures CountIsomorphic(ops, s + t, item) == CountIsomorphic(ops, s, item) + CountIsomorphic(ops, t, item)
  {
    if s == [] {
      assert s + t == t;
    } else {
      assert (s + t)[1..] == s[1..] + t;
      CountIsomorphicAppend(ops, s[1..], t, item);
    }
  }

  /** `LambdaSoup`: the population of expressions and the reactor settings;
      the random generator is replaced by the draws passed in. */
  class LambdaSoup {
    var expressions: seq<Term>
    var collider: Collider
    var maintainConstantPopulationSize: bool
    var discardParents: bool
    var nCollisions: nat

    /** `from_config`: an empty soup with the reactor's settings. */
    constructor FromConfig(cfg: Reactor)
      ensures expressions == [] && nCollisions == 0
      ensures collider == ColliderOf(cfg)
      ensures maintainConstantPopulationSize == cfg.maintainConstantPopulationSize
      ensures discardParents == cfg.discardParents
    {
      expressions := [];
      collider := ColliderOf(cfg);
      maintainConstantPopulationSize := cfg.maintainConstantPopulationSize;
      discardParents := cfg.discardParents;
      nCollisions := 0;
    }

    /** `add_lambda_expressions`: appends in order. */
    method AddLambdaExpressions(terms: seq<Term>)
      modifies this
      ensures expressions == old(expressions) + terms
      ensures collider == old(collider) && nCollisions == old(nCollisions)
      ensures maintainConstantPopulationSize == old(maintainConstantPopulationSize)
      ensures discardParents == old(discardParents)
    {
      expressions := expressions + terms;
    }

    /** `perturb_lambda_expressions`: when the population size is kept,
        first `nterms` random elements are swap-removed (`draws` are the
        random numbers, each taken modulo the current length; the source
        panics on an empty range, so the population must hold `nterms`);
        then the first `nterms` of the inputs, cycled, are appended. */
    method PerturbLambdaExpressions(nterms: nat, inputs: seq<Term>, draws: seq<nat>)
      requires maintainConstantPopulationSize ==> |draws| == nterms <= |expressions|
      modifies this
      ensures old(maintainConstantPopulationSize) ==>
                expressions == SwapRemoves(old(expressions), draws) + Cycled(inputs, nterms)
      ensures !old(maintainConstantPopulationSize) ==> expressions == old(expressions) + Cycled(inputs, nterms)
      ensures collider == old(collider) && nCollisions == old(nCollisions)
      ensures maintainConstantPopulationSize == old(maintainConstantPopulationSize)
      ensures discardParents == old(discardParents)
    {
      if maintainConstantPopulationSize {
        for i := 0 to nterms
          invariant expressions == SwapRemoves(old(expressions), draws[..i])
          invariant collider == old(collider) && nCollisions == old(nCollisions)
          invariant maintainConstantPopulationSize == old(maintainConstantPopulationSize)
          invariant discardParents == old(discardParents)
        {
          assert draws[..i + 1][..i] == draws[..i];
          var k := draws[i] % |expressions|;
          expressions := SwapRemove(expressions, k);
        }
        assert draws[..nterms] == draws;
      }
      AddLambdaExpressions(Cycled(inputs, nterms));
    }

    /** `population_of`: how many expressions are isomorphic to `item`. */
    function PopulationOf(ops: Crate, item: Term): (r: nat)
      reads this
      ensures r <= |expressions|
    {
      CountIsomorphic(ops, expressions, item)
    }
  }

  /** Perturbing keeps the population size when it is meant to and there
      are inputs, and otherwise grows it by the inputs taken; without
      removals the old expressions are untouched. */
  lemma PerturbSizes(population: seq<Term>, nterms: nat, inputs: seq<Term>, draws: seq<nat>)
    requires |draws| == nterms <= |population|
    ensures inputs != [] ==> |SwapRemoves(population, draws) + Cycled(inputs, nterms)| == |population|
    ensures (population + Cycled(inputs, nterms))[..|population|] == population
    ensures |population + Cycled(inputs, nterms)| == |population| + (if inputs == [] then 0 else nterms)
  {
  }
}
