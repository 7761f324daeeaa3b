/**
 * The native simulation engine (`alchemy.PySoup`) as the Python driver sees
 * it: a population of expressions that `perturb` seeds and `simulate_for(1)`
 * advances by one collision.  What a collision does, and how the entropy is
 * computed, belongs to the engine and is not modelled: both operations may
 * leave any population and entropy behind.
 */
module Engine {
  import opened Wrappers

  class Soup {
    /** `soup.expressions()`. */
    var population: seq<string>
    /** `soup.population_entropy()`. */
    var entropy: Float
    /** `soup.unique_expressions()`: the distinct expressions, in the
        engine's own order. */
    var unique: seq<string>
    /** Collisions simulated so far. */
    var steps: nat

    /** `alchemy.PySoup()`. */
    constructor ()
      ensures population == [] && steps == 0
    {
      population := [];
      entropy := 0.0;
      unique := [];
      steps := 0;
    }

    /** `soup.perturb(expressions)`: seeds the population; not a collision. */
    method Perturb(expressions: seq<string>)
      modifies this
      ensures steps == old(steps)
    {
      population := *;
      entropy := *;
      unique := *;
    }

    /** `soup.simulate_for(1, log=False)`: exactly one collision. */
    method SimulateOne()
      modifies this
      ensures steps == old(steps) + 1
    {
      population := *;
      entropy := *;
      unique := *;
      steps := steps + 1;
    }
  }
}
