/** The game's single `java.util.Random`, seen only through the values it hands out.
    The stream of uniform draws is a parameter: whatever values in [0, 1) it yields,
    the properties proved about the game hold. */
module Random {

  /** A uniform variate, as returned by `nextDouble`. */
  type Unit = r: real | 0.0 <= r < 1.0 witness 0.0

  class Rng {
    /** The draws, in the order the game consumes them. */
    const draw: nat -> Unit
    /** How many draws have been consumed. */
    var pos: nat

    constructor (draw: nat -> Unit)
      ensures this.draw == draw && pos == 0
    {
      this.draw := draw;
      pos := 0;
    }

    /** `nextDouble()`: the next draw. */
    method NextDouble() returns (u: real)
      modifies this
      ensures 0.0 <= u < 1.0 && u == draw(old(pos)) && pos == old(pos) + 1
    {
      u := draw(pos);
      pos := pos + 1;
    }

    /** `nextInt(bound)`: a value in [0, bound), derived from the next draw. */
    method NextInt(bound: int) returns (n: int)
      requires bound > 0
      modifies this
      ensures 0 <= n < bound && n == IntOf(draw(old(pos)), bound) && pos == old(pos) + 1
    {
      var u := draw(pos);
      ScaledDrawInRange(u, bound);
      n := (u * bound as real).Floor;
      pos := pos + 1;
    }

    /** `nextBoolean()`: a fair coin derived from the next draw. */
    method NextBoolean() returns (b: bool)
      modifies this
      ensures b == (draw(old(pos)) < 0.5) && pos == old(pos) + 1
    {
      b := draw(pos) < 0.5;
      pos := pos + 1;
    }
  }

  /** The value `nextInt(bound)` takes for the draw `u`: `u` scaled to [0, bound) and
      rounded down. */
  function IntOf(u: real, bound: int): (n: int)
    requires 0.0 <= u < 1.0 && bound > 0
    ensures 0 <= n < bound
  {
    ScaledDrawInRange(u, bound);
    (u * bound as real).Floor
  }

  lemma ScaledDrawInRange(u: real, bound: int)
    requires 0.0 <= u < 1.0 && bound > 0
    ensures 0 <= (u * bound as real).Floor < bound
  {
    assert 0.0 <= u * bound as real < bound as real;
  }
}
