/** The moving actors (Car, Truck, Log, Bird, Snake) and the immutable `Lane` record.
    All five actor classes of the game have the same shape: a mutable horizontal
    position `x`, a fixed lane `y`, a fixed size and a fixed signed speed. They are one
    class here, told apart by a `kind` tag. */
module Actors {
  import opened Board
  import opened Geometry

  datatype Kind = Car | Truck | Log | Bird | Snake

  class Actor {
    const kind: Kind
    var x: real
    const y: int
    const w: int
    const h: int
    /** Pixels per tick; the sign is the direction of travel. */
    const speed: real

    constructor (kind: Kind, x: int, y: int, w: int, h: int, speed: real)
      ensures this.kind == kind && this.x == x as real && this.y == y
      ensures this.w == w && this.h == h && this.speed == speed
    {
      this.kind := kind;
      this.x := x as real;
      this.y := y;
      this.w := w;
      this.h := h;
      this.speed := speed;
    }

    /** One Euler step: the actor advances by its speed. */
    method Update()
      modifies this
      ensures x == old(x) + speed
    {
      x := x + speed;
    }

    /** Shift by `dx` (the gap resolvers' `addX`). */
    method AddX(dx: real)
      modifies this
      ensures x == old(x) + dx
    {
      x := x + dx;
    }

    /** Place at `v` (variant B's `setX`). */
    method SetX(v: real)
      modifies this
      ensures x == v
    {
      x := v;
    }

    /** The actor's rectangle: its position truncated toward zero, its lane y and size. */
    function Bounds(): (r: Rect)
      reads this
      ensures r.y == y && r.width == w && r.height == h
      ensures 0.0 <= x ==> 0 <= r.x && r.x as real <= x < r.x as real + 1.0
      ensures x < 0.0 ==> r.x <= 0 && r.x as real - 1.0 < x <= r.x as real
    {
      Rect(Trunc(x), y, w, h)
    }
  }

  /** The position reached from `x` after `k` successive updates at `speed`. */
  function Advanced(x: real, speed: real, k: nat): real
  {
    if k == 0 then x else Advanced(x, speed, k - 1) + speed
  }

  /** `k` updates move an actor by exactly `k * speed`. */
  lemma {:induction false} AdvancedLinear(x: real, speed: real, k: nat)
    ensures Advanced(x, speed, k) == x + k as real * speed
  {
    if k > 0 {
      AdvancedLinear(x, speed, k - 1);
      assert (k - 1) as real * speed + speed == k as real * speed;
    }
  }

  /** A lane: its top y, its signed speed (positive is rightward) and the number of
      ticks between spawn attempts. */
  datatype Lane = Lane(y: int, speed: real, spawnEvery: int)
  {
    predicate Rightward() {
      speed > 0.0
    }
  }

  /** Where a new actor of width `w` enters a lane: just past the left edge for a
      rightward lane, just past the right edge otherwise, `margin` pixels off the board. */
  function EntryX(lane: Lane, w: int, margin: int): (x: int)
    requires w >= 0 && margin >= 0
    ensures lane.Rightward() ==> x + w + margin <= 0
    ensures !lane.Rightward() ==> x >= WIDTH + margin
  {
    if lane.speed > 0.0 then -w - margin else WIDTH + margin
  }
}
