/** Variant B's player token: a key press moves the frog at once (no clamping) and
    turns it to face the move; a dead frog ignores input. */
module FacingFrog {
  import opened Board
  import opened Geometry

  /** Width and height of the frog. */
  const SIZE: int := TILE - 4

  datatype Dir = Left | Right | Up | Down

  /** The facing after a move by (dx, dy) from facing `f`: a horizontal component
      decides first; a vertical one decides only when dx is zero, with a positive dy
      read as Up; a zero move keeps the old facing. */
  function FacingAfter(f: Dir, dx: int, dy: int): (r: Dir)
    ensures dx < 0 ==> r == Left
    ensures dx > 0 ==> r == Right
    ensures dx == 0 && dy > 0 ==> r == Up
    ensures dx == 0 && dy < 0 ==> r == Down
    ensures dx == 0 && dy == 0 ==> r == f
  {
    if dx < 0 then Left
    else if dx > 0 then Right
    else if dy > 0 then Up
    else if dy < 0 then Down
    else f
  }

  /** Where `clampToBoard(width)` puts a frog at (x, y). The x tests run in order, so a
      board narrower than the frog ends with x + SIZE == width, which is negative. */
  function Clamped(x: int, y: int, width: int): (p: (int, int))
    ensures p.0 + SIZE <= width && (width >= SIZE ==> 0 <= p.0)
    ensures TILE <= p.1 <= HEIGHT - SIZE
    ensures 0 <= x && x + SIZE <= width ==> p.0 == x
    ensures TILE <= y <= HEIGHT - SIZE ==> p.1 == y
  {
    var x1 := if x < 0 then 0 else x;
    var x2 := if x1 + SIZE > width then width - SIZE else x1;
    var y1 := if y < TILE then TILE else y;
    var y2 := if y1 > HEIGHT - SIZE then HEIGHT - SIZE else y1;
    (x2, y2)
  }

  /** Clamping twice is clamping once. */
  lemma ClampIdempotent(x: int, y: int, width: int)
    ensures var p := Clamped(x, y, width); Clamped(p.0, p.1, width) == p
  {
  }

  class Frog {
    var x: int
    var y: int
    var alive: bool
    var facing: Dir

    constructor (x0: int, y0: int)
      ensures x == x0 && y == y0 && alive && facing == Up
    {
      x, y := x0, y0;
      alive := true;
      facing := Up;
    }

    method Nudge(dx: int, dy: int)
      modifies this
      ensures !old(alive) ==> x == old(x) && y == old(y) && facing == old(facing)
      ensures old(alive) ==> x == old(x) + dx && y == old(y) + dy && facing == FacingAfter(old(facing), dx, dy)
      ensures alive == old(alive)
    {
      if !alive {
        return;
      }
      x := x + dx;
      y := y + dy;
      if dx < 0 {
        facing := Left;
      } else if dx > 0 {
        facing := Right;
      } else if dy > 0 {
        facing := Up;
      } else if dy < 0 {
        facing := Down;
      }
    }

    /** Kept for parity with the other frog: it does nothing. */
    method Update()
      ensures unchanged(this)
    {
    }

    method ClampToBoard(width: int)
      modifies this
      ensures (x, y) == Clamped(old(x), old(y), width)
      ensures alive == old(alive) && facing == old(facing)
    {
      if x < 0 {
        x := 0;
      }
      if x + SIZE > width {
        x := width - SIZE;
      }
      if y < TILE {
        y := TILE;
      }
      var maxY := HEIGHT - SIZE;
      if y > maxY {
        y := maxY;
      }
    }

    /** The frog's hit box: the SIZE x SIZE square at its position. */
    function Bounds(): (r: Rect)
      reads this
      ensures r.x == x && r.y == y && r.width == SIZE && r.height == SIZE
    {
      Rect(x, y, SIZE, SIZE)
    }
  }
}
