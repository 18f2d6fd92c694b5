/** Variant A's player token: a key press is stored as a one-shot impulse, which the
    next `update` applies once, clamps to the board, and clears. */
module ImpulseFrog {
  import opened Board
  import opened Geometry

  /** Side of the frog's square. */
  const SIZE: int := TILE - 8

  /** Where `clampToBoard(width)` puts a frog at (x, y): x into [0, width - SIZE]
      (0 when the board is narrower than the frog), y between the goal row and the
      start tile. */
  function Clamped(x: int, y: int, width: int): (p: (int, int))
    ensures 0 <= p.0 && (width >= SIZE ==> p.0 <= width - SIZE)
    ensures TILE <= p.1 <= START_Y
    ensures 0 <= x <= width - SIZE ==> p.0 == x
    ensures TILE <= y <= START_Y ==> p.1 == y
  {
    (Max(0, Min(x, width - SIZE)), Max(TILE, Min(y, START_Y)))
  }

  /** The row an update leaves a frog at (x, y) with impulse (vx, vy) on: the clamped
      row after a non-zero impulse, the same row otherwise. */
  function RowAfter(x: int, y: int, vx: int, vy: int): (r: int)
    ensures vx == 0 && vy == 0 ==> r == y
    ensures vx != 0 || vy != 0 ==> TILE <= r <= START_Y
    ensures (vx != 0 || vy != 0) && TILE <= y + vy <= START_Y ==> r == y + vy
  {
    if vx != 0 || vy != 0 then Clamped(x + vx, y + vy, WIDTH).1 else y
  }

  function Max(a: int, b: int): int { if a >= b then a else b }
  function Min(a: int, b: int): int { if a <= b then a else b }

  /** Clamping twice is clamping once. */
  lemma ClampIdempotent(x: int, y: int, width: int)
    ensures var p := Clamped(x, y, width); Clamped(p.0, p.1, width) == p
  {
  }

  /** A frog clamped to the panel's width lies wholly on the board. */
  lemma ClampedOnBoard(x: int, y: int)
    ensures var p := Clamped(x, y, WIDTH);
            var r := Rect(p.0, p.1, SIZE, SIZE);
            0 <= r.x && r.x + r.width <= WIDTH && TILE <= r.y && r.y + r.height <= HEIGHT
  {
  }

  class Frog {
    var x: int
    var y: int
    var vx: int
    var vy: int
    var alive: bool

    constructor (x0: int, y0: int)
      ensures x == x0 && y == y0 && vx == 0 && vy == 0 && alive
    {
      x, y := x0, y0;
      vx, vy := 0, 0;
      alive := true;
    }

    /** Records the impulse, overwriting any earlier one; the frog does not move yet. */
    method Nudge(dx: int, dy: int)
      modifies this
      ensures vx == dx && vy == dy
      ensures x == old(x) && y == old(y) && alive == old(alive)
    {
      vx, vy := dx, dy;
    }

    /** Applies a non-zero impulse once and clamps; a zero impulse neither moves nor
        clamps. The impulse is always cleared, so a second update does nothing. */
    method Update()
      modifies this
      ensures old(vx) != 0 || old(vy) != 0 ==> (x, y) == Clamped(old(x) + old(vx), old(y) + old(vy), WIDTH)
      ensures old(vx) == 0 && old(vy) == 0 ==> x == old(x) && y == old(y)
      ensures vx == 0 && vy == 0 && alive == old(alive)
    {
      if vx != 0 || vy != 0 {
        x, y := x + vx, y + vy;
        ClampToBoard(WIDTH);
      }
      vx, vy := 0, 0;
    }

    method ClampToBoard(width: int)
      modifies this
      ensures (x, y) == Clamped(old(x), old(y), width)
      ensures vx == old(vx) && vy == old(vy) && alive == old(alive)
    {
      x := Max(0, Min(x, width - SIZE));
      y := Max(TILE, Min(y, (ROWS - 1) * TILE + 4));
    }

    /** The frog's hit box: the SIZE x SIZE square at its position. */
    function Bounds(): (r: Rect)
      reads this
      ensures r.x == x && r.y == y && r.width == SIZE && r.height == SIZE
    {
      Rect(x, y, SIZE, SIZE)
    }
  }
}
