/** The session bookkeeping both copies of GamePanel share: the reward for reaching
    new rows and the penalty and game-over reset of `die`. */
module Scoring {
  import opened Board

  function Max(a: int, b: int): int { if a >= b then a else b }

  /** The score and the highest row reached so far (`bestRowY`, smaller is higher). */
  datatype Progress = Progress(score: int, bestRowY: int)

  /** Row scoring after the frog has moved to `frogY`: every whole tile climbed above the
      best row so far earns 10 points and makes `frogY` the new best; anything less
      (including climbing under one tile or moving down) changes nothing. */
  function RowScored(p: Progress, frogY: int): (r: Progress)
    ensures r.score >= p.score && r.bestRowY <= p.bestRowY
    ensures r.score - p.score == 10 * ((p.bestRowY - r.bestRowY) / TILE)
    ensures frogY <= p.bestRowY - TILE ==> r.bestRowY == frogY
    ensures frogY > p.bestRowY - TILE ==> r == p
  {
    if frogY < p.bestRowY then
      var rowsUp := (p.bestRowY - frogY) / TILE;
      if rowsUp > 0 then Progress(p.score + rowsUp * 10, frogY) else p
    else p
  }

  /** Row scoring applied after each of a run of frog positions. */
  function ScoredAlong(p: Progress, ys: seq<int>): Progress
    decreases |ys|
  {
    if ys == [] then p else ScoredAlong(RowScored(p, ys[0]), ys[1..])
  }

  lemma DivSuperadditive(a: int, b: int)
    requires a >= 0 && b >= 0
    ensures a / TILE + b / TILE <= (a + b) / TILE
  {
  }

  /** No row is paid for twice: over any run of moves the points earned are at most 10
      per whole tile between the starting best row and the final one, and they never
      decrease. */
  lemma {:induction false} NoRowRewardedTwice(p: Progress, ys: seq<int>)
    ensures var q := ScoredAlong(p, ys);
            && q.score >= p.score && q.bestRowY <= p.bestRowY
            && q.score - p.score <= 10 * ((p.bestRowY - q.bestRowY) / TILE)
    decreases |ys|
  {
    if ys != [] {
      var r := RowScored(p, ys[0]);
      NoRowRewardedTwice(r, ys[1..]);
      var q := ScoredAlong(r, ys[1..]);
      DivSuperadditive(p.bestRowY - r.bestRowY, r.bestRowY - q.bestRowY);
    }
  }

  /** Level, lives and score: the part of the session that `die` touches. */
  datatype Session = Session(level: int, lives: int, score: int)

  /** The bookkeeping of `die` on a live frog: one life is lost and 25 points, never
      below zero; losing the last life starts over at level 1 with 3 lives and 0 points. */
  function AfterDeath(s: Session): (r: Session)
    ensures s.lives > 1 ==> r == Session(s.level, s.lives - 1, Max(0, s.score - 25))
    ensures s.lives <= 1 ==> r == Session(1, 3, 0)
    ensures r.lives >= 1 && r.score >= 0 && r.score <= Max(0, s.score)
  {
    var lives := s.lives - 1;
    var score := Max(0, s.score - 25);
    if lives <= 0 then Session(1, 3, 0) else Session(s.level, lives, score)
  }

  /** The session after `k` deaths in a row. */
  function Deaths(s: Session, k: nat): Session
  {
    if k == 0 then s else AfterDeath(Deaths(s, k - 1))
  }

  /** With `n` lives, each of the first `n - 1` deaths costs exactly one life and 25
      points (floored at 0) and keeps the level. */
  lemma {:induction false} LivesCountDown(s: Session, k: nat)
    requires k < s.lives && s.score >= 0
    ensures Deaths(s, k) == Session(s.level, s.lives - k, Max(0, s.score - 25 * k))
  {
    if k > 0 {
      LivesCountDown(s, k - 1);
      var before := Deaths(s, k - 1);
      assert before.lives > 1;
      assert Max(0, before.score - 25) == Max(0, s.score - 25 * k);
      assert Deaths(s, k) == AfterDeath(before);
    }
  }

  /** The `n`-th death of a session with `n` lives is game over: the session restarts. */
  lemma GameOverOnLastLife(s: Session)
    requires s.lives >= 1 && s.score >= 0
    ensures Deaths(s, s.lives as nat) == Session(1, 3, 0)
  {
    LivesCountDown(s, s.lives - 1);
  }
}
