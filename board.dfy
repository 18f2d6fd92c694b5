/** Board dimensions shared by both copies of the game (`TILE`, `COLS`, `ROWS`,
    `WIDTH`, `HEIGHT` in GamePanel), plus the start tile and the cull margin. */
module Board {
  const TILE: int := 40
  const COLS: int := 16
  const ROWS: int := 18
  const WIDTH: int := COLS * TILE
  const HEIGHT: int := ROWS * TILE

  /** Top-left corner of the start tile, where the frog is (re)placed. */
  const START_X: int := WIDTH / 2 - TILE / 2
  const START_Y: int := (ROWS - 1) * TILE + 4

  /** How far beyond either edge an actor may drift before it is removed. */
  const CULL_MARGIN: int := 60

  /** The river occupies board rows 2..4. */
  predicate InRiver(y: int) {
    2 * TILE <= y < 5 * TILE
  }

  /** The goal band is the top playable row. */
  predicate AtGoal(y: int) {
    y <= TILE
  }
}
