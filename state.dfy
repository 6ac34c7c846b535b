/**
  The game's state as one value: what the page keeps in its closure
  variables, read as a whole. The class in game.dfy holds the same state in
  mutable fields; its Model() function maps it to a World.
 */
module GameState {
  import opened Grid

  datatype World = World(
    n: int,            // tileCount: the board is n by n cells
    snake: seq<Cell>,  // head first, tail last
    velocity: Vec,     // applied at the last tick (velocityX, velocityY)
    next: Vec,         // requested, applied at the next tick (nextVelocityX, nextVelocityY)
    food: Cell,
    score: int,
    highScore: int,
    running: bool,     // gameRunning: the tick timer is active
    over: bool,        // gameOver
    ai: bool           // aiMode
  )

  /** The state right after the page has loaded, given the stored high score. */
  function Initial(n: int, storedHighScore: nat): (w: World)
    requires n > 10
    ensures Inv(w)
    ensures w.snake == [Origin] && w.score == 0 && w.highScore == storedHighScore
    ensures !w.running && !w.over && !w.ai
  {
    World(n, [Origin], Zero, Zero, InitialFood, 0, storedHighScore, false, false, false)
  }

  /**
    What every operation keeps: the board is larger than the start cell
    needs, the snake is non-empty, on the board and never overlaps itself,
    the food is on the board and off the snake, both velocities are standing
    still or a unit step, the pending one never reverses the current one,
    the high score is at least the score, and a finished game is not running.
   */
  predicate Inv(w: World) {
    && w.n > 10
    && |w.snake| >= 1 && Distinct(w.snake) && AllInGrid(w.snake, w.n)
    && InGrid(w.food, w.n) && w.food !in w.snake
    && IsVelocity(w.velocity) && IsVelocity(w.next) && !Reverses(w.velocity, w.next)
    && 0 <= w.score <= w.highScore
    && !(w.running && w.over)
  }

  /** The cell the head would enter with velocity v. */
  function NextHead(w: World, v: Vec): Cell
    requires |w.snake| > 0
  {
    Add(w.snake[0], v)
  }

  /** Moving by v would leave the board or hit a cell of the current snake. */
  predicate Collides(w: World, v: Vec)
    requires |w.snake| > 0
  {
    var h := NextHead(w, v);
    !InGrid(h, w.n) || h in w.snake
  }
}
