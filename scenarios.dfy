/**
  Concrete runs of the game on a 20-by-20 board, worked out from the rules.
 */
module Scenarios {
  import opened Grid
  import opened GameState
  import opened Food
  import opened Autopilot
  import opened Rules

  /**
    From the start position, pressing right launches the game with right as
    both velocities; the next tick moves the one-cell snake to (11, 10).
   */
  lemma FirstKeyLaunches(draws: seq<Cell>)
    ensures var w := ChangeDirection(Initial(20, 0), Right);
      && w.next == Right && w.velocity == Right && w.running
      && Tick(w, draws).snake == [Cell(11, 10)]
  {
  }

  /** Moving right into the food at (6, 5): the snake grows to three cells and the score to 1. */
  lemma EatingGrows(draws: seq<Cell>)
    requires AllInGrid(draws, 20)
    requires Supplies(draws, [Cell(6, 5), Cell(5, 5), Cell(4, 5)])
    ensures var w := World(20, [Cell(5, 5), Cell(4, 5)], Right, Right, Cell(6, 5), 0, 0, true, false, false);
      var r := Tick(w, draws);
      && r.snake == [Cell(6, 5), Cell(5, 5), Cell(4, 5)]
      && r.score == 1 && r.highScore == 1
      && r.food !in r.snake && InGrid(r.food, 20)
  {
    var w := World(20, [Cell(5, 5), Cell(4, 5)], Right, Right, Cell(6, 5), 0, 0, true, false, false);
    TickEats(w, draws);
  }

  /** A head at (0, 5) moving left leaves the board: game over. */
  lemma WallEndsGame(draws: seq<Cell>)
    ensures var w := World(20, [Cell(0, 5)], Left, Left, Cell(9, 9), 3, 7, true, false, false);
      var r := Tick(w, draws);
      r.over && !r.running && r.snake == [Cell(0, 5)] && r.score == 3
  {
  }

  /**
    Autopilot with the head at (10, 10) and the food at (15, 5): both offsets
    have size 5, both greedy steps get priority 1, and the horizontal one,
    pushed first, wins.
   */
  lemma AutopilotTie()
    ensures Choose(World(20, [Cell(10, 10)], Zero, Zero, Cell(15, 5), 0, 0, false, false, true))
      == Some(Right)
  {
    var w := World(20, [Cell(10, 10)], Zero, Zero, Cell(15, 5), 0, 0, false, false, true);
    ChooseGreedy(w);
  }

  /**
    A direction key pressed while the game is paused also sets the current
    velocity before the head has moved. Paused while moving right, the keys
    up and then left both pass the reversal guard, and the next tick drives
    the head left into the second cell of the snake.
   */
  lemma PausedKeysCanReverse(draws: seq<Cell>)
    ensures var paused := World(20, [Cell(5, 5), Cell(4, 5)], Right, Right, Cell(9, 9), 0, 0, false, false, false);
      var w := ChangeDirection(ChangeDirection(paused, Up), Left);
      w.next == Left && Tick(w, draws).over
  {
  }
}
