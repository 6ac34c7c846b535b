/**
  The game as the page runs it: mutable state updated in place by the event
  handlers and the timer callback. Each handler is proved to leave the state
  that the matching function of module Rules describes; the queries are
  proved against the specification functions of modules Food and Autopilot.
 */
module SnakeGame {
  import opened Grid
  import opened GameState
  import opened Food
  import opened Autopilot
  import Rules

  class Game {
    const tileCount: int
    var snake: seq<Cell>
    var velocity: Vec
    var nextVelocity: Vec
    var food: Cell
    var score: int
    var highScore: int
    var gameRunning: bool
    var gameOver: bool
    var aiMode: bool

    /** The state as one value. */
    function Model(): World
      reads this
    {
      World(tileCount, snake, velocity, nextVelocity, food, score, highScore,
            gameRunning, gameOver, aiMode)
    }

    ghost predicate Valid()
      reads this
    {
      Inv(Model())
    }

    /** The page at load time; the stored high score is read by the host. */
    constructor (tileCount: int, storedHighScore: nat)
      requires tileCount > 10
      ensures Valid() && Model() == Initial(tileCount, storedHighScore)
    {
      this.tileCount := tileCount;
      snake := [Origin];
      velocity, nextVelocity := Zero, Zero;
      food := InitialFood;
      score, highScore := 0, storedHighScore;
      gameRunning, gameOver, aiMode := false, false, false;
    }

    method Start()
      requires Valid()
      modifies this
      ensures Valid() && Model() == Rules.Start(old(Model()))
    {
      if !gameRunning && !gameOver {
        gameRunning := true;
      }
    }

    method Pause()
      requires Valid()
      modifies this
      ensures Valid() && Model() == Rules.Pause(old(Model()))
    {
      if gameRunning {
        gameRunning := false;
      }
    }

    method HandleGameOver()
      modifies this
      ensures Model() == Rules.EndGame(old(Model()))
    {
      gameOver := true;
      gameRunning := false;
    }

    method ChangeDirection(d: Vec)
      requires Valid() && IsDirection(d)
      modifies this
      ensures Valid() && Model() == Rules.ChangeDirection(old(Model()), d)
    {
      if Reverses(velocity, d) {
        return;
      }
      nextVelocity := d;
      if !gameRunning && !gameOver && d != Zero {
        velocity := d;
        NeverReversesItself(d);
        Start();
      }
    }

    /** Whether cell c is one of the snake's cells: the scan the page repeats in three places. */
    method OnSnake(c: Cell) returns (hit: bool)
      ensures hit <==> c in snake
    {
      hit := false;
      var i := 0;
      while i < |snake|
        invariant 0 <= i <= |snake|
        invariant forall k :: 0 <= k < i ==> snake[k] != c
      {
        if snake[i] == c {
          hit := true;
          return;
        }
        i := i + 1;
      }
    }

    /**
      canMove: the step does not reverse the current velocity, and the cell it
      leads to is on the board and not a cell of the current snake.
     */
    method CanMove(d: Vec) returns (ok: bool)
      requires |snake| > 0
      ensures ok <==> !Reverses(velocity, d) && InGrid(Add(snake[0], d), tileCount)
                      && Add(snake[0], d) !in snake
    {
      if Reverses(velocity, d) {
        return false;
      }
      var next := Add(snake[0], d);
      if !InGrid(next, tileCount) {
        return false;
      }
      var hit := OnSnake(next);
      ok := !hit;
    }

    /** The greedy candidates of calculateAIMove, horizontal pushed before vertical. */
    method GreedyCandidates() returns (possibleMoves: seq<Move>)
      requires |snake| > 0
      ensures possibleMoves == GreedyMoves(Model())
    {
      var head := snake[0];
      var dirX := food.x - head.x;
      var dirY := food.y - head.y;
      possibleMoves := [];

      var right := dirX > 0;
      if right { right := CanMove(Right); }
      if right {
        possibleMoves := possibleMoves + [Move(Right, Priority(dirX, dirY))];
      } else {
        var left := dirX < 0;
        if left { left := CanMove(Left); }
        if left {
          possibleMoves := possibleMoves + [Move(Left, Priority(dirX, dirY))];
        }
      }

      var down := dirY > 0;
      if down { down := CanMove(Down); }
      if down {
        possibleMoves := possibleMoves + [Move(Down, Priority(dirY, dirX))];
      } else {
        var up := dirY < 0;
        if up { up := CanMove(Up); }
        if up {
          possibleMoves := possibleMoves + [Move(Up, Priority(dirY, dirX))];
        }
      }
    }

    /** The fallback candidates of calculateAIMove: each safe step, scanned up, right, down, left. */
    method FallbackCandidates() returns (possibleMoves: seq<Move>)
      requires |snake| > 0
      ensures possibleMoves == FallbackMoves(Model())
    {
      possibleMoves := [];
      var ok := CanMove(Up);
      if ok { possibleMoves := possibleMoves + [Move(Up, 0)]; }
      ok := CanMove(Right);
      if ok { possibleMoves := possibleMoves + [Move(Right, 0)]; }
      ok := CanMove(Down);
      if ok { possibleMoves := possibleMoves + [Move(Down, 0)]; }
      ok := CanMove(Left);
      if ok { possibleMoves := possibleMoves + [Move(Left, 0)]; }
    }

    /**
      calculateAIMove: collect the candidate steps as the page pushes them,
      take the first of maximal priority (the head of the stably sorted list)
      and hand it to ChangeDirection.
     */
    method CalculateAIMove()
      requires Valid()
      modifies this
      ensures Valid() && Model() == Rules.ApplyAI(old(Model()))
    {
      ghost var w := Model();
      var possibleMoves := GreedyCandidates();
      if |possibleMoves| == 0 {
        possibleMoves := FallbackCandidates();
      }
      assert possibleMoves == Candidates(w);
      if |possibleMoves| > 0 {
        CandidatesSafe(w);
        var best := possibleMoves[FirstBest(possibleMoves)];
        assert best in possibleMoves;
        ChangeDirection(best.dir);
      }
    }

    /**
      generateFood: draw cells until one is off the snake. draws[i] is the
      cell drawn at the i-th attempt.
     */
    method GenerateFood(draws: seq<Cell>)
      requires Supplies(draws, snake)
      modifies this`food
      ensures food == FirstFree(draws, snake)
    {
      ghost var k := FirstFreeIndex(draws, snake);
      var newFood := draws[0];
      var foodOnSnake := OnSnake(newFood);
      var i := 1;
      while foodOnSnake
        invariant 1 <= i <= k + 1
        invariant newFood == draws[i - 1]
        invariant foodOnSnake <==> newFood in snake
        decreases k + 1 - i
      {
        newFood := draws[i];
        foodOnSnake := OnSnake(newFood);
        i := i + 1;
      }
      food := newFood;
    }

    /** updateGame, one timer tick. */
    method Tick(draws: seq<Cell>)
      requires Valid() && AllInGrid(draws, tileCount)
      requires Rules.Eats(Model()) ==> Supplies(draws, [food] + snake)
      modifies this
      ensures Valid() && Model() == Rules.Tick(old(Model()), draws)
    {
      ghost var w := Model();
      Rules.TickPreservesInv(w, draws);
      Rules.SteeredFrame(w);
      if gameOver {
        return;
      }
      if aiMode && gameRunning {
        CalculateAIMove();
      }
      velocity := nextVelocity;
      assert velocity == Rules.Applied(w);
      if velocity == Zero {
        return;
      }
      var head := Add(snake[0], velocity);
      if !InGrid(head, tileCount) {
        HandleGameOver();
        return;
      }
      var hit := OnSnake(head);
      if hit {
        HandleGameOver();
        return;
      }
      snake := [head] + snake;
      if head == food {
        assert Rules.Eats(w);
        score := score + 1;
        if score > highScore {
          highScore := score;
        }
        GenerateFood(draws);
      } else {
        snake := snake[..|snake| - 1];
      }
    }

    /** restartGame */
    method Restart(draws: seq<Cell>)
      requires Valid() && AllInGrid(draws, tileCount) && Supplies(draws, [Origin])
      modifies this
      ensures Valid() && Model() == Rules.Restart(old(Model()), draws)
    {
      Rules.RestartRule(Model(), draws);
      gameRunning := false;
      gameOver := false;
      score := 0;
      if aiMode {
        aiMode := false;
      }
      snake := [Origin];
      velocity, nextVelocity := Zero, Zero;
      GenerateFood(draws);
    }

    /** toggleAIMode */
    method ToggleAIMode()
      requires Valid()
      modifies this
      ensures Valid() && Model() == Rules.ToggleAI(old(Model()))
    {
      aiMode := !aiMode;
      if aiMode {
        if !gameRunning && !gameOver {
          CalculateAIMove();
          Start();
        }
      }
    }

    /** The space-bar branch of handleKeyPress. */
    method PressSpace(draws: seq<Cell>)
      requires Valid() && AllInGrid(draws, tileCount) && (gameOver ==> Supplies(draws, [Origin]))
      modifies this
      ensures Valid() && Model() == Rules.Space(old(Model()), draws)
    {
      if gameOver {
        Restart(draws);
      } else if gameRunning {
        Pause();
      } else {
        Start();
      }
    }
  }
}
