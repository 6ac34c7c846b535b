/**
  The tick engine and the state transitions, each as a function from the
  state before to the state after. The methods of the Game class are proved
  to compute exactly these; the lemmas below state what the game promises.
 */
module Rules {
  import opened Grid
  import opened GameState
  import opened Food
  import opened Autopilot

  /** startGame: only an idle or paused game starts running. */
  function Start(w: World): World {
    if !w.running && !w.over then w.(running := true) else w
  }

  /** pauseGame */
  function Pause(w: World): World {
    if w.running then w.(running := false) else w
  }

  /** handleGameOver */
  function EndGame(w: World): World {
    w.(over := true, running := false)
  }

  /**
    changeDirection: a reversal of the current velocity is ignored; any other
    request becomes the pending velocity and, when the game is neither
    running nor over, also the current one, and the game starts.
   */
  function ChangeDirection(w: World, d: Vec): World {
    if Reverses(w.velocity, d) then w
    else
      var pending := w.(next := d);
      if !w.running && !w.over && d != Zero then Start(pending.(velocity := d)) else pending
  }

  /** calculateAIMove: hand the autopilot's step, if any, to changeDirection. */
  function ApplyAI(w: World): (r: World)
    requires |w.snake| > 0
  {
    match Choose(w)
    case None => w
    case Some(d) => ChangeDirection(w, d)
  }

  /** The state a tick moves from: the autopilot steers first when it is on and the game runs. */
  function Steered(w: World): World
    requires |w.snake| > 0
  {
    if w.ai && w.running then ApplyAI(w) else w
  }

  /** The velocity a tick applies. */
  function Applied(w: World): Vec
    requires |w.snake| > 0
  {
    Steered(w).next
  }

  /**
    The tick eats: the game is not over, the applied velocity moves the head,
    and the new head is on the board, off the snake and on the food.
   */
  predicate Eats(w: World)
    requires |w.snake| > 0
  {
    && !w.over && Applied(w) != Zero
    && !Collides(w, Applied(w)) && NextHead(w, Applied(w)) == w.food
  }

  /**
    updateGame. `draws` is what the random source would produce if food has
    to be placed. Only an eating tick places food, and it needs a draw off
    the grown snake, which is the food cell followed by the old snake.
   */
  function Tick(w: World, draws: seq<Cell>): World
    requires |w.snake| > 0 && (Eats(w) ==> Supplies(draws, [w.food] + w.snake))
  {
    if w.over then w
    else
      var s := Steered(w);
      SteeredFrame(w);
      var m := s.(velocity := s.next);
      if m.velocity == Zero then m
      else
        var head := NextHead(m, m.velocity);
        if Collides(m, m.velocity) then EndGame(m)
        else if head == m.food then
          var grown := [head] + m.snake;
          var score := m.score + 1;
          m.(snake := grown, score := score,
             highScore := if score > m.highScore then score else m.highScore,
             food := FirstFree(draws, grown))
        else
          m.(snake := [head] + m.snake[..|m.snake| - 1])
  }

  /** restartGame */
  function Restart(w: World, draws: seq<Cell>): World
    requires Supplies(draws, [Origin])
  {
    w.(snake := [Origin], velocity := Zero, next := Zero, score := 0,
       running := false, over := false, ai := false,
       food := FirstFree(draws, [Origin]))
  }

  /** toggleAIMode: switching the autopilot on in an idle or paused game steers once and starts it. */
  function ToggleAI(w: World): World
    requires |w.snake| > 0
  {
    var t := w.(ai := !w.ai);
    if t.ai && !t.running && !t.over then Start(ApplyAI(t)) else t
  }

  /** The space bar: restart a finished game, pause a running one, start any other. */
  function Space(w: World, draws: seq<Cell>): World
    requires |w.snake| > 0 && (w.over ==> Supplies(draws, [Origin]))
  {
    if w.over then Restart(w, draws)
    else if w.running then Pause(w)
    else Start(w)
  }

  // ---------------------------------------------------------------------------
  // Direction changes and the autopilot

  /**
    A reversal changes nothing; any other request becomes pending; only a
    non-zero request to a game neither running nor over also becomes the
    current velocity and starts the game. Nothing else changes.
   */
  lemma ChangeDirectionRule(w: World, d: Vec)
    ensures var r := ChangeDirection(w, d);
      && (Reverses(w.velocity, d) ==> r == w)
      && (!Reverses(w.velocity, d) ==> r.next == d)
      && (!Reverses(w.velocity, d) && !w.running && !w.over && d != Zero ==>
            r.velocity == d && r.running)
      && (Reverses(w.velocity, d) || w.running || w.over || d == Zero ==>
            r.velocity == w.velocity && r.running == w.running)
      && r == w.(velocity := r.velocity, next := r.next, running := r.running)
  {
  }

  /**
    The autopilot changes nothing but the direction state; a step it chooses
    is never refused by the reversal guard, so it always becomes pending.
   */
  lemma ApplyAIRule(w: World)
    requires |w.snake| > 0
    ensures var r := ApplyAI(w);
      && r == w.(velocity := r.velocity, next := r.next, running := r.running)
      && (Choose(w) == None ==> r == w)
      && (Choose(w).Some? ==> r.next == Choose(w).value)
  {
    ChooseIsSafe(w);
  }

  lemma SteeredFrame(w: World)
    requires |w.snake| > 0
    ensures var s := Steered(w);
      s == w.(velocity := s.velocity, next := s.next, running := s.running)
  {
    if w.ai && w.running {
      ApplyAIRule(w);
    }
  }

  // ---------------------------------------------------------------------------
  // The tick

  /** A tick of a finished game changes nothing; a tick standing still moves nothing. */
  lemma TickStill(w: World, draws: seq<Cell>)
    requires |w.snake| > 0
    requires w.over || Applied(w) == Zero
    ensures var r := Tick(w, draws);
      && (w.over ==> r == w)
      && r.snake == w.snake && r.food == w.food
      && r.score == w.score && r.highScore == w.highScore && r.over == w.over
  {
    SteeredFrame(w);
  }

  /**
    A tick whose new head leaves the board or meets a cell of the snake as it
    was before the move ends the game and leaves snake, food and scores alone.
   */
  lemma TickCollision(w: World, draws: seq<Cell>)
    requires |w.snake| > 0
    requires !w.over && Applied(w) != Zero
    requires var h := Add(w.snake[0], Applied(w)); !InGrid(h, w.n) || h in w.snake
    ensures var r := Tick(w, draws);
      && r.over && !r.running
      && r.snake == w.snake && r.food == w.food
      && r.score == w.score && r.highScore == w.highScore
  {
    SteeredFrame(w);
  }

  /** A tick that moves without eating: the head advances and the tail cell is dropped. */
  lemma TickMoves(w: World, draws: seq<Cell>)
    requires |w.snake| > 0
    requires !w.over && Applied(w) != Zero
    requires var h := Add(w.snake[0], Applied(w)); InGrid(h, w.n) && h !in w.snake && h != w.food
    ensures var r := Tick(w, draws);
      && r.snake == [Add(w.snake[0], Applied(w))] + w.snake[..|w.snake| - 1]
      && r.food == w.food && r.score == w.score && r.highScore == w.highScore
      && !r.over && r.running == Steered(w).running
  {
    SteeredFrame(w);
  }

  /**
    A tick that eats: the snake keeps its tail and grows by the new head, the
    score rises by one, the high score becomes the larger of itself and the
    score, and the new food is the first draw off the grown snake, which lies
    on the board.
   */
  lemma TickEats(w: World, draws: seq<Cell>)
    requires |w.snake| > 0 && Supplies(draws, [w.food] + w.snake) && AllInGrid(draws, w.n)
    requires !w.over && Applied(w) != Zero
    requires var h := Add(w.snake[0], Applied(w)); InGrid(h, w.n) && h !in w.snake && h == w.food
    ensures var r := Tick(w, draws);
      && r.snake == [w.food] + w.snake
      && r.score == w.score + 1
      && r.highScore == (if w.score + 1 > w.highScore then w.score + 1 else w.highScore)
      && r.food == FirstFree(draws, r.snake)
      && InGrid(r.food, w.n) && r.food !in r.snake
      && !r.over
  {
    SteeredFrame(w);
    FirstFreeIsPlacement(draws, [w.food] + w.snake, w.n);
  }

  /**
    Per tick the snake keeps its length or grows by exactly one, and the score
    rises by exactly as much; neither the score nor the high score goes down.
   */
  lemma TickGrowth(w: World, draws: seq<Cell>)
    requires |w.snake| > 0 && (Eats(w) ==> Supplies(draws, [w.food] + w.snake))
    ensures var r := Tick(w, draws);
      && (|r.snake| == |w.snake| || |r.snake| == |w.snake| + 1)
      && r.score - w.score == |r.snake| - |w.snake|
      && r.highScore >= w.highScore
  {
    SteeredFrame(w);
  }

  /**
    With the autopilot driving a running game, a tick ends the game only when
    none of the four steps was safe.
   */
  lemma AutopilotAvoidsCrash(w: World, draws: seq<Cell>)
    requires Inv(w) && (Eats(w) ==> Supplies(draws, [w.food] + w.snake))
    requires w.ai && w.running
    requires IsSafeMove(w, Up) || IsSafeMove(w, Right) || IsSafeMove(w, Down) || IsSafeMove(w, Left)
    ensures !Tick(w, draws).over
  {
    ChooseNoneIff(w);
    ChooseIsSafe(w);
    ApplyAIRule(w);
    SteeredFrame(w);
    var d := Choose(w).value;
    assert Applied(w) == d;
    assert d != Zero;
    assert !Collides(Steered(w).(velocity := d), d);
  }

  // ---------------------------------------------------------------------------
  // The invariant

  lemma TickPreservesInv(w: World, draws: seq<Cell>)
    requires Inv(w) && AllInGrid(draws, w.n) && (Eats(w) ==> Supplies(draws, [w.food] + w.snake))
    ensures Inv(Tick(w, draws))
  {
    SteeredFrame(w);
    ApplyAIPreservesInv(w);
    var r := Tick(w, draws);
    if !w.over && Applied(w) != Zero {
      var s := Steered(w);
      var v := s.next;
      NeverReversesItself(v);
      var h := Add(w.snake[0], v);
      if InGrid(h, w.n) && h !in w.snake {
        PrependDistinct(h, w.snake, w.n);
        if h == w.food {
          TickEats(w, draws);
        } else {
          TickMoves(w, draws);
          DropLastKeeps([h] + w.snake, w.n);
          assert r.snake == ([h] + w.snake)[..|w.snake|];
          assert r.food !in r.snake by {
            assert forall c :: c in r.snake ==> c == h || c in w.snake;
          }
        }
      }
    }
  }

  /** A fresh cell on the board may be put in front of a snake. */
  lemma PrependDistinct(h: Cell, s: seq<Cell>, n: int)
    requires Distinct(s) && AllInGrid(s, n) && InGrid(h, n) && h !in s
    ensures Distinct([h] + s) && AllInGrid([h] + s, n)
  {
    var t := [h] + s;
    forall i, j | 0 <= i < j < |t| ensures t[i] != t[j] {
      assert t[j] == s[j - 1];
      if i > 0 { assert t[i] == s[i - 1]; } else { assert s[j - 1] in s; }
    }
  }

  /** Dropping the last cell keeps a snake free of overlaps and on the board. */
  lemma DropLastKeeps(s: seq<Cell>, n: int)
    requires |s| > 0 && Distinct(s) && AllInGrid(s, n)
    ensures Distinct(s[..|s| - 1]) && AllInGrid(s[..|s| - 1], n)
  {
  }

  lemma ChangeDirectionPreservesInv(w: World, d: Vec)
    requires Inv(w) && IsDirection(d)
    ensures Inv(ChangeDirection(w, d))
  {
    NeverReversesItself(d);
  }

  lemma ApplyAIPreservesInv(w: World)
    requires Inv(w)
    ensures Inv(ApplyAI(w))
  {
    ChooseIsSafe(w);
    if Choose(w).Some? {
      ChangeDirectionPreservesInv(w, Choose(w).value);
    }
  }

  /**
    Restarting: a one-cell snake at the start cell, standing still, score 0,
    not running, not over, autopilot off, food placed off the snake; the
    high score is kept.
   */
  lemma RestartRule(w: World, draws: seq<Cell>)
    requires Inv(w) && Supplies(draws, [Origin]) && AllInGrid(draws, w.n)
    ensures var r := Restart(w, draws);
      && r.snake == [Origin] && r.velocity == Zero && r.next == Zero && r.score == 0
      && !r.running && !r.over && !r.ai
      && r.highScore == w.highScore && r.n == w.n
      && InGrid(r.food, w.n) && r.food != Origin
      && Inv(r)
  {
    FirstFreeIsPlacement(draws, [Origin], w.n);
  }

  /** Starting does nothing to a running or finished game and otherwise only sets the running flag. */
  lemma StartRule(w: World)
    requires Inv(w)
    ensures w.running || w.over ==> Start(w) == w
    ensures !w.running && !w.over ==> Start(w) == w.(running := true)
    ensures Inv(Start(w))
  {
  }

  /** Pausing clears the running flag and nothing else. */
  lemma PauseRule(w: World)
    requires Inv(w)
    ensures Pause(w) == w.(running := false)
    ensures Inv(Pause(w))
  {
  }

  /**
    Toggling flips the autopilot flag. Switching it on in a game neither
    running nor over also hands the autopilot's step, if any, to
    changeDirection, which makes it pending and current, and starts the
    game. In every other case only the flag changes.
   */
  lemma ToggleAIRule(w: World)
    requires Inv(w)
    ensures var r := ToggleAI(w);
      && (!w.ai && !w.running && !w.over && Choose(w) == None ==>
            r == w.(ai := true, running := true))
      && (!w.ai && !w.running && !w.over && Choose(w).Some? ==>
            r == w.(ai := true, running := true,
                    velocity := Choose(w).value, next := Choose(w).value))
      && (w.ai || w.running || w.over ==> r == w.(ai := !w.ai))
      && Inv(r)
  {
    var t := w.(ai := !w.ai);
    ChooseReadsBoard(t, w);
    ApplyAIRule(t);
    ApplyAIPreservesInv(t);
    if t.ai && !t.running && !t.over && Choose(t).Some? {
      ChooseIsSafe(t);
    }
  }

  /**
    The space bar restarts a finished game: a one-cell snake at the start
    cell, standing still, score 0, all flags off, the high score kept and the
    food off the snake. It pauses a running game and starts any other, and
    those change the running flag only.
   */
  lemma SpaceRule(w: World, draws: seq<Cell>)
    requires Inv(w) && (w.over ==> Supplies(draws, [Origin])) && AllInGrid(draws, w.n)
    ensures var r := Space(w, draws);
      && (w.over ==>
            && r.snake == [Origin] && r.velocity == Zero && r.next == Zero
            && r.score == 0 && !r.running && !r.over && !r.ai
            && r.highScore == w.highScore && r.n == w.n
            && InGrid(r.food, w.n) && r.food != Origin)
      && (!w.over && w.running ==> r == w.(running := false))
      && (!w.over && !w.running ==> r == w.(running := true))
      && Inv(r)
  {
    if w.over {
      RestartRule(w, draws);
    }
  }
}
