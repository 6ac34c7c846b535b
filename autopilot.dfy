/**
  The autopilot: a one-step greedy choice of direction toward the food,
  among the steps the safety test allows.

  The page pushes candidate steps onto a list, sorts it by descending
  priority and takes the first entry. The sort is stable, so that entry is
  the first candidate of maximal priority; FirstBest computes exactly that.
 */
module Autopilot {
  import opened Grid
  import opened GameState

  datatype Option<T> = None | Some(value: T)

  /** An entry of the candidate list. */
  datatype Move = Move(dir: Vec, priority: int)

  /**
    The safety test canMove: the step does not reverse the current velocity,
    and the cell it leads to is on the board and not a cell of the current
    snake (the tail that would move away this tick included).
   */
  predicate IsSafeMove(w: World, d: Vec)
    requires |w.snake| > 0
  {
    !Reverses(w.velocity, d) && !Collides(w, d)
  }

  /** The greedy priority of an axis: 2 when its offset is strictly larger than the other's. */
  function Priority(mine: int, other: int): int {
    if Abs(mine) > Abs(other) then 2 else 1
  }

  function DirX(w: World): int requires |w.snake| > 0 { w.food.x - w.snake[0].x }
  function DirY(w: World): int requires |w.snake| > 0 { w.food.y - w.snake[0].y }

  /** The horizontal step toward the food, when there is horizontal offset. */
  function Horizontal(w: World): Vec requires |w.snake| > 0 {
    if DirX(w) > 0 then Right else Left
  }

  /** The vertical step toward the food, when there is vertical offset. */
  function Vertical(w: World): Vec requires |w.snake| > 0 {
    if DirY(w) > 0 then Down else Up
  }

  /** The horizontal step toward the food exists and is safe. */
  predicate HorizontalOk(w: World) requires |w.snake| > 0 {
    (DirX(w) > 0 && IsSafeMove(w, Right)) || (DirX(w) < 0 && IsSafeMove(w, Left))
  }

  /** The vertical step toward the food exists and is safe. */
  predicate VerticalOk(w: World) requires |w.snake| > 0 {
    (DirY(w) > 0 && IsSafeMove(w, Down)) || (DirY(w) < 0 && IsSafeMove(w, Up))
  }

  /** The greedy candidates, horizontal pushed before vertical. */
  function GreedyMoves(w: World): seq<Move>
    requires |w.snake| > 0
  {
    var dirX, dirY := DirX(w), DirY(w);
    var horizontal :=
      if dirX > 0 && IsSafeMove(w, Right) then [Move(Right, Priority(dirX, dirY))]
      else if dirX < 0 && IsSafeMove(w, Left) then [Move(Left, Priority(dirX, dirY))]
      else [];
    var vertical :=
      if dirY > 0 && IsSafeMove(w, Down) then [Move(Down, Priority(dirY, dirX))]
      else if dirY < 0 && IsSafeMove(w, Up) then [Move(Up, Priority(dirY, dirX))]
      else [];
    horizontal + vertical
  }

  /** The fallback candidates: every safe step, scanned up, right, down, left, at priority 0. */
  function FallbackMoves(w: World): seq<Move>
    requires |w.snake| > 0
  {
    (if IsSafeMove(w, Up) then [Move(Up, 0)] else [])
    + (if IsSafeMove(w, Right) then [Move(Right, 0)] else [])
    + (if IsSafeMove(w, Down) then [Move(Down, 0)] else [])
    + (if IsSafeMove(w, Left) then [Move(Left, 0)] else [])
  }

  /** The list the page sorts: the greedy candidates, or the fallback ones when there are none. */
  function Candidates(w: World): seq<Move>
    requires |w.snake| > 0
  {
    var greedy := GreedyMoves(w);
    if greedy != [] then greedy else FallbackMoves(w)
  }

  /** k is the first entry of maximal priority: the head of the list after a stable descending sort. */
  predicate IsFirstBest(ms: seq<Move>, k: int) {
    && 0 <= k < |ms|
    && (forall j :: 0 <= j < |ms| ==> ms[j].priority <= ms[k].priority)
    && (forall j :: 0 <= j < k ==> ms[j].priority < ms[k].priority)
  }

  function FirstBest(ms: seq<Move>): (k: nat)
    requires |ms| > 0
    ensures IsFirstBest(ms, k)
  {
    if |ms| == 1 then 0
    else
      var k := FirstBest(ms[..|ms| - 1]);
      if ms[|ms| - 1].priority > ms[k].priority then |ms| - 1 else k
  }

  /** A list has only one first entry of maximal priority. */
  lemma FirstBestUnique(ms: seq<Move>, i: int, j: int)
    requires IsFirstBest(ms, i) && IsFirstBest(ms, j)
    ensures i == j
  {
    assert ms[i].priority <= ms[j].priority && ms[j].priority <= ms[i].priority;
  }

  /** The step the autopilot requests, or None when no step is safe. */
  function Choose(w: World): Option<Vec>
    requires |w.snake| > 0
  {
    var ms := Candidates(w);
    if ms == [] then None else Some(ms[FirstBest(ms)].dir)
  }

  /** The choice reads only the board size, the snake, the current velocity and the food. */
  lemma ChooseReadsBoard(a: World, b: World)
    requires |a.snake| > 0
    requires a.n == b.n && a.snake == b.snake && a.velocity == b.velocity && a.food == b.food
    ensures Choose(a) == Choose(b)
  {
    assert forall d :: IsSafeMove(a, d) == IsSafeMove(b, d);
    assert GreedyMoves(a) == GreedyMoves(b);
    assert FallbackMoves(a) == FallbackMoves(b);
  }

  /** Every candidate is one of the four steps and passes the safety test. */
  lemma CandidatesSafe(w: World)
    requires |w.snake| > 0
    ensures forall m :: m in Candidates(w) ==> IsDirection(m.dir) && IsSafeMove(w, m.dir)
  {
  }

  /** A requested step is one of the four steps and safe. */
  lemma ChooseIsSafe(w: World)
    requires |w.snake| > 0
    ensures Choose(w).Some? ==> IsDirection(Choose(w).value) && IsSafeMove(w, Choose(w).value)
  {
    var ms := Candidates(w);
    if ms != [] {
      CandidatesSafe(w);
      assert ms[FirstBest(ms)] in ms;
    }
  }

  /** The autopilot requests nothing exactly when none of the four steps is safe. */
  lemma ChooseNoneIff(w: World)
    requires |w.snake| > 0
    ensures Choose(w) == None <==>
      !IsSafeMove(w, Up) && !IsSafeMove(w, Right) && !IsSafeMove(w, Down) && !IsSafeMove(w, Left)
  {
  }

  /**
    The greedy rule. When a step toward the food is safe the autopilot takes
    one: with both axes available the one with strictly larger offset, and
    the horizontal one on a tie.
   */
  lemma ChooseGreedy(w: World)
    requires |w.snake| > 0
    ensures HorizontalOk(w) && VerticalOk(w) ==>
      Choose(w) == Some(if Abs(DirX(w)) >= Abs(DirY(w)) then Horizontal(w) else Vertical(w))
    ensures HorizontalOk(w) && !VerticalOk(w) ==> Choose(w) == Some(Horizontal(w))
    ensures !HorizontalOk(w) && VerticalOk(w) ==> Choose(w) == Some(Vertical(w))
  {
    GreedyShape(w);
    var ms := GreedyMoves(w);
    if HorizontalOk(w) && VerticalOk(w) {
      var k := if Abs(DirX(w)) >= Abs(DirY(w)) then 0 else 1;
      assert IsFirstBest(ms, k);
      FirstBestUnique(ms, k, FirstBest(ms));
    } else if HorizontalOk(w) || VerticalOk(w) {
      assert IsFirstBest(ms, 0);
      FirstBestUnique(ms, 0, FirstBest(ms));
    }
  }

  /** The greedy list holds the safe horizontal step, then the safe vertical one. */
  lemma GreedyShape(w: World)
    requires |w.snake| > 0
    ensures var h := if HorizontalOk(w) then [Move(Horizontal(w), Priority(DirX(w), DirY(w)))] else [];
      var v := if VerticalOk(w) then [Move(Vertical(w), Priority(DirY(w), DirX(w)))] else [];
      GreedyMoves(w) == h + v
  {
  }

  /** Without a safe step toward the food, the first safe step of up, right, down, left. */
  lemma ChooseFallback(w: World)
    requires |w.snake| > 0
    requires !HorizontalOk(w) && !VerticalOk(w)
    ensures IsSafeMove(w, Up) ==> Choose(w) == Some(Up)
    ensures !IsSafeMove(w, Up) && IsSafeMove(w, Right) ==> Choose(w) == Some(Right)
    ensures !IsSafeMove(w, Up) && !IsSafeMove(w, Right) && IsSafeMove(w, Down) ==>
      Choose(w) == Some(Down)
    ensures (!IsSafeMove(w, Up) && !IsSafeMove(w, Right) && !IsSafeMove(w, Down)
             && IsSafeMove(w, Left)) ==> Choose(w) == Some(Left)
  {
    var ms := Candidates(w);
    assert GreedyMoves(w) == [] && ms == FallbackMoves(w);
    if ms != [] {
      assert IsFirstBest(ms, 0);
      FirstBestUnique(ms, 0, FirstBest(ms));
    }
  }
}
