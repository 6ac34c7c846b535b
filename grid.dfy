/**
  Board geometry of the snake game: cells of a square grid and the
  velocity vectors the snake moves by.
 */
module Grid {

  /** A board cell; x grows to the right and y grows downwards. */
  datatype Cell = Cell(x: int, y: int)

  /** A velocity. The game only ever uses the zero vector and the four unit steps. */
  datatype Vec = Vec(dx: int, dy: int)

  const Zero := Vec(0, 0)
  const Up := Vec(0, -1)
  const Down := Vec(0, 1)
  const Left := Vec(-1, 0)
  const Right := Vec(1, 0)

  /** The cell the snake starts from, at load time and after every restart. */
  const Origin := Cell(10, 10)

  /** The food cell the page starts with, before any food has been generated. */
  const InitialFood := Cell(5, 5)

  /** The four steps the direction keys, the touch buttons and the autopilot request. */
  predicate IsDirection(v: Vec) {
    v == Up || v == Down || v == Left || v == Right
  }

  /** A value either velocity slot can hold: standing still or one unit step. */
  predicate IsVelocity(v: Vec) {
    v == Zero || IsDirection(v)
  }

  function Add(c: Cell, v: Vec): Cell {
    Cell(c.x + v.dx, c.y + v.dy)
  }

  /** The cell lies on the n-by-n board. */
  predicate InGrid(c: Cell, n: int) {
    0 <= c.x < n && 0 <= c.y < n
  }

  /**
    The reversal guard shared by direction changes and the autopilot's safety
    test: the request is non-zero on an axis and opposes the current velocity there.
   */
  predicate Reverses(current: Vec, v: Vec) {
    (v.dx != 0 && v.dx == -current.dx) || (v.dy != 0 && v.dy == -current.dy)
  }

  /** No cell occurs twice. */
  predicate Distinct(s: seq<Cell>) {
    forall i, j :: 0 <= i < j < |s| ==> s[i] != s[j]
  }

  predicate AllInGrid(s: seq<Cell>, n: int) {
    forall i :: 0 <= i < |s| ==> InGrid(s[i], n)
  }

  /** Math.abs on integers. */
  function Abs(i: int): nat {
    if i < 0 then -i else i
  }

  /**
    For the velocities the game uses, the reversal guard rejects exactly the
    step that points the opposite way, and never a step when standing still.
   */
  lemma ReversesIsOpposite(current: Vec, v: Vec)
    requires IsVelocity(current) && IsDirection(v)
    ensures Reverses(current, v) <==> current == Vec(-v.dx, -v.dy)
    ensures current == Zero ==> !Reverses(current, v)
  {
  }

  /** A velocity never reverses itself, so copying pending into current is always admissible. */
  lemma NeverReversesItself(v: Vec)
    requires IsVelocity(v)
    ensures !Reverses(v, v)
  {
  }
}
