/**
  Food placement. The page draws uniformly random cells until one is not
  occupied by the snake. The random source is modelled as the sequence of
  cells it would produce, `draws`; every draw lies on the board because each
  coordinate is the floor of a number in [0, 1) times the board size.
 */
module Food {
  import opened Grid

  /** Some draw is free, so the rejection loop stops. */
  predicate Supplies(draws: seq<Cell>, occupied: seq<Cell>) {
    exists i :: 0 <= i < |draws| && draws[i] !in occupied
  }

  /** The index of the draw the rejection loop accepts: the first one that is free. */
  function FirstFreeIndex(draws: seq<Cell>, occupied: seq<Cell>): (k: nat)
    requires Supplies(draws, occupied)
    ensures k < |draws| && draws[k] !in occupied
    ensures forall j :: 0 <= j < k ==> draws[j] in occupied
  {
    if draws[0] !in occupied then 0
    else
      var i :| 0 <= i < |draws| && draws[i] !in occupied;
      assert draws[1..][i - 1] == draws[i];
      1 + FirstFreeIndex(draws[1..], occupied)
  }

  /** The cell the rejection loop places the food on. */
  function FirstFree(draws: seq<Cell>, occupied: seq<Cell>): Cell
    requires Supplies(draws, occupied)
  {
    draws[FirstFreeIndex(draws, occupied)]
  }

  /** The placed food is one of the draws, on the board and off the snake. */
  lemma FirstFreeIsPlacement(draws: seq<Cell>, occupied: seq<Cell>, n: int)
    requires AllInGrid(draws, n) && Supplies(draws, occupied)
    ensures FirstFree(draws, occupied) in draws
    ensures InGrid(FirstFree(draws, occupied), n)
    ensures FirstFree(draws, occupied) !in occupied
  {
  }

  /**
    On a board that is not full a free cell exists, so a random source that
    eventually hits every cell makes the rejection loop stop; only a snake
    covering the whole board starves it.
   */
  lemma FreeCellExists(snake: seq<Cell>, n: nat)
    requires |snake| < n * n
    ensures exists c :: InGrid(c, n) && c !in snake
  {
    var board := Rows(n, n);
    Pigeonhole(board, snake);
    var c :| c in board && c !in snake;
    assert InGrid(c, n);
  }

  /** The cells of row y, left to right. */
  function Row(y: int, n: nat): (r: seq<Cell>)
    ensures |r| == n
    ensures forall c :: c in r <==> c.y == y && 0 <= c.x < n
    ensures Distinct(r)
  {
    if n == 0 then [] else Row(y, n - 1) + [Cell(n - 1, y)]
  }

  /** The cells of the first k rows of an n-wide board, row by row. */
  function Rows(k: nat, n: nat): (b: seq<Cell>)
    ensures |b| == k * n
    ensures forall c :: c in b <==> 0 <= c.x < n && 0 <= c.y < k
    ensures Distinct(b)
  {
    if k == 0 then []
    else
      var front, last := Rows(k - 1, n), Row(k - 1, n);
      ConcatDistinct(front, last);
      assert (k - 1) * n + n == k * n;
      front + last
  }

  /** Two overlap-free lists with no cell in common concatenate to an overlap-free list. */
  lemma ConcatDistinct(a: seq<Cell>, b: seq<Cell>)
    requires Distinct(a) && Distinct(b)
    requires forall c :: c in a ==> c !in b
    ensures Distinct(a + b)
  {
    forall i, j | 0 <= i < j < |a + b| ensures (a + b)[i] != (a + b)[j] {
      if j < |a| {
        assert (a + b)[i] == a[i] && (a + b)[j] == a[j];
      } else if i >= |a| {
        assert (a + b)[i] == b[i - |a|] && (a + b)[j] == b[j - |a|];
      } else {
        assert (a + b)[i] == a[i] && a[i] in a;
        assert (a + b)[j] == b[j - |a|] && b[j - |a|] in b;
      }
    }
  }

  /** a without x. */
  function Without(a: seq<Cell>, x: Cell): (r: seq<Cell>)
    ensures forall c :: c in r <==> c in a && c != x
    ensures Distinct(a) ==> Distinct(r) && |r| == if x in a then |a| - 1 else |a|
  {
    if a == [] then []
    else
      var rest := Without(a[1..], x);
      assert Distinct(a) ==> Distinct(a[1..]) && a[0] !in a[1..] by {
        if Distinct(a) {
          forall i, j | 0 <= i < j < |a[1..]| ensures a[1..][i] != a[1..][j] {
            assert a[1..][i] == a[i + 1] && a[1..][j] == a[j + 1];
          }
          forall i | 0 <= i < |a[1..]| ensures a[1..][i] != a[0] {
            assert a[1..][i] == a[i + 1];
          }
        }
      }
      assert a == [a[0]] + a[1..];
      if a[0] == x then rest
      else
        assert forall i :: 0 < i < |[a[0]] + rest| ==> ([a[0]] + rest)[i] == rest[i - 1];
        [a[0]] + rest
  }

  /** More distinct cells than places to put them: one is left over. */
  lemma {:induction false} Pigeonhole(a: seq<Cell>, b: seq<Cell>)
    requires Distinct(a) && |a| > |b|
    ensures exists c :: c in a && c !in b
    decreases |b|
  {
    if b == [] {
      assert a[0] in a;
    } else {
      var x, rest := b[|b| - 1], b[..|b| - 1];
      assert b == rest + [x];
      Pigeonhole(Without(a, x), rest);
      var c :| c in Without(a, x) && c !in rest;
      assert c in a && c !in b;
    }
  }
}
