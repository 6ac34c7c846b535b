/**
  The label shown next to the speed slider. The slider sets the tick
  interval in milliseconds: the shorter the interval, the faster the snake.
 */
module Speed {

  /** The five labels, from the shortest interval to the longest. */
  datatype Label = Fast | Quick | Normal | Slow | VerySlow

  /** Position of a label from fastest (0) to slowest (4). */
  function Rank(l: Label): nat {
    match l
    case Fast => 0
    case Quick => 1
    case Normal => 2
    case Slow => 3
    case VerySlow => 4
  }

  /** updateSpeedText, without the DOM write: thresholds 70, 90, 110 and 150 ms. */
  function SpeedLabel(interval: int): Label {
    if interval < 70 then Fast
    else if interval < 90 then Quick
    else if interval < 110 then Normal
    else if interval < 150 then Slow
    else VerySlow
  }

  /** Each label covers exactly one half-open band of intervals. */
  lemma SpeedLabelBands(interval: int)
    ensures SpeedLabel(interval) == Fast <==> interval < 70
    ensures SpeedLabel(interval) == Quick <==> 70 <= interval < 90
    ensures SpeedLabel(interval) == Normal <==> 90 <= interval < 110
    ensures SpeedLabel(interval) == Slow <==> 110 <= interval < 150
    ensures SpeedLabel(interval) == VerySlow <==> 150 <= interval
  {
  }

  /** A longer interval never reads as a faster speed. */
  lemma SpeedLabelMonotone(a: int, b: int)
    requires a <= b
    ensures Rank(SpeedLabel(a)) <= Rank(SpeedLabel(b))
  {
  }
}
