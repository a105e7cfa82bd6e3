/** One ball of the rack: a mutable record of position, momentum and colour.
    The game declares only the fields and the constructor; the accessors its
    physics calls are given here their evident meaning (replace, add
    componentwise, scale). */
module Balls {
  import opened Geometry

  /** The value of a ball's fields at one instant. */
  datatype BallState = BallState(position: Vec, momentum: Vec, color: string)

  class Ball {
    var position: Vec
    var momentum: Vec
    var color: string

    constructor (position: Vec, color: string)
      ensures this.position == position
      ensures this.momentum == Zero
      ensures this.color == color
    {
      this.position := position;
      this.momentum := Zero;
      this.color := color;
    }

    function State(): BallState
      reads this
    {
      BallState(position, momentum, color)
    }

    method SetMomentum(m: Vec)
      modifies this
      ensures State() == old(State()).(momentum := m)
    {
      momentum := m;
    }

    method AddMomentum(v: Vec)
      modifies this
      ensures State() == old(State()).(momentum := Add(old(momentum), v))
    {
      momentum := Add(momentum, v);
    }

    method MultiplyMomentum(k: real)
      modifies this
      ensures State() == old(State()).(momentum := Scale(k, old(momentum)))
    {
      momentum := Scale(k, momentum);
    }

    method MovePosition(v: Vec)
      modifies this
      ensures State() == old(State()).(position := Add(old(position), v))
    {
      position := Add(position, v);
    }
  }

  /** The rack's balls are distinct objects. */
  predicate Distinct(balls: seq<Ball>)
  {
    forall i, j :: 0 <= i < j < |balls| ==> balls[i] != balls[j]
  }

  /** The states of all balls of the rack, in rack order. */
  function Snapshot(balls: seq<Ball>): (r: seq<BallState>)
    reads set b | b in balls
    ensures |r| == |balls|
    ensures forall i :: 0 <= i < |balls| ==> r[i] == balls[i].State()
  {
    seq(|balls|, i reads set b | b in balls requires 0 <= i < |balls| => balls[i].State())
  }
}
