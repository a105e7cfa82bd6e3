/** The game's physics routines as they run on the live `Ball` objects of the
    rack: each method changes the balls in place, and its contract says that
    the new states are exactly what the matching function of module Physics
    computes from the old ones. */
module Services {
  import opened Geometry
  import opened Table
  import opened Balls
  import opened Physics

  /** Puts a ball past a wall back on the containment rectangle and turns
      its momentum around. The momentum is read once before both axis
      checks, as the game does. */
  method CheckWallCollision(ball: Ball)
    modifies ball
    ensures ball.State() == WallBounce(old(ball.State()))
  {
    var momentum := ball.momentum;
    if ball.position.x > MaxX {
      ball.position := ball.position.(x := MaxX);
      ball.SetMomentum(Vec(momentum.x * -1.0, momentum.y));
    } else if ball.position.x < MinX {
      ball.position := ball.position.(x := MinX);
      ball.SetMomentum(Vec(momentum.x * -1.0, momentum.y));
    }
    if ball.position.y > MaxY {
      ball.position := ball.position.(y := MaxY);
      ball.SetMomentum(Vec(momentum.x, momentum.y * -1.0));
    } else if ball.position.y < MinY {
      ball.position := ball.position.(y := MinY);
      ball.SetMomentum(Vec(momentum.x, momentum.y * -1.0));
    }
  }

  /** The collision response between two distinct balls whose centres are
      apart. `impulse * normal` is computed as `(dot / |delta|^2) * delta`,
      which lemma Physics.CollideAlongUnitNormal shows equal to the game's
      unit-normal form; the no-op test `dot == 0` is its `impulse === 0`. */
  method HandleCollision(ball1: Ball, ball2: Ball)
    requires ball1 != ball2
    requires HandlerDefined(ball1.State(), ball2.State())
    modifies ball1, ball2
    ensures (ball1.State(), ball2.State()) == Collide(old(ball1.State()), old(ball2.State()))
  {
    var pos1, pos2 := ball1.position, ball2.position;
    var delta := Sub(pos1, pos2);
    var momentum1, momentum2 := ball1.momentum, ball2.momentum;
    var dot := Dot(Sub(momentum2, momentum1), delta);
    if dot == 0.0 {
      return;
    }
    var k := dot / LenSq(delta);
    ball1.AddMomentum(Scale(k, delta));
    ball2.AddMomentum(Scale(-k, delta));
    ball1.MovePosition(Vec(Sign(delta.x), Sign(delta.y)));
    ball2.MovePosition(Vec(-Sign(delta.x), -Sign(delta.y)));
  }

  /** After one pair step on the live balls, the rack's states are those
      of `CollideAt` on the states before it. */
  lemma PairStepSnapshot(before: seq<BallState>, after: seq<BallState>, i: nat, j: nat,
                         a: BallState, b: BallState)
    requires i < j < |before| && |after| == |before|
    requires Overlapping(before[i], before[j]) && HandlerDefined(before[i], before[j])
    requires (a, b) == Collide(before[i], before[j])
    requires after[i] == a && after[j] == b
    requires forall k :: 0 <= k < |before| && k != i && k != j ==> after[k] == before[k]
    ensures after == CollideAt(before, i, j)
  {
  }

  /** One step of the pair pass for balls `i < j`: the handler runs when
      their centres are currently closer than a diameter and apart. */
  method CheckPair(balls: seq<Ball>, i: nat, j: nat)
    requires Distinct(balls) && i < j < |balls|
    modifies balls[i], balls[j]
    ensures Snapshot(balls) == CollideAt(old(Snapshot(balls)), i, j)
  {
    ghost var before := Snapshot(balls);
    var ball1, ball2 := balls[i], balls[j];
    var sq := SqDist(ball1.position, ball2.position);
    if 0.0 < sq < 4.0 * BallRadius * BallRadius {
      ghost var pair := Collide(before[i], before[j]);
      HandleCollision(ball1, ball2);
      forall k | 0 <= k < |balls| && k != i && k != j ensures balls[k].State() == before[k] {
        assert balls[k] != ball1 && balls[k] != ball2;
      }
      PairStepSnapshot(before, Snapshot(balls), i, j, pair.0, pair.1);
    }
  }

  /** The pair pass: for every pair `i < j` in increasing order, one pair
      step. Pairs on one centre are passed over (see the findings in
      README). */
  method CheckBallsForCollisions(balls: seq<Ball>)
    requires Distinct(balls)
    modifies set b | b in balls
    ensures Snapshot(balls) == CollisionPass(old(Snapshot(balls)))
  {
    var n := |balls|;
    ghost var target := CollisionPass(Snapshot(balls));
    ghost var cur := Snapshot(balls);
    var i := 0;
    while i < n
      invariant 0 <= i <= n && Snapshot(balls) == cur && |cur| == n
      invariant i < n ==> ApplyPairs(CollideAt, cur, PairsFrom(n, i, i + 1)) == target
      invariant i == n ==> cur == target
    {
      CheckPairsOf(balls, i);
      RowThenRest(CollideAt, cur, n, i);
      cur := Snapshot(balls);
      i := i + 1;
    }
  }

  /** The first pair steps `(i, i + 1)`, ..., `(i, j - 1)` of row `i`, in
      order. */
  ghost function RowSteps(step: (seq<BallState>, nat, nat) -> seq<BallState>,
                          st: seq<BallState>, i: nat, j: nat): seq<BallState>
    decreases j
  {
    if j <= i + 1 then st else step(RowSteps(step, st, i, j - 1), i, j - 1)
  }

  /** The inner loop of the pass: the pair steps `(i, j)` for `j` from
      `i + 1` up, in order. */
  method CheckPairsOf(balls: seq<Ball>, i: nat)
    requires Distinct(balls) && i < |balls|
    modifies set b | b in balls
    ensures Snapshot(balls) == RowSteps(CollideAt, old(Snapshot(balls)), i, |balls|)
  {
    var n := |balls|;
    ghost var start := Snapshot(balls);
    var j := i + 1;
    while j < n
      invariant i + 1 <= j <= n && Snapshot(balls) == RowSteps(CollideAt, start, i, j)
    {
      // The game returns here when `i === j`, which the bounds rule out.
      assert i != j;
      CheckPair(balls, i, j);
      j := j + 1;
    }
  }

  /** Running row `i` and then the pairs after it is the pass from the
      start of row `i`. */
  lemma RowThenRest(step: (seq<BallState>, nat, nat) -> seq<BallState>,
                    st: seq<BallState>, n: nat, i: nat)
    requires i < n
    ensures i + 1 < n ==>
      ApplyPairs(step, st, PairsFrom(n, i, i + 1)) == ApplyPairs(step, RowSteps(step, st, i, n), PairsFrom(n, i + 1, i + 2))
    ensures i + 1 == n ==> ApplyPairs(step, st, PairsFrom(n, i, i + 1)) == RowSteps(step, st, i, n)
  {
    RowPrefix(step, st, n, i, n);
    assert PairsFrom(n, i, n) == (if i + 1 < n then PairsFrom(n, i + 1, i + 2) else []);
  }

  /** After the first steps of row `i`, the rest of the pass is what is
      left of the pass from the start of the row. */
  lemma {:induction false} RowPrefix(step: (seq<BallState>, nat, nat) -> seq<BallState>,
                                     st: seq<BallState>, n: nat, i: nat, j: nat)
    requires i < j <= n
    ensures ApplyPairs(step, st, PairsFrom(n, i, i + 1))
         == ApplyPairs(step, RowSteps(step, st, i, j), PairsFrom(n, i, j))
    decreases j
  {
    if j > i + 1 {
      RowPrefix(step, st, n, i, j - 1);
      ApplyPairsStep(step, RowSteps(step, st, i, j - 1), n, i, j - 1);
    }
  }

  /** The pass from `(i, j)` is the pair step `(i, j)` followed by the pass
      from `(i, j + 1)`. */
  lemma ApplyPairsStep(step: (seq<BallState>, nat, nat) -> seq<BallState>,
                       st: seq<BallState>, n: nat, i: nat, j: nat)
    requires i < j < n
    ensures ApplyPairs(step, st, PairsFrom(n, i, j)) == ApplyPairs(step, step(st, i, j), PairsFrom(n, i, j + 1))
  {
    assert PairsFrom(n, i, j) == [(i, j)] + PairsFrom(n, i, j + 1);
  }

  /** The physics of one ball in one animation frame: the wall check, the
      move by minus the momentum, then friction. */
  method AnimateBall(ball: Ball)
    modifies ball
    ensures ball.State() == Advance(old(ball.State()))
  {
    CheckWallCollision(ball);
    var momentum := ball.momentum;
    ball.MovePosition(Vec(-momentum.x, -momentum.y));
    ball.MultiplyMomentum(Friction);
  }

  /** Every ball advanced by one frame, one after the other. */
  method AnimateBalls(balls: seq<Ball>)
    requires Distinct(balls)
    modifies set b | b in balls
    ensures Snapshot(balls) == AdvanceAll(old(Snapshot(balls)))
  {
    ghost var start := Snapshot(balls);
    var k := 0;
    while k < |balls|
      invariant 0 <= k <= |balls|
      invariant forall m :: 0 <= m < k ==> balls[m].State() == Advance(start[m])
      invariant forall m :: k <= m < |balls| ==> balls[m].State() == start[m]
    {
      AnimateBall(balls[k]);
      forall m | 0 <= m < |balls| && m != k ensures balls[m] != balls[k] {
        if m < k { assert balls[m] != balls[k]; } else { assert balls[k] != balls[m]; }
      }
      k := k + 1;
    }
  }

  /** Every momentum set to `(0, 0)`. */
  method ResetMomentums(balls: seq<Ball>)
    requires Distinct(balls)
    modifies set b | b in balls
    ensures Snapshot(balls) == ResetAll(old(Snapshot(balls)))
  {
    ghost var start := Snapshot(balls);
    var k := 0;
    while k < |balls|
      invariant 0 <= k <= |balls|
      invariant forall m :: 0 <= m < k ==> balls[m].State() == start[m].(momentum := Zero)
      invariant forall m :: k <= m < |balls| ==> balls[m].State() == start[m]
    {
      balls[k].SetMomentum(Zero);
      forall m | 0 <= m < |balls| && m != k ensures balls[m] != balls[k] {
        if m < k { assert balls[m] != balls[k]; } else { assert balls[k] != balls[m]; }
      }
      k := k + 1;
    }
  }

  /** The stop test: every ball's momentum is shorter than the threshold. */
  method EverySettled(balls: seq<Ball>) returns (settled: bool)
    ensures settled <==> Settled(Snapshot(balls))
  {
    var k := 0;
    while k < |balls|
      invariant 0 <= k <= |balls|
      invariant forall m :: 0 <= m < k ==>
        LenSq(balls[m].momentum) < SettleThreshold * SettleThreshold
    {
      if !(LenSq(balls[k].momentum) < SettleThreshold * SettleThreshold) {
        assert !(LenSq(Snapshot(balls)[k].momentum) < SettleThreshold * SettleThreshold);
        return false;
      }
      k := k + 1;
    }
    return true;
  }

  /** One animation frame: the pair pass, every ball advanced, and the stop
      test; on a stop every momentum is cleared and `done` is true. */
  method Tick(balls: seq<Ball>) returns (done: bool)
    requires Distinct(balls)
    modifies set b | b in balls
    ensures done <==> Settled(Step(old(Snapshot(balls))))
    ensures Snapshot(balls) == if done then ResetAll(Step(old(Snapshot(balls))))
                               else Step(old(Snapshot(balls)))
  {
    CheckBallsForCollisions(balls);
    AnimateBalls(balls);
    done := EverySettled(balls);
    if done {
      ResetMomentums(balls);
    }
  }

  /** The cursor hit test: the cursor is strictly within a radius of the
      centre. */
  predicate UnderCursor(cursor: Vec, centre: Vec)
  {
    var dx, dy := cursor.x - centre.x, cursor.y - centre.y;
    dx * dx + dy * dy < BallRadius * BallRadius
  }

  /** The index of the first ball under the cursor, or -1 when there is
      none. */
  method GetBallUnderCursorIndex(cursor: Vec, balls: seq<Ball>) returns (index: int)
    ensures -1 <= index < |balls|
    ensures index == -1 <==> forall k :: 0 <= k < |balls| ==> !UnderCursor(cursor, balls[k].position)
    ensures index >= 0 ==> UnderCursor(cursor, balls[index].position)
    ensures index >= 0 ==> forall k :: 0 <= k < index ==> !UnderCursor(cursor, balls[k].position)
  {
    var k := 0;
    while k < |balls|
      invariant 0 <= k <= |balls|
      invariant forall m :: 0 <= m < k ==> !UnderCursor(cursor, balls[m].position)
    {
      var pos := balls[k].position;
      var dx, dy := cursor.x - pos.x, cursor.y - pos.y;
      if dx * dx + dy * dy < BallRadius * BallRadius {
        return k;
      }
      k := k + 1;
    }
    return -1;
  }

  /** A new ball for every opening position, in order, the cue ball in the
      first colour and all others in the second. */
  method GetInitialBalls() returns (balls: seq<Ball>)
    ensures Distinct(balls)
    ensures forall k :: 0 <= k < |balls| ==> fresh(balls[k])
    ensures Snapshot(balls) == InitialRack()
  {
    balls := [];
    var k := 0;
    while k < |InitCoords|
      invariant 0 <= k <= |InitCoords| && |balls| == k
      invariant Distinct(balls)
      invariant forall m :: 0 <= m < k ==> fresh(balls[m])
      invariant forall m :: 0 <= m < k ==> balls[m].State() == InitialRack()[m]
    {
      var ball := new Ball(InitCoords[k], AmericanColors[if k == 0 then 0 else 1]);
      balls := balls + [ball];
      k := k + 1;
    }
  }

  /** The shot: the power from the drag length `dist` (the square root of
      the squared distance from the ball to the cursor); with zero power
      nothing happens and the result is false, otherwise the ball gets the
      shot momentum and the result is true. */
  method Shoot(balls: seq<Ball>, selected: nat, cursor: Vec, dist: real) returns (fired: bool)
    requires selected < |balls|
    requires dist >= 0.0 && dist * dist == SqDist(cursor, balls[selected].position)
    modifies balls[selected]
    ensures fired <==> ShotPower(dist) != 0.0
    ensures !fired ==> balls[selected].State() == old(balls[selected].State())
    ensures fired ==>
      balls[selected].State() ==
      old(balls[selected].State()).(momentum := ShotMomentum(old(balls[selected].position), cursor, dist))
  {
    var ball := balls[selected];
    var position := ball.position;
    var shootPower := ShotPower(dist);
    if shootPower == 0.0 {
      return false;
    }
    ball.SetMomentum(ShotMomentum(position, cursor, dist));
    return true;
  }
}
