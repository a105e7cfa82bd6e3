/** The physics of the game on ball values: wall check, collision response,
    the pair pass, one tick of motion and friction, settling, and shot power.
    The imperative methods in module Services are proved to compute exactly
    these functions on the rack's states. */
module Physics {
  import opened Geometry
  import opened Table
  import opened Balls

  /** Per-tick multiplicative friction. */
  const Friction: real := 0.99

  /** A ball whose momentum is shorter than this counts as stopped. */
  const SettleThreshold: real := 0.1

  /** Shot power is divided by this to become a per-tick momentum. */
  const ShotScale: real := 20.0

  // ---------------------------------------------------------------------
  // Wall check
  // ---------------------------------------------------------------------

  predicate OutsideX(p: Vec) { p.x > MaxX || p.x < MinX }

  predicate OutsideY(p: Vec) { p.y > MaxY || p.y < MinY }

  function Clamp(v: real, lo: real, hi: real): real
  {
    if v > hi then hi else if v < lo then lo else v
  }

  /** A ball past a wall is put back on the containment rectangle and the
      momentum component perpendicular to that wall changes sign. Both axis
      branches start from the momentum read before either branch runs, so
      when a ball is past an x wall and a y wall at once, the y branch
      writes back the unflipped x component. */
  function WallBounce(b: BallState): (r: BallState)
    ensures Contained(r.position)
    ensures r.color == b.color
    ensures Contained(b.position) ==> r == b
    ensures !OutsideX(b.position) ==> r.position.x == b.position.x
    ensures !OutsideY(b.position) ==> r.position.y == b.position.y
    ensures Abs(r.momentum.x) == Abs(b.momentum.x) && Abs(r.momentum.y) == Abs(b.momentum.y)
    ensures LenSq(r.momentum) == LenSq(b.momentum)
  {
    var p, m := b.position, b.momentum;
    var afterX := if OutsideX(p) then Vec(m.x * -1.0, m.y) else m;
    var afterY := if OutsideY(p) then Vec(m.x, m.y * -1.0) else afterX;
    BallState(Vec(Clamp(p.x, MinX, MaxX), Clamp(p.y, MinY, MaxY)), afterY, b.color)
  }

  /** A coordinate past a wall is set to that wall: `W - BR - PTB` or
      `BR + PTB` in x, `H - BR - PTB` or `BR + PTB` in y. */
  lemma WallBounceClampsToWall(b: BallState)
    ensures OutsideX(b.position) ==>
      WallBounce(b).position.x == (if b.position.x > MaxX then MaxX else MinX)
    ensures OutsideY(b.position) ==>
      WallBounce(b).position.y == (if b.position.y > MaxY then MaxY else MinY)
  {
  }

  /** A ball past exactly one wall has only the perpendicular momentum
      component negated. */
  lemma WallBounceSingleWall(b: BallState)
    ensures OutsideX(b.position) && !OutsideY(b.position) ==>
      WallBounce(b).momentum == Vec(-b.momentum.x, b.momentum.y)
    ensures !OutsideX(b.position) && OutsideY(b.position) ==>
      WallBounce(b).momentum == Vec(b.momentum.x, -b.momentum.y)
  {
  }

  /** A ball past two walls at once is put on the corner, and only its
      y component ends up negated. */
  lemma WallBounceCorner(b: BallState)
    requires OutsideX(b.position) && OutsideY(b.position)
    ensures WallBounce(b).momentum == Vec(b.momentum.x, -b.momentum.y)
    ensures WallBounce(b).position.x == (if b.position.x > MaxX then MaxX else MinX)
    ensures WallBounce(b).position.y == (if b.position.y > MaxY then MaxY else MinY)
  {
  }

  // ---------------------------------------------------------------------
  // Ball-ball collision response
  // ---------------------------------------------------------------------

  /** The handler divides by the distance between the centres, so it is
      defined only for distinct centres. */
  predicate HandlerDefined(a: BallState, b: BallState)
  {
    SqDist(a.position, b.position) > 0.0
  }

  /** `(m2 - m1) . (p1 - p2)`: the impulse times the centre distance. */
  function ImpulseDot(a: BallState, b: BallState): real
  {
    Dot(Sub(b.momentum, a.momentum), Sub(a.position, b.position))
  }

  /** Equal and opposite impulse along the line of centres, then each ball
      is nudged one unit per axis away from the other. The impulse times the
      unit normal is `(dot / |delta|^2) * delta`; lemma CollideAlongUnitNormal
      shows that this is the unit-normal formula for any square root `d`. */
  function Collide(a: BallState, b: BallState): (r: (BallState, BallState))
    requires HandlerDefined(a, b)
    ensures Add(r.0.momentum, r.1.momentum) == Add(a.momentum, b.momentum)
    ensures Add(r.0.position, r.1.position) == Add(a.position, b.position)
    ensures r.0.color == a.color && r.1.color == b.color
    ensures ImpulseDot(a, b) == 0.0 <==> r == (a, b)
  {
    var delta := Sub(a.position, b.position);
    var dot := ImpulseDot(a, b);
    if dot == 0.0 then (a, b)
    else
      var k := dot / LenSq(delta);
      var push := Scale(k, delta);
      var nudge := Vec(Sign(delta.x), Sign(delta.y));
      assert push != Zero by { NonZeroScale(k, delta); }
      (BallState(Add(a.position, nudge), Add(a.momentum, push), a.color),
       BallState(Sub(b.position, nudge), Sub(b.momentum, push), b.color))
  }

  lemma NonZeroScale(k: real, v: Vec)
    requires k != 0.0 && LenSq(v) > 0.0
    ensures Scale(k, v) != Zero
  {
    if v.x == 0.0 {
      assert v.y != 0.0;
      assert k * v.y != 0.0;
    } else {
      assert k * v.x != 0.0;
    }
  }

  /** The collision keeps the summed squared momentum lengths. */
  lemma CollideKeepsEnergy(a: BallState, b: BallState)
    requires HandlerDefined(a, b)
    ensures LenSq(Collide(a, b).0.momentum) + LenSq(Collide(a, b).1.momentum)
         == LenSq(a.momentum) + LenSq(b.momentum)
  {
    if ImpulseDot(a, b) != 0.0 {
      CollideMomenta(a, b);
      var delta := Sub(a.position, b.position);
      var k := ImpulseDot(a, b) / LenSq(delta);
      assert k * LenSq(delta) == ImpulseDot(a, b);
      ExchangeKeepsEnergy(a.momentum, b.momentum, delta, k);
    }
  }

  /** The push `k * delta` with `k * |delta|^2 = (m2 - m1) . delta`, added to
      one momentum and taken from the other, keeps the summed squares. */
  lemma ExchangeKeepsEnergy(m1: Vec, m2: Vec, delta: Vec, k: real)
    requires k * LenSq(delta) == Dot(Sub(m2, m1), delta)
    ensures LenSq(Add(m1, Scale(k, delta))) + LenSq(Sub(m2, Scale(k, delta)))
         == LenSq(m1) + LenSq(m2)
  {
    PushLenSq(m1, k, delta);
    PullLenSq(m2, k, delta);
    DotOfDifference(m1, m2, delta);
    KineticBalance(LenSq(Add(m1, Scale(k, delta))), LenSq(Sub(m2, Scale(k, delta))),
                   LenSq(m1), LenSq(m2), Dot(m1, delta), Dot(m2, delta), k, LenSq(delta));
  }

  lemma PushLenSq(m: Vec, c: real, d: Vec)
    ensures LenSq(Add(m, Scale(c, d))) == LenSq(m) + 2.0 * c * Dot(m, d) + c * c * LenSq(d)
  {
  }

  lemma PullLenSq(m: Vec, c: real, d: Vec)
    ensures LenSq(Sub(m, Scale(c, d))) == LenSq(m) - 2.0 * c * Dot(m, d) + c * c * LenSq(d)
  {
  }

  lemma DotOfDifference(a: Vec, b: Vec, d: Vec)
    ensures Dot(Sub(b, a), d) == Dot(b, d) - Dot(a, d)
  {
  }

  lemma KineticBalance(e1: real, e2: real, l1: real, l2: real, p1: real, p2: real, k: real, s: real)
    requires k * s == p2 - p1
    requires e1 == l1 + 2.0 * k * p1 + k * k * s && e2 == l2 - 2.0 * k * p2 + k * k * s
    ensures e1 + e2 == l1 + l2
  {
    assert k * k * s == k * (p2 - p1);
  }

  /** The momentum changes of a collision with a non-zero impulse. */
  lemma CollideMomenta(a: BallState, b: BallState)
    requires HandlerDefined(a, b) && ImpulseDot(a, b) != 0.0
    ensures var delta := Sub(a.position, b.position);
            var k := ImpulseDot(a, b) / LenSq(delta);
            Collide(a, b).0.momentum == Add(a.momentum, Scale(k, delta)) &&
            Collide(a, b).1.momentum == Sub(b.momentum, Scale(k, delta))
  {
  }

  /** With a non-zero impulse, each ball is moved one unit per axis away
      from the other: along the sign of each component of the centre
      difference, not along the line of centres. The centres end up strictly
      further apart. */
  lemma CollideNudgesApart(a: BallState, b: BallState)
    requires HandlerDefined(a, b) && ImpulseDot(a, b) != 0.0
    ensures var delta := Sub(a.position, b.position);
            var nudge := Vec(Sign(delta.x), Sign(delta.y));
            Collide(a, b).0.position == Add(a.position, nudge) &&
            Collide(a, b).1.position == Sub(b.position, nudge)
    ensures SqDist(Collide(a, b).0.position, Collide(a, b).1.position) > SqDist(a.position, b.position)
  {
    var delta := Sub(a.position, b.position);
    var after := Sub(Collide(a, b).0.position, Collide(a, b).1.position);
    assert after == Vec(delta.x + 2.0 * Sign(delta.x), delta.y + 2.0 * Sign(delta.y));
    SpreadSquare(delta.x);
    SpreadSquare(delta.y);
  }

  /** Moving a coordinate two units further from zero along its sign does
      not shrink its square, and grows it when the coordinate is non-zero. */
  lemma SpreadSquare(t: real)
    ensures (t + 2.0 * Sign(t)) * (t + 2.0 * Sign(t)) >= t * t
    ensures t != 0.0 ==> (t + 2.0 * Sign(t)) * (t + 2.0 * Sign(t)) > t * t
  {
  }

  /** `impulse * n` for `n = delta / d` and `impulse = rel . n` is
      `(rel . delta / |delta|^2) * delta`. */
  lemma UnitNormalArith(dx: real, dy: real, rx: real, ry: real, d: real)
    requires d > 0.0 && d * d == dx * dx + dy * dy
    ensures var u := 1.0 / d;
            var impulse := rx * (u * dx) + ry * (u * dy);
            var dot := rx * dx + ry * dy;
            (impulse == 0.0 <==> dot == 0.0) &&
            (u * dx) * (u * dx) + (u * dy) * (u * dy) == 1.0 &&
            impulse * (u * dx) == (dot / (dx * dx + dy * dy)) * dx &&
            impulse * (u * dy) == (dot / (dx * dx + dy * dy)) * dy
  {
    var u := 1.0 / d;
    var s := dx * dx + dy * dy;
    var dot := rx * dx + ry * dy;
    var impulse := rx * (u * dx) + ry * (u * dy);
    assert u * d == 1.0;
    assert impulse == u * dot;
    assert u != 0.0;
    assert u * u * s == 1.0 by {
      assert u * u * s == (u * d) * (u * d);
    }
    assert (u * dx) * (u * dx) + (u * dy) * (u * dy) == u * u * s;
    assert u * u == 1.0 / s;
    assert impulse * (u * dx) == (u * u) * dot * dx;
    assert impulse * (u * dy) == (u * u) * dot * dy;
  }

  /** With `d` the distance the source computes, the momentum changes are
      `+impulse * n` and `-impulse * n` for the unit normal `n = delta / d`
      and `impulse = (m2 - m1) . n`, and the no-op test `impulse == 0`
      agrees with the model's. */
  lemma CollideAlongUnitNormal(a: BallState, b: BallState, d: real)
    requires d > 0.0 && d * d == SqDist(a.position, b.position)
    ensures HandlerDefined(a, b)
    ensures var n := Scale(1.0 / d, Sub(a.position, b.position));
            var impulse := Dot(Sub(b.momentum, a.momentum), n);
            (impulse == 0.0 <==> ImpulseDot(a, b) == 0.0) &&
            (impulse != 0.0 ==>
               Collide(a, b).0.momentum == Add(a.momentum, Scale(impulse, n)) &&
               Collide(a, b).1.momentum == Add(b.momentum, Scale(-impulse, n)))
  {
    var delta := Sub(a.position, b.position);
    var rel := Sub(b.momentum, a.momentum);
    UnitNormalPush(delta, rel, d);
    var n := Scale(1.0 / d, delta);
    var impulse := Dot(rel, n);
    if impulse != 0.0 {
      CollideMomenta(a, b);
    }
  }

  /** For `n = delta / d` with `d` the length of `delta`, the push
      `(rel . n) * n` is `(rel . delta / |delta|^2) * delta`. */
  lemma UnitNormalPush(delta: Vec, rel: Vec, d: real)
    requires d > 0.0 && d * d == LenSq(delta)
    ensures var n := Scale(1.0 / d, delta);
            var k := Dot(rel, delta) / LenSq(delta);
            (Dot(rel, n) == 0.0 <==> Dot(rel, delta) == 0.0) &&
            Scale(Dot(rel, n), n) == Scale(k, delta) &&
            Scale(-Dot(rel, n), n) == Scale(-k, delta)
  {
    var u := 1.0 / d;
    var n := Scale(u, delta);
    var impulse, k := Dot(rel, n), Dot(rel, delta) / LenSq(delta);
    PushComponents(delta.x, delta.y, rel.x, rel.y, d, u, n.x, n.y,
                   impulse, Dot(rel, delta), LenSq(delta), k);
    ScaleAgrees(impulse, n, k, delta);
    ScaleAgrees(-impulse, n, -k, delta);
  }

  lemma ScaleAgrees(a: real, v: Vec, b: real, w: Vec)
    requires a * v.x == b * w.x && a * v.y == b * w.y
    ensures Scale(a, v) == Scale(b, w)
  {
  }

  lemma PushComponents(dx: real, dy: real, rx: real, ry: real, d: real, u: real, nx: real, ny: real,
                       impulse: real, dot: real, s: real, k: real)
    requires d > 0.0 && s == dx * dx + dy * dy && d * d == s && u == 1.0 / d
    requires nx == u * dx && ny == u * dy && impulse == rx * nx + ry * ny
    requires dot == rx * dx + ry * dy && k == dot / s
    ensures impulse == 0.0 <==> dot == 0.0
    ensures impulse * nx == k * dx && impulse * ny == k * dy
    ensures (-impulse) * nx == (-k) * dx && (-impulse) * ny == (-k) * dy
  {
    UnitNormalArith(dx, dy, rx, ry, d);
  }

  /** With the unit normal, the collision exchanges the two balls' normal
      momentum components and keeps both tangential components. */
  lemma CollideExchangesNormalComponents(a: BallState, b: BallState, d: real)
    requires d > 0.0 && d * d == SqDist(a.position, b.position)
    ensures HandlerDefined(a, b)
    ensures var n := Scale(1.0 / d, Sub(a.position, b.position));
            var t := Vec(-n.y, n.x);
            var r := Collide(a, b);
            Dot(r.0.momentum, n) == Dot(b.momentum, n) &&
            Dot(r.1.momentum, n) == Dot(a.momentum, n) &&
            Dot(r.0.momentum, t) == Dot(a.momentum, t) &&
            Dot(r.1.momentum, t) == Dot(b.momentum, t)
  {
    var delta := Sub(a.position, b.position);
    var rel := Sub(b.momentum, a.momentum);
    CollideAlongUnitNormal(a, b, d);
    var n := Scale(1.0 / d, delta);
    var t := Vec(-n.y, n.x);
    var impulse := Dot(rel, n);
    UnitNormalLength(delta, d);
    if impulse != 0.0 {
      ImpulseAlong(a.momentum, b.momentum, n, t, impulse);
    }
  }

  lemma UnitNormalLength(delta: Vec, d: real)
    requires d > 0.0 && d * d == LenSq(delta)
    ensures Dot(Scale(1.0 / d, delta), Scale(1.0 / d, delta)) == 1.0
  {
    UnitNormalArith(delta.x, delta.y, 0.0, 0.0, d);
  }

  lemma ImpulseAlong(m1: Vec, m2: Vec, n: Vec, t: Vec, impulse: real)
    requires Dot(n, n) == 1.0 && t == Vec(-n.y, n.x)
    requires impulse == Dot(Sub(m2, m1), n)
    ensures Dot(Add(m1, Scale(impulse, n)), n) == Dot(m2, n)
    ensures Dot(Add(m2, Scale(-impulse, n)), n) == Dot(m1, n)
    ensures Dot(Add(m1, Scale(impulse, n)), t) == Dot(m1, t)
    ensures Dot(Add(m2, Scale(-impulse, n)), t) == Dot(m2, t)
  {
    PushAlong(m1, impulse, n);
    PushAlong(m2, -impulse, n);
    assert impulse == Dot(m2, n) - Dot(m1, n);
  }

  /** Pushing `m` by `c * n` moves its component along `n` by `c * |n|^2`
      and leaves its component along `n` turned a right angle unchanged. */
  lemma PushAlong(m: Vec, c: real, n: Vec)
    ensures Dot(Add(m, Scale(c, n)), n) == Dot(m, n) + c * Dot(n, n)
    ensures Dot(Add(m, Scale(c, n)), Vec(-n.y, n.x)) == Dot(m, Vec(-n.y, n.x))
  {
  }

  // ---------------------------------------------------------------------
  // The pair pass
  // ---------------------------------------------------------------------

  /** `distance < 2 * BALL_RADIUS`, stated on squares. */
  predicate Overlapping(a: BallState, b: BallState)
  {
    SqDist(a.position, b.position) < 4.0 * BallRadius * BallRadius
  }

  /** The square comparison is the distance comparison for any square root. */
  lemma OverlapBySquares(a: BallState, b: BallState, dist: real)
    requires dist >= 0.0 && dist * dist == SqDist(a.position, b.position)
    ensures dist < 2.0 * BallRadius <==> Overlapping(a, b)
  {
    if dist < 2.0 * BallRadius {
      assert dist * dist <= dist * (2.0 * BallRadius) < (2.0 * BallRadius) * (2.0 * BallRadius);
    } else {
      assert dist * dist >= dist * (2.0 * BallRadius) >= (2.0 * BallRadius) * (2.0 * BallRadius);
    }
  }

  /** What one pair step of the pass yields as the source writes it: the
      handler runs on every overlapping pair, and on coincident centres its
      division by zero makes both momenta NaN. */
  datatype PairStep = Finite(states: seq<BallState>) | NotANumber

  function CollideAtAsWritten(st: seq<BallState>, i: nat, j: nat): PairStep
    requires i < j < |st|
  {
    if !Overlapping(st[i], st[j]) then Finite(st)
    else if !HandlerDefined(st[i], st[j]) then NotANumber
    else
      var pair := Collide(st[i], st[j]);
      Finite(st[i := pair.0][j := pair.1])
  }

  /** Two balls on the same centre pass the overlap test and reach the
      division by zero. */
  lemma CoincidentCentresReachDivision(st: seq<BallState>, i: nat, j: nat)
    requires i < j < |st| && st[i].position == st[j].position
    ensures Overlapping(st[i], st[j]) && !HandlerDefined(st[i], st[j])
    ensures CollideAtAsWritten(st, i, j) == NotANumber
  {
    var a, b := st[i], st[j];
    assert Sub(a.position, b.position) == Zero;
    assert SqDist(a.position, b.position) == 0.0;
    assert Overlapping(a, b) && !HandlerDefined(a, b);
  }

  /** One pair step of the pass: the handler runs when the centres are
      currently closer than a diameter; coincident centres are passed over,
      which keeps every state finite. The pass only ever names pairs
      `i < j` of the rack; any other pair leaves the rack as it is. */
  function CollideAt(st: seq<BallState>, i: nat, j: nat): (r: seq<BallState>)
    ensures |r| == |st|
  {
    if i < j < |st| && Overlapping(st[i], st[j]) && HandlerDefined(st[i], st[j]) then
      var pair := Collide(st[i], st[j]);
      st[i := pair.0][j := pair.1]
    else st
  }

  /** A pair step touches only the two balls of the pair, leaves them alone
      when they are a diameter or more apart, and agrees with the game's
      step wherever that step is defined. */
  lemma CollideAtFacts(st: seq<BallState>, i: nat, j: nat)
    requires i < j < |st|
    ensures forall k :: 0 <= k < |st| && k != i && k != j ==> CollideAt(st, i, j)[k] == st[k]
    ensures !Overlapping(st[i], st[j]) ==> CollideAt(st, i, j) == st
    ensures HandlerDefined(st[i], st[j]) ==> CollideAtAsWritten(st, i, j) == Finite(CollideAt(st, i, j))
  {
  }

  /** Two balls on one centre are passed over, so the pair step stays
      defined and finite where the game's would yield NaN. */
  lemma CollideAtSkipsCoincident(st: seq<BallState>, i: nat, j: nat)
    requires i < j < |st| && st[i].position == st[j].position
    ensures CollideAt(st, i, j) == st
    ensures CollideAtAsWritten(st, i, j) == NotANumber
  {
    CoincidentCentresReachDivision(st, i, j);
  }

  /** The pairs `(i, j)` with `i < j` in the order the nested loops visit
      them, starting from `(i, j)`. */
  function PairsFrom(n: nat, i: nat, j: nat): (ps: seq<(nat, nat)>)
    requires i < j
    ensures forall k :: 0 <= k < |ps| ==> i <= ps[k].0 < ps[k].1 < n
    ensures forall k :: 0 <= k < |ps| ==> ps[k].0 > i || ps[k].1 >= j
    decreases n - i, n - j
  {
    if j < n then [(i, j)] + PairsFrom(n, i, j + 1)
    else if i + 1 < n then PairsFrom(n, i + 1, i + 2)
    else []
  }

  predicate PairBefore(p: (nat, nat), q: (nat, nat))
  {
    p.0 < q.0 || (p.0 == q.0 && p.1 < q.1)
  }

  predicate Visits(ps: seq<(nat, nat)>, a: nat, b: nat)
  {
    (a, b) in ps
  }

  /** The pairs come in strictly increasing `(i, j)` order, so none twice. */
  lemma {:induction false} PairsFromOrdered(n: nat, i: nat, j: nat)
    requires i < j
    ensures forall a, b :: 0 <= a < b < |PairsFrom(n, i, j)| ==>
      PairBefore(PairsFrom(n, i, j)[a], PairsFrom(n, i, j)[b])
    decreases n - i, n - j
  {
    var ps := PairsFrom(n, i, j);
    if j < n {
      PairsFromOrdered(n, i, j + 1);
      var rest := PairsFrom(n, i, j + 1);
      assert ps == [(i, j)] + rest;
      forall a, b | 0 <= a < b < |ps| ensures PairBefore(ps[a], ps[b]) {
        assert ps[b] == rest[b - 1];
        if a == 0 {
          assert ps[a] == (i, j);
          assert rest[b - 1].0 > i || rest[b - 1].1 >= j + 1;
        } else {
          assert ps[a] == rest[a - 1];
        }
      }
    } else if i + 1 < n {
      assert ps == PairsFrom(n, i + 1, i + 2);
      PairsFromOrdered(n, i + 1, i + 2);
    }
  }

  /** Every pair still to come is visited. */
  lemma {:induction false} PairsFromComplete(n: nat, i: nat, j: nat)
    requires i < j
    ensures forall a: nat, b: nat :: ((a == i && j <= b) || i < a) && a < b < n ==>
      Visits(PairsFrom(n, i, j), a, b)
    decreases n - i, n - j
  {
    var ps := PairsFrom(n, i, j);
    if j < n {
      var rest := PairsFrom(n, i, j + 1);
      PairsFromComplete(n, i, j + 1);
      assert ps == [(i, j)] + rest;
      forall a: nat, b: nat | ((a == i && j <= b) || i < a) && a < b < n ensures Visits(ps, a, b) {
        if a == i && b == j {
          assert ps[0] == (a, b);
        } else {
          assert Visits(rest, a, b);
          var k :| 0 <= k < |rest| && rest[k] == (a, b);
          assert ps[k + 1] == (a, b);
        }
      }
    } else if i + 1 < n {
      assert ps == PairsFrom(n, i + 1, i + 2);
      PairsFromComplete(n, i + 1, i + 2);
    }
  }

  function CollisionPairs(n: nat): seq<(nat, nat)>
  {
    PairsFrom(n, 0, 1)
  }

  /** The pass visits each pair `i < j` of the rack exactly once, in
      increasing `(i, j)` order, and no other pair. */
  lemma CollisionPairsExactlyOnce(n: nat)
    ensures forall k :: 0 <= k < |CollisionPairs(n)| ==>
      CollisionPairs(n)[k].0 < CollisionPairs(n)[k].1 < n
    ensures forall a: nat, b: nat :: a < b < n ==> Visits(CollisionPairs(n), a, b)
    ensures forall a, b :: 0 <= a < b < |CollisionPairs(n)| ==>
      PairBefore(CollisionPairs(n)[a], CollisionPairs(n)[b])
  {
    PairsFromOrdered(n, 0, 1);
    PairsFromComplete(n, 0, 1);
  }

  /** The pair step `step` applied to the pairs `ps`, one after the other. */
  function ApplyPairs(step: (seq<BallState>, nat, nat) -> seq<BallState>,
                      st: seq<BallState>, ps: seq<(nat, nat)>): seq<BallState>
    decreases |ps|
  {
    if ps == [] then st else ApplyPairs(step, step(st, ps[0].0, ps[0].1), ps[1..])
  }

  lemma {:induction false} ApplyPairsLength(st: seq<BallState>, ps: seq<(nat, nat)>)
    ensures |ApplyPairs(CollideAt, st, ps)| == |st|
    decreases |ps|
  {
    if ps != [] {
      ApplyPairsLength(CollideAt(st, ps[0].0, ps[0].1), ps[1..]);
    }
  }

  /** The whole pair pass over the rack. */
  function CollisionPass(st: seq<BallState>): (r: seq<BallState>)
    ensures |r| == |st|
  {
    ApplyPairsLength(st, CollisionPairs(|st|));
    ApplyPairs(CollideAt, st, CollisionPairs(|st|))
  }

  // ---------------------------------------------------------------------
  // Conserved quantities
  // ---------------------------------------------------------------------

  function SumOf(vs: seq<Vec>): Vec
  {
    if vs == [] then Zero else Add(vs[0], SumOf(vs[1..]))
  }

  function Momenta(st: seq<BallState>): seq<Vec>
  {
    seq(|st|, k requires 0 <= k < |st| => st[k].momentum)
  }

  function Positions(st: seq<BallState>): seq<Vec>
  {
    seq(|st|, k requires 0 <= k < |st| => st[k].position)
  }

  function ColorsOf(st: seq<BallState>): seq<string>
  {
    seq(|st|, k requires 0 <= k < |st| => st[k].color)
  }

  /** The summed squared momentum lengths of the rack. */
  function Energy(st: seq<BallState>): real
  {
    if st == [] then 0.0 else LenSq(st[0].momentum) + Energy(st[1..])
  }

  lemma {:induction false} SumOfUpdate(vs: seq<Vec>, k: nat, v: Vec)
    requires k < |vs|
    ensures SumOf(vs[k := v]) == Add(SumOf(vs), Sub(v, vs[k]))
  {
    if k > 0 {
      SumOfUpdate(vs[1..], k - 1, v);
      assert vs[k := v][1..] == vs[1..][k - 1 := v];
    }
  }

  lemma {:induction false} EnergyUpdate(st: seq<BallState>, k: nat, b: BallState)
    requires k < |st|
    ensures Energy(st[k := b]) == Energy(st) - LenSq(st[k].momentum) + LenSq(b.momentum)
  {
    if k > 0 {
      EnergyUpdate(st[1..], k - 1, b);
      assert st[k := b][1..] == st[1..][k - 1 := b];
    }
  }

  lemma {:induction false} EnergyBoundsEach(st: seq<BallState>, k: nat)
    requires k < |st|
    ensures 0.0 <= LenSq(st[k].momentum) <= Energy(st)
  {
    LenSqNonNegative(st[k].momentum);
    if k == 0 {
      EnergyNonNegative(st[1..]);
    } else {
      EnergyBoundsEach(st[1..], k - 1);
      LenSqNonNegative(st[0].momentum);
    }
  }

  lemma {:induction false} EnergyNonNegative(st: seq<BallState>)
    ensures Energy(st) >= 0.0
  {
    if st != [] {
      LenSqNonNegative(st[0].momentum);
      EnergyNonNegative(st[1..]);
    }
  }

  lemma MomentaUpdate(st: seq<BallState>, k: nat, b: BallState)
    requires k < |st|
    ensures Momenta(st[k := b]) == Momenta(st)[k := b.momentum]
    ensures Positions(st[k := b]) == Positions(st)[k := b.position]
    ensures ColorsOf(st[k := b]) == ColorsOf(st)[k := b.color]
  {
  }

  /** One pair step keeps the summed momentum, the summed position, the
      total energy and every colour. */
  lemma CollideAtConserves(st: seq<BallState>, i: nat, j: nat)
    ensures SumOf(Momenta(CollideAt(st, i, j))) == SumOf(Momenta(st))
    ensures SumOf(Positions(CollideAt(st, i, j))) == SumOf(Positions(st))
    ensures Energy(CollideAt(st, i, j)) == Energy(st)
    ensures ColorsOf(CollideAt(st, i, j)) == ColorsOf(st)
  {
    if i < j < |st| && Overlapping(st[i], st[j]) && HandlerDefined(st[i], st[j]) {
      var a, b := st[i], st[j];
      var pair := Collide(a, b);
      assert CollideAt(st, i, j) == st[i := pair.0][j := pair.1];
      SwapConserves(st, i, j, pair.0, pair.1);
      CollideKeepsEnergy(a, b);
    }
  }

  /** Replacing two balls by two others with the same summed momentum,
      summed position, energy and colours keeps those of the rack. */
  lemma SwapConserves(st: seq<BallState>, i: nat, j: nat, a: BallState, b: BallState)
    requires i < j < |st|
    requires Add(a.momentum, b.momentum) == Add(st[i].momentum, st[j].momentum)
    requires Add(a.position, b.position) == Add(st[i].position, st[j].position)
    requires a.color == st[i].color && b.color == st[j].color
    ensures SumOf(Momenta(st[i := a][j := b])) == SumOf(Momenta(st))
    ensures SumOf(Positions(st[i := a][j := b])) == SumOf(Positions(st))
    ensures Energy(st[i := a][j := b])
         == Energy(st) - LenSq(st[i].momentum) - LenSq(st[j].momentum) + LenSq(a.momentum) + LenSq(b.momentum)
    ensures ColorsOf(st[i := a][j := b]) == ColorsOf(st)
  {
    var mid := st[i := a];
    assert mid[j] == st[j];
    MomentaUpdate(st, i, a);
    MomentaUpdate(mid, j, b);
    SumOfUpdate(Momenta(st), i, a.momentum);
    SumOfUpdate(Momenta(mid), j, b.momentum);
    SumOfUpdate(Positions(st), i, a.position);
    SumOfUpdate(Positions(mid), j, b.position);
    EnergyUpdate(st, i, a);
    EnergyUpdate(mid, j, b);
    assert ColorsOf(st)[i := a.color][j := b.color] == ColorsOf(st);
  }

  lemma {:induction false} ApplyPairsConserves(st: seq<BallState>, ps: seq<(nat, nat)>)
    ensures SumOf(Momenta(ApplyPairs(CollideAt, st, ps))) == SumOf(Momenta(st))
    ensures SumOf(Positions(ApplyPairs(CollideAt, st, ps))) == SumOf(Positions(st))
    ensures Energy(ApplyPairs(CollideAt, st, ps)) == Energy(st)
    ensures ColorsOf(ApplyPairs(CollideAt, st, ps)) == ColorsOf(st)
    decreases |ps|
  {
    if ps != [] {
      CollideAtConserves(st, ps[0].0, ps[0].1);
      ApplyPairsConserves(CollideAt(st, ps[0].0, ps[0].1), ps[1..]);
    }
  }

  /** The pair pass conserves the summed momentum and the summed position of
      the rack, the total energy, and leaves every colour in place. */
  lemma CollisionPassConserves(st: seq<BallState>)
    ensures SumOf(Momenta(CollisionPass(st))) == SumOf(Momenta(st))
    ensures SumOf(Positions(CollisionPass(st))) == SumOf(Positions(st))
    ensures Energy(CollisionPass(st)) == Energy(st)
    ensures ColorsOf(CollisionPass(st)) == ColorsOf(st)
  {
    ApplyPairsConserves(st, CollisionPairs(|st|));
  }

  /** No two centres closer than a diameter. */
  predicate NoContact(st: seq<BallState>)
  {
    forall i, j :: 0 <= i < j < |st| ==> !Overlapping(st[i], st[j])
  }

  lemma {:induction false} ApplyPairsWithoutContact(st: seq<BallState>, ps: seq<(nat, nat)>)
    requires NoContact(st)
    ensures ApplyPairs(CollideAt, st, ps) == st
    decreases |ps|
  {
    if ps != [] {
      assert CollideAt(st, ps[0].0, ps[0].1) == st;
      ApplyPairsWithoutContact(st, ps[1..]);
    }
  }

  /** A rack without contacts goes through the pass untouched. */
  lemma CollisionPassWithoutContact(st: seq<BallState>)
    requires NoContact(st)
    ensures CollisionPass(st) == st
  {
    ApplyPairsWithoutContact(st, CollisionPairs(|st|));
  }

  // ---------------------------------------------------------------------
  // One tick
  // ---------------------------------------------------------------------

  /** Wall check, then `position -= momentum`, then friction. The position
      can leave the containment rectangle again by at most the momentum. */
  function Advance(b: BallState): BallState
  {
    var w := WallBounce(b);
    BallState(Sub(w.position, w.momentum), Scale(Friction, w.momentum), w.color)
  }

  /** A tick keeps the colour, scales the squared momentum length by
      `Friction^2` (never increasing it) and moves the centre off the
      containment rectangle by at most the momentum. */
  lemma AdvanceBounds(b: BallState)
    ensures Advance(b).color == b.color
    ensures LenSq(Advance(b).momentum) == Friction * Friction * LenSq(b.momentum)
    ensures LenSq(Advance(b).momentum) <= LenSq(b.momentum)
    ensures MinX - Abs(b.momentum.x) <= Advance(b).position.x <= MaxX + Abs(b.momentum.x)
    ensures MinY - Abs(b.momentum.y) <= Advance(b).position.y <= MaxY + Abs(b.momentum.y)
  {
    var w := WallBounce(b);
    assert LenSq(Advance(b).momentum) == Friction * Friction * LenSq(w.momentum);
    LenSqNonNegative(b.momentum);
  }

  function AdvanceAll(st: seq<BallState>): (r: seq<BallState>)
    ensures |r| == |st|
    ensures forall k :: 0 <= k < |st| ==> r[k] == Advance(st[k])
  {
    seq(|st|, k requires 0 <= k < |st| => Advance(st[k]))
  }

  /** One animation tick: the pair pass, then every ball advanced. */
  function Step(st: seq<BallState>): (r: seq<BallState>)
    ensures |r| == |st|
  {
    AdvanceAll(CollisionPass(st))
  }

  /** `n` applications of `f`. */
  function Iterate(f: seq<BallState> -> seq<BallState>, st: seq<BallState>, n: nat): seq<BallState>
    decreases n
  {
    if n == 0 then st else Iterate(f, f(st), n - 1)
  }

  /** `n` ticks without a stop. */
  function Run(st: seq<BallState>, n: nat): seq<BallState>
  {
    Iterate(Step, st, n)
  }

  /** Every momentum length is below the threshold (on squares). */
  predicate Settled(st: seq<BallState>)
  {
    forall k :: 0 <= k < |st| ==> LenSq(st[k].momentum) < SettleThreshold * SettleThreshold
  }

  /** The length test on squares agrees with the test on any square root. */
  lemma SettleTestBySquares(m: Vec, len: real)
    requires len >= 0.0 && len * len == LenSq(m)
    ensures len < SettleThreshold <==> LenSq(m) < SettleThreshold * SettleThreshold
  {
    if len < SettleThreshold {
      assert len * len <= len * SettleThreshold < SettleThreshold * SettleThreshold;
    } else {
      assert len * len >= len * SettleThreshold >= SettleThreshold * SettleThreshold;
    }
  }

  /** Every momentum set to `(0, 0)`. */
  function ResetAll(st: seq<BallState>): seq<BallState>
  {
    seq(|st|, k requires 0 <= k < |st| => st[k].(momentum := Zero))
  }

  /** The reset keeps every position and colour, stops every ball, and
      leaves a settled rack without energy. */
  lemma ResetAllFacts(st: seq<BallState>)
    ensures |ResetAll(st)| == |st|
    ensures Positions(ResetAll(st)) == Positions(st) && ColorsOf(ResetAll(st)) == ColorsOf(st)
    ensures AtRest(ResetAll(st))
    ensures Settled(ResetAll(st)) && Energy(ResetAll(st)) == 0.0
  {
    ZeroEnergy(ResetAll(st));
  }

  predicate AtRest(st: seq<BallState>)
  {
    forall k :: 0 <= k < |st| ==> st[k].momentum == Zero
  }

  lemma {:induction false} ZeroEnergy(st: seq<BallState>)
    requires AtRest(st)
    ensures Energy(st) == 0.0
  {
    if st != [] {
      ZeroEnergy(st[1..]);
    }
  }

  lemma {:induction false} EnergyOfAdvanceAll(st: seq<BallState>)
    ensures Energy(AdvanceAll(st)) == Friction * Friction * Energy(st)
  {
    if st != [] {
      assert AdvanceAll(st)[1..] == AdvanceAll(st[1..]);
      EnergyOfAdvanceAll(st[1..]);
      AdvanceBounds(st[0]);
    }
  }

  /** One tick multiplies the total energy by `Friction^2`: the pass keeps
      it, the wall check keeps every length and friction scales them. */
  lemma StepEnergy(st: seq<BallState>)
    ensures Energy(Step(st)) == Friction * Friction * Energy(st)
  {
    CollisionPassConserves(st);
    EnergyOfAdvanceAll(CollisionPass(st));
  }

  function Pow(q: real, n: nat): real
  {
    if n == 0 then 1.0 else q * Pow(q, n - 1)
  }

  /** `n` ticks scale the total energy by `(Friction^2)^n`. */
  lemma RunEnergy(st: seq<BallState>, n: nat)
    ensures Energy(Run(st, n)) == Pow(Friction * Friction, n) * Energy(st)
  {
    EveryStepScalesEnergy(Step);
    IterateEnergy(Step, st, n);
  }

  lemma EveryStepScalesEnergy(f: seq<BallState> -> seq<BallState>)
    requires f == Step
    ensures forall s :: Energy(f(s)) == Friction * Friction * Energy(s)
  {
    forall s ensures Energy(f(s)) == Friction * Friction * Energy(s) {
      StepEnergy(s);
    }
  }

  /** Iterating a map that scales the energy by `Friction^2` scales it by
      `(Friction^2)^n`. */
  lemma {:induction false} IterateEnergy(f: seq<BallState> -> seq<BallState>, st: seq<BallState>, n: nat)
    requires forall s :: Energy(f(s)) == Friction * Friction * Energy(s)
    ensures Energy(Iterate(f, st, n)) == Pow(Friction * Friction, n) * Energy(st)
    decreases n
  {
    if n > 0 {
      var c := Friction * Friction;
      var e0, e1, a := Energy(st), Energy(f(st)), Energy(Iterate(f, st, n));
      var p := Pow(c, n - 1);
      assert e1 == c * e0;
      assert a == p * e1 by {
        IterateEnergy(f, f(st), n - 1);
        assert Iterate(f, st, n) == Iterate(f, f(st), n - 1);
      }
      ProductChain(a, p, e1, e0, c, Pow(c, n));
    }
  }

  lemma ProductChain(a: real, p: real, e1: real, e0: real, q: real, r: real)
    requires a == p * e1 && e1 == q * e0 && r == q * p
    ensures a == r * e0
  {
  }

  /** All balls are settled once the total energy is below the threshold. */
  lemma LowEnergySettled(st: seq<BallState>)
    requires Energy(st) < SettleThreshold * SettleThreshold
    ensures Settled(st)
  {
    forall k | 0 <= k < |st| ensures LenSq(st[k].momentum) < SettleThreshold * SettleThreshold {
      EnergyBoundsEach(st, k);
    }
  }

  /** Bernoulli's inequality for the reciprocal of the friction factor. */
  lemma {:induction false} Bernoulli(r: real, n: nat)
    requires r >= 1.0
    ensures Pow(r, n) >= 1.0 + n as real * (r - 1.0)
  {
    if n > 0 {
      Bernoulli(r, n - 1);
      var p := Pow(r, n - 1);
      var x := (n - 1) as real * (r - 1.0);
      MulMonotone((n - 1) as real, r - 1.0, 0.0);
      assert p >= 1.0 + x;
      MulMonotone(r, p, 1.0 + x);
      assert Pow(r, n) == r * p;
      assert r * (1.0 + x) == r + r * x;
      MulMonotone(x, r, 1.0);
      assert (n - 1) as real == n as real - 1.0;
      assert n as real * (r - 1.0) == x + (r - 1.0);
    }
  }

  lemma MulMonotone(r: real, a: real, b: real)
    requires r >= 0.0 && a >= b
    ensures r * a >= r * b
  {
    assert r * a - r * b == r * (a - b);
  }

  lemma {:induction false} PowProduct(q: real, r: real, n: nat)
    requires q > 0.0 && q * r == 1.0
    ensures Pow(q, n) * Pow(r, n) == 1.0
    ensures Pow(q, n) > 0.0
  {
    if n > 0 {
      PowProduct(q, r, n - 1);
      var a, b := Pow(q, n - 1), Pow(r, n - 1);
      assert (q * a) * (r * b) == (q * r) * (a * b);
      assert q * a > 0.0;
    }
  }

  /** Settling terminates: without stopping, the rack is settled after any
      number of ticks `n` with `n * (1 / Friction^2 - 1) >= Energy / threshold^2`. */
  lemma SettlesWithin(st: seq<BallState>, n: nat)
    requires n as real * (1.0 / (Friction * Friction) - 1.0)
             >= Energy(st) / (SettleThreshold * SettleThreshold)
    ensures Settled(Run(st, n))
  {
    RunEnergy(st, n);
    SettledAfterDecay(st, Run(st, n), n);
  }

  lemma SettledAfterDecay(st: seq<BallState>, later: seq<BallState>, n: nat)
    requires n as real * (1.0 / (Friction * Friction) - 1.0)
             >= Energy(st) / (SettleThreshold * SettleThreshold)
    requires Energy(later) == Pow(Friction * Friction, n) * Energy(st)
    ensures Settled(later)
  {
    EnergyNonNegative(st);
    DecayBelow(Friction * Friction, n, Energy(st), SettleThreshold * SettleThreshold);
    LowEnergySettled(later);
  }

  /** `q^n * e < t` once `n * (1/q - 1) >= e / t`, for `0 < q <= 1`. */
  lemma DecayBelow(q: real, n: nat, e: real, t: real)
    requires 0.0 < q <= 1.0 && e >= 0.0 && t > 0.0
    requires n as real * (1.0 / q - 1.0) >= e / t
    ensures Pow(q, n) * e < t
  {
    var r := 1.0 / q;
    var pq, pr := Pow(q, n), Pow(r, n);
    Reciprocal(q);
    assert pr > e / t by {
      PowAbove(r, n, e / t);
    }
    assert pq > 0.0 && pq * pr == 1.0 by {
      PowProduct(q, r, n);
    }
    assert e < pr * t by {
      BelowQuotient(e, t, pr);
    }
    CancelBelow(pq, pr, e, t);
  }

  lemma PowAbove(r: real, n: nat, x: real)
    requires r >= 1.0 && n as real * (r - 1.0) >= x
    ensures Pow(r, n) > x
  {
    Bernoulli(r, n);
  }

  lemma Reciprocal(q: real)
    requires 0.0 < q <= 1.0
    ensures q * (1.0 / q) == 1.0 && 1.0 / q >= 1.0
  {
    var r := 1.0 / q;
    assert q * r == 1.0;
    assert r > 0.0;
    MulMonotone(r, 1.0, q);
  }

  lemma CancelBelow(pq: real, pr: real, e: real, t: real)
    requires pq > 0.0 && pq * pr == 1.0 && e < pr * t
    ensures pq * e < t
  {
    assert pq * (pr * t) - pq * e == pq * (pr * t - e);
    assert pq * (pr * t) == (pq * pr) * t;
  }

  lemma BelowQuotient(e: real, t: real, p: real)
    requires t > 0.0 && p > e / t
    ensures e < p * t
  {
    assert e == (e / t) * t;
    assert p * t - e == (p - e / t) * t;
  }

  lemma {:induction false} PowAdd(q: real, a: nat, b: nat)
    ensures Pow(q, a + b) == Pow(q, a) * Pow(q, b)
    decreases a
  {
    if a > 0 {
      PowAdd(q, a - 1, b);
      assert Pow(q, a + b) == q * Pow(q, a - 1 + b);
      assert q * (Pow(q, a - 1) * Pow(q, b)) == (q * Pow(q, a - 1)) * Pow(q, b);
    }
  }

  lemma {:induction false} PowMul(q: real, a: nat, k: nat)
    ensures Pow(q, a * k) == Pow(Pow(q, a), k)
    decreases k
  {
    if k > 0 {
      var m := a * (k - 1);
      PowMul(q, a, k - 1);
      assert a * k == m + a;
      PowAdd(q, m, a);
      assert Pow(Pow(q, a), k) == Pow(q, a) * Pow(Pow(q, a), k - 1);
    }
  }

  lemma {:induction false} PowMonotone(a: real, b: real, k: nat)
    requires 0.0 <= a <= b
    ensures 0.0 <= Pow(a, k) <= Pow(b, k)
    decreases k
  {
    if k > 0 {
      PowMonotone(a, b, k - 1);
      var pa, pb := Pow(a, k - 1), Pow(b, k - 1);
      MulMonotone(a, pa, 0.0);
      MulMonotone(a, pb, pa);
      MulMonotone(pb, b, a);
    }
  }

  /** Fifty ticks more than halve the total energy: `0.99^100 < 1/2`. */
  lemma FiftyTicksHalve()
    ensures 0.0 < Pow(Friction * Friction, 50) < 0.5
  {
    var q := Friction * Friction;
    var r := 1.0 / q;
    Reciprocal(q);
    Bernoulli(r, 50);
    PowProduct(q, r, 50);
    assert 50.0 * (r - 1.0) > 1.0;
    InverseBelowHalf(Pow(q, 50), Pow(r, 50));
  }

  lemma InverseBelowHalf(p: real, g: real)
    requires p > 0.0 && p * g == 1.0 && g > 2.0
    ensures p < 0.5
  {
    MulPositive(p, g - 2.0);
    assert p * (g - 2.0) == p * g - 2.0 * p;
  }

  lemma PowTwoSeventeen()
    ensures Pow(2.0, 17) == 131072.0
  {
    assert Pow(2.0, 1) == 2.0;
    PowAdd(2.0, 1, 1);
    PowAdd(2.0, 2, 2);
    PowAdd(2.0, 4, 4);
    PowAdd(2.0, 8, 8);
    PowAdd(2.0, 16, 1);
  }

  lemma HalvedBelow(p: real, h: real, g: real, e: real, t: real)
    requires 0.0 <= p <= h && h > 0.0 && h * g == 1.0 && e >= 0.0 && e < g * t
    ensures p * e < t
  {
    MulMonotone(e, h, p);
    CancelBelow(h, g, e, t);
  }

  /** Settling in logarithmic time: a rack whose total energy is below
      `2^k` times the squared threshold is settled after `n = 50 * k` ticks, so
      the ticks needed grow with the logarithm of energy over threshold. */
  lemma SettlesWithinHalvings(st: seq<BallState>, k: nat, n: nat)
    requires Energy(st) < Pow(2.0, k) * (SettleThreshold * SettleThreshold) && n == 50 * k
    ensures Settled(Run(st, n))
  {
    RunEnergy(st, n);
    SettledAfterHalvings(st, Run(st, n), k, n);
  }

  lemma SettledAfterHalvings(st: seq<BallState>, later: seq<BallState>, k: nat, n: nat)
    requires n == 50 * k
    requires Energy(st) < Pow(2.0, k) * (SettleThreshold * SettleThreshold)
    requires Energy(later) == Pow(Friction * Friction, n) * Energy(st)
    ensures Settled(later)
  {
    EnergyNonNegative(st);
    HalvingsBelow(k, Energy(st));
    LowEnergySettled(later);
  }

  /** `(Friction^2)^(50 k) * e` is below the squared threshold once `e` is
      below `2^k` times it. */
  lemma HalvingsBelow(k: nat, e: real)
    requires 0.0 <= e < Pow(2.0, k) * (SettleThreshold * SettleThreshold)
    ensures Pow(Friction * Friction, 50 * k) * e < SettleThreshold * SettleThreshold
  {
    var h := Pow(Friction * Friction, 50);
    PowMul(Friction * Friction, 50, k);
    FiftyTicksHalve();
    PowMonotone(h, 0.5, k);
    PowProduct(0.5, 2.0, k);
    HalvedBelow(Pow(h, k), Pow(0.5, k), Pow(2.0, k), e, SettleThreshold * SettleThreshold);
  }

  /** A shot into a rack at rest (energy at most `(MaxBallMomentum / ShotScale)^2`)
      has settled after 850 ticks at the latest. */
  lemma ShotSettles(st: seq<BallState>)
    requires Energy(st) <= (MaxBallMomentum / ShotScale) * (MaxBallMomentum / ShotScale)
    ensures Settled(Run(st, 850))
  {
    PowTwoSeventeen();
    SettlesWithinHalvings(st, 17, 850);
  }

  /** Setting one momentum in a rack at rest gives the rack that energy. */
  lemma EnergyOfShotFromRest(st: seq<BallState>, k: nat, m: Vec)
    requires k < |st| && AtRest(st)
    ensures Energy(st[k := st[k].(momentum := m)]) == LenSq(m)
  {
    ZeroEnergy(st);
    EnergyUpdate(st, k, st[k].(momentum := m));
  }

  // ---------------------------------------------------------------------
  // Shot power
  // ---------------------------------------------------------------------

  /** `min(MAX_BALL_MOMENTUM, BMM * dist)` for the drag length `dist`. */
  function ShotPower(dist: real): (p: real)
    requires dist >= 0.0
    ensures 0.0 <= p <= MaxBallMomentum
    ensures p <= BallMomentumMultiplier * dist
    ensures p == MaxBallMomentum || p == BallMomentumMultiplier * dist
    ensures p == 0.0 <==> dist == 0.0
  {
    if MaxBallMomentum < BallMomentumMultiplier * dist then MaxBallMomentum
    else BallMomentumMultiplier * dist
  }

  /** The momentum given to the shot ball: power / 20 along the unit vector
      from the ball towards the cursor (`cos` and `sin` of the drag angle). */
  function ShotMomentum(from: Vec, to: Vec, dist: real): (m: Vec)
    requires dist > 0.0 && dist * dist == SqDist(to, from)
    ensures LenSq(m) == (ShotPower(dist) / ShotScale) * (ShotPower(dist) / ShotScale)
    ensures LenSq(m) <= (MaxBallMomentum / ShotScale) * (MaxBallMomentum / ShotScale)
    ensures m.x * (to.y - from.y) == m.y * (to.x - from.x)
    ensures Dot(m, Sub(to, from)) > 0.0
  {
    var p := ShotPower(dist);
    var drag := Sub(to, from);
    var m := Vec(p * (drag.x / dist) / ShotScale, p * (drag.y / dist) / ShotScale);
    ShotMomentumFacts(p, drag, dist);
    m
  }

  lemma ShotMomentumFacts(p: real, drag: Vec, dist: real)
    requires 0.0 < p <= MaxBallMomentum
    requires dist > 0.0 && dist * dist == LenSq(drag)
    ensures var m := Vec(p * (drag.x / dist) / ShotScale, p * (drag.y / dist) / ShotScale);
            LenSq(m) == (p / ShotScale) * (p / ShotScale) &&
            LenSq(m) <= (MaxBallMomentum / ShotScale) * (MaxBallMomentum / ShotScale) &&
            m.x * drag.y == m.y * drag.x &&
            Dot(m, drag) > 0.0
  {
    var c := p / ShotScale / dist;
    var m := Vec(p * (drag.x / dist) / ShotScale, p * (drag.y / dist) / ShotScale);
    var pp := p / ShotScale;
    var mm := MaxBallMomentum / ShotScale;
    AlongDrag(p, drag.x, dist);
    AlongDrag(p, drag.y, dist);
    assert m == Scale(c, drag);
    assert c > 0.0 && c * dist == pp;
    ScaledLength(c, drag, dist);
    SquareMonotone(pp, mm);
    ScaledAlong(c, drag, dist);
  }

  lemma ScaledAlong(c: real, v: Vec, len: real)
    requires c > 0.0 && len > 0.0 && len * len == LenSq(v)
    ensures Scale(c, v).x * v.y == Scale(c, v).y * v.x
    ensures Dot(Scale(c, v), v) > 0.0
  {
    assert Dot(Scale(c, v), v) == c * LenSq(v);
    assert c * (len * len) == (c * len) * len;
    MulPositive(c, len);
    MulPositive(c * len, len);
  }

  lemma MulPositive(a: real, b: real)
    requires a > 0.0 && b > 0.0
    ensures a * b > 0.0
  {
  }

  lemma AlongDrag(p: real, d: real, dist: real)
    requires dist > 0.0
    ensures p * (d / dist) / ShotScale == (p / ShotScale / dist) * d
  {
  }

  lemma ScaledLength(c: real, v: Vec, len: real)
    requires len * len == LenSq(v)
    ensures LenSq(Scale(c, v)) == (c * len) * (c * len)
  {
    assert LenSq(Scale(c, v)) == c * c * LenSq(v);
  }

  lemma SquareMonotone(a: real, b: real)
    requires 0.0 <= a <= b
    ensures a * a <= b * b
  {
    MulMonotone(a, b, a);
    MulMonotone(b, b, a);
  }

  // ---------------------------------------------------------------------
  // The opening rack
  // ---------------------------------------------------------------------

  /** One ball per opening position, at rest, the cue ball in the first
      colour and every other ball in the second. */
  function InitialRack(): (r: seq<BallState>)
    ensures |r| == |InitCoords| && Positions(r) == InitCoords
    ensures AtRest(r)
    ensures r[0].color == AmericanColors[0]
    ensures forall k :: 1 <= k < |r| ==> r[k].color == AmericanColors[1]
  {
    seq(|InitCoords|, k requires 0 <= k < |InitCoords| =>
      BallState(InitCoords[k], Zero, AmericanColors[if k == 0 then 0 else 1]))
  }

  /** A ball just built, with momentum `(0, 0)`, already passes the stop
      test. */
  lemma NewBallSettled(position: Vec, color: string)
    ensures Settled([BallState(position, Zero, color)])
  {
  }

  /** The opening rack is settled and carries no energy. */
  lemma InitialRackSettled()
    ensures Settled(InitialRack()) && Energy(InitialRack()) == 0.0
  {
    ZeroEnergy(InitialRack());
  }

  /** The first wall checks change no ball on the opening positions,
      whatever momentum the shot has set. */
  lemma InitialRackWallsInert(st: seq<BallState>)
    requires Positions(st) == InitCoords
    ensures forall k :: 0 <= k < |st| ==> WallBounce(st[k]) == st[k]
  {
    InitialPositionsContained();
    forall k | 0 <= k < |st| ensures WallBounce(st[k]) == st[k] {
      assert st[k].position == Positions(st)[k];
    }
  }

  /** The first pair pass leaves a rack on the opening positions as it is,
      whatever momenta the shot has set. */
  lemma InitialRackPassInert(st: seq<BallState>)
    requires Positions(st) == InitCoords
    ensures CollisionPass(st) == st
  {
    InitialPositionsApart();
    forall i, j | 0 <= i < j < |st| ensures !Overlapping(st[i], st[j]) {
      assert st[i].position == Positions(st)[i] && st[j].position == Positions(st)[j];
    }
    CollisionPassWithoutContact(st);
  }

  lemma InitialRackContained()
    ensures forall k :: 0 <= k < |InitialRack()| ==> Contained(InitialRack()[k].position)
  {
    var r := InitialRack();
    InitialPositionsContained();
    forall k | 0 <= k < |r| ensures Contained(r[k].position) {
      assert r[k].position == Positions(r)[k];
    }
  }

  lemma InitialRackApart()
    ensures NoContact(InitialRack())
  {
    var r := InitialRack();
    InitialPositionsApart();
    forall i, j | 0 <= i < j < |r| ensures !Overlapping(r[i], r[j]) {
      assert r[i].position == Positions(r)[i] && r[j].position == Positions(r)[j];
    }
  }
}
