/** The table configuration: dimensions, ball radius, momentum caps, the
    rack colours and the opening rack layout. */
module Table {
  import opened Geometry

  const Width: real := 1024.0
  const Height: real := 578.0
  const Border: real := 67.0

  /** Cue-ball colour first, object-ball colour second. */
  const AmericanColors: seq<string> := ["brown", "rgb(220, 220, 220)"]

  const BallRadius: real := 16.0
  const MaxBallMomentum: real := 600.0
  const BallMomentumMultiplier: real := 1.2

  /** How much consecutive rack rows are pushed together (`o`). */
  const RackSqueeze: real := 3.0

  /** The x of the apex ball of the rack (`initX`). */
  const RackX: real := Border + Width / 2.0 + 4.0 * BallRadius

  /** Horizontal distance between two consecutive rack rows. */
  const RowPitch: real := 2.0 * BallRadius - RackSqueeze

  /** The opening positions: the cue ball, then the triangle row by row. */
  const InitCoords: seq<Vec> := [
    Vec(Border + Width / 5.0, Height / 2.0),
    Vec(RackX, Height / 2.0),
    Vec(RackX + 2.0 * BallRadius - RackSqueeze, Height / 2.0 - BallRadius),
    Vec(RackX + 2.0 * BallRadius - RackSqueeze, Height / 2.0 + BallRadius),
    Vec(RackX + 4.0 * BallRadius - 2.0 * RackSqueeze, Height / 2.0 - 2.0 * BallRadius),
    Vec(RackX + 4.0 * BallRadius - 2.0 * RackSqueeze, Height / 2.0),
    Vec(RackX + 4.0 * BallRadius - 2.0 * RackSqueeze, Height / 2.0 + 2.0 * BallRadius),
    Vec(RackX + 6.0 * BallRadius - 3.0 * RackSqueeze, Height / 2.0 - 3.0 * BallRadius),
    Vec(RackX + 6.0 * BallRadius - 3.0 * RackSqueeze, Height / 2.0 - BallRadius),
    Vec(RackX + 6.0 * BallRadius - 3.0 * RackSqueeze, Height / 2.0 + BallRadius),
    Vec(RackX + 6.0 * BallRadius - 3.0 * RackSqueeze, Height / 2.0 + 3.0 * BallRadius),
    Vec(RackX + 8.0 * BallRadius - 4.0 * RackSqueeze, Height / 2.0 - 4.0 * BallRadius),
    Vec(RackX + 8.0 * BallRadius - 4.0 * RackSqueeze, Height / 2.0 - 2.0 * BallRadius),
    Vec(RackX + 8.0 * BallRadius - 4.0 * RackSqueeze, Height / 2.0),
    Vec(RackX + 8.0 * BallRadius - 4.0 * RackSqueeze, Height / 2.0 + 2.0 * BallRadius),
    Vec(RackX + 8.0 * BallRadius - 4.0 * RackSqueeze, Height / 2.0 + 4.0 * BallRadius)
  ]

  /** The rectangle that the wall check keeps every ball centre in. */
  const MinX: real := BallRadius + Border
  const MaxX: real := Width - BallRadius - Border
  const MinY: real := BallRadius + Border
  const MaxY: real := Height - BallRadius - Border

  predicate Contained(p: Vec) { MinX <= p.x <= MaxX && MinY <= p.y <= MaxY }

  /** Row (0 for the apex, 4 for the base) of rack ball `i`. */
  function RowOf(i: nat): nat
  {
    if i <= 1 then 0 else if i <= 3 then 1 else if i <= 6 then 2 else if i <= 10 then 3 else 4
  }

  /** Index of the first ball of row `k`; row `k` holds `k + 1` balls. */
  function RowStart(k: nat): nat { 1 + k * (k + 1) / 2 }

  /** The ball that sits opposite `i` in its row, across the table's mid-line. */
  function Mirror(i: nat): int { 2 * RowStart(RowOf(i)) + RowOf(i) - i }

  lemma RackSize()
    ensures |InitCoords| == 16
    ensures |AmericanColors| == 2
  {
  }

  lemma ContainmentRectangleNonEmpty()
    ensures 2.0 * (BallRadius + Border) < Width
    ensures 2.0 * (BallRadius + Border) < Height
    ensures MinX < MaxX && MinY < MaxY
  {
  }

  lemma InitialPositionsContained()
    ensures forall i :: 0 <= i < |InitCoords| ==> Contained(InitCoords[i])
  {
    forall i | 0 <= i < |InitCoords| ensures Contained(InitCoords[i]) {
      assert i == 0 || i == 1 || i == 2 || i == 3 || i == 4 || i == 5 || i == 6 || i == 7
          || i == 8 || i == 9 || i == 10 || i == 11 || i == 12 || i == 13 || i == 14 || i == 15;
    }
  }

  /** Position of rack ball `i` within its row, counted from the top. */
  function Column(i: nat): int { i - RowStart(RowOf(i)) }

  /** Row `k` starts right after the `k` balls of row `k - 1`; the five rows
      fill the rack after the cue ball. */
  lemma RowStarts()
    ensures forall k: nat :: k < 5 ==> RowStart(k) + k + 1 == RowStart(k + 1)
    ensures RowStart(0) == 1 && RowStart(5) == |InitCoords|
  {
    forall k: nat | k < 5 ensures RowStart(k) + k + 1 == RowStart(k + 1) {
      assert k == 0 || k == 1 || k == 2 || k == 3 || k == 4;
    }
  }

  /** The rack forms rows of 1, 2, 3, 4 and 5 balls, one pitch apart, each
      row mirrored about the table's mid-line, with the cue ball to the left
      of all of them. */
  lemma RackLayout()
    ensures forall i :: 1 <= i < |InitCoords| ==>
      RowStart(RowOf(i)) <= i <= RowStart(RowOf(i)) + RowOf(i) &&
      InitCoords[i].x == RackX + RowOf(i) as real * RowPitch &&
      1 <= Mirror(i) < |InitCoords| && RowOf(Mirror(i)) == RowOf(i) &&
      InitCoords[Mirror(i)] == Vec(InitCoords[i].x, Height - InitCoords[i].y) &&
      InitCoords[0].x < InitCoords[i].x
  {
    forall i | 1 <= i < |InitCoords|
      ensures RowStart(RowOf(i)) <= i <= RowStart(RowOf(i)) + RowOf(i)
      ensures InitCoords[i].x == RackX + RowOf(i) as real * RowPitch
      ensures 1 <= Mirror(i) < |InitCoords| && RowOf(Mirror(i)) == RowOf(i)
      ensures InitCoords[Mirror(i)] == Vec(InitCoords[i].x, Height - InitCoords[i].y)
      ensures InitCoords[0].x < InitCoords[i].x
    {
      MirrorBall(i);
    }
  }

  /** The layout facts for one rack ball. */
  lemma MirrorBall(i: nat)
    requires 1 <= i < |InitCoords|
    ensures RowStart(RowOf(i)) <= i <= RowStart(RowOf(i)) + RowOf(i)
    ensures InitCoords[i].x == RackX + RowOf(i) as real * RowPitch
    ensures 1 <= Mirror(i) < |InitCoords| && RowOf(Mirror(i)) == RowOf(i)
    ensures InitCoords[Mirror(i)] == Vec(InitCoords[i].x, Height - InitCoords[i].y)
    ensures InitCoords[0].x < InitCoords[i].x
  {
    RackBall(i);
    var r, c, m := RowOf(i), Column(i), Mirror(i);
    RowOfRange(m, r);
    RackBall(m);
    assert Column(m) == r - c;
    assert InitCoords[m] == Slot(r, r - c);
    MirrorSlot(r, c);
    SlotRightOfCue(r, c);
  }

  /** Every rack slot lies to the right of the cue ball's opening spot. */
  lemma SlotRightOfCue(r: int, c: int)
    requires r >= 0
    ensures InitCoords[0].x < Slot(r, c).x
  {
    assert r as real * RowPitch >= 0.0;
  }

  /** Mirroring a column across its row mirrors the slot across the mid-line. */
  lemma MirrorSlot(r: int, c: int)
    ensures Slot(r, r - c) == Vec(Slot(r, c).x, Height - Slot(r, c).y)
  {
  }

  /** The coordinates of rack ball `i` from its row and column. */
  lemma RackBall(i: nat)
    requires 1 <= i < |InitCoords|
    ensures RowStart(RowOf(i)) <= i <= RowStart(RowOf(i)) + RowOf(i)
    ensures InitCoords[i] == Slot(RowOf(i), Column(i))
  {
    if i <= 1 {
      assert RowStart(0) == 1;
    } else if i <= 3 {
      assert RowStart(1) == 2;
      assert i == 2 || i == 3;
    } else if i <= 6 {
      assert RowStart(2) == 4;
      assert i == 4 || i == 5 || i == 6;
    } else if i <= 10 {
      assert RowStart(3) == 7;
      assert i == 7 || i == 8 || i == 9 || i == 10;
    } else {
      assert RowStart(4) == 11;
      assert i == 11 || i == 12 || i == 13 || i == 14 || i == 15;
    }
  }

  /** Every index of row `r` lies in row `r`. */
  lemma RowOfRange(k: nat, r: nat)
    requires r < 5 && RowStart(r) <= k <= RowStart(r) + r
    ensures RowOf(k) == r && 1 <= k < |InitCoords|
  {
    assert r == 0 || r == 1 || r == 2 || r == 3 || r == 4;
  }

  /** No two opening positions are closer than a ball diameter. */
  lemma InitialPositionsApart()
    ensures forall i, j :: 0 <= i < j < |InitCoords| ==>
      SqDist(InitCoords[i], InitCoords[j]) >= 4.0 * BallRadius * BallRadius
  {
    forall i, j | 0 <= i < j < |InitCoords|
      ensures SqDist(InitCoords[i], InitCoords[j]) >= 4.0 * BallRadius * BallRadius
    {
      RackBall(j);
      if i == 0 {
        FarOnOneAxis(InitCoords[i].x - InitCoords[j].x, InitCoords[i].y - InitCoords[j].y);
      } else {
        RackBall(i);
        SlotsApart(InitCoords[i], InitCoords[j], RowOf(i), Column(i), RowOf(j), Column(j));
      }
    }
  }

  /** The centre of the ball in row `r` and column `c` of the rack. */
  function Slot(r: int, c: int): Vec
  {
    Vec(RackX + r as real * RowPitch, Height / 2.0 + (2 * c - r) as real * BallRadius)
  }

  /** Two distinct rack slots, listed in rack order, are a diameter apart. */
  lemma SlotsApart(p: Vec, q: Vec, ri: int, ci: int, rj: int, cj: int)
    requires p == Slot(ri, ci) && q == Slot(rj, cj)
    requires ri < rj || (ri == rj && ci < cj)
    ensures SqDist(p, q) >= 4.0 * BallRadius * BallRadius
  {
    var k := (2 * cj - rj) - (2 * ci - ri);
    assert q.y - p.y == k as real * BallRadius;
    assert q.x - p.x == (rj - ri) as real * RowPitch;
    if rj >= ri + 2 {
      FarOnOneAxis(p.x - q.x, p.y - q.y);
    } else if rj == ri {
      assert k >= 2;
      FarOnOneAxis(p.y - q.y, p.x - q.x);
    } else {
      assert k % 2 == 1;
      FarDiagonally(p.x - q.x, p.y - q.y);
    }
  }

  lemma FarOnOneAxis(a: real, b: real)
    requires Abs(a) >= 2.0 * BallRadius
    ensures a * a + b * b >= 4.0 * BallRadius * BallRadius
  {
    assert a * a == Abs(a) * Abs(a);
    assert Abs(a) * Abs(a) >= (2.0 * BallRadius) * Abs(a) >= (2.0 * BallRadius) * (2.0 * BallRadius);
    assert b * b >= 0.0;
  }

  lemma FarDiagonally(a: real, b: real)
    requires Abs(a) >= RowPitch && Abs(b) >= BallRadius
    ensures a * a + b * b >= 4.0 * BallRadius * BallRadius
  {
    assert a * a == Abs(a) * Abs(a);
    assert b * b == Abs(b) * Abs(b);
    assert Abs(a) * Abs(a) >= RowPitch * Abs(a) >= RowPitch * RowPitch;
    assert Abs(b) * Abs(b) >= BallRadius * Abs(b) >= BallRadius * BallRadius;
  }
}
