/** The range tests the aim line uses to decide whether a point lies on the
    playing surface inside the cushions. */
module Borders {
  import opened Geometry
  import opened Table

  /** The point lies within the four cushions, edges included. */
  predicate PointWithinBorders(p: Vec)
  {
    p.x <= Width - Border && p.x >= Border && p.y <= Height - Border && p.y >= Border
  }

  /** The y coordinate lies between the top and bottom cushions. */
  predicate PointWithinVerticalBorders(y: real)
  {
    y <= Height - Border && y >= Border
  }

  /** The x test as the game writes it: the upper bound is the table width
      plus the cushion thickness. */
  predicate PointWithinHorizontalBordersAsWritten(x: real)
  {
    x <= Width + Border && x >= Border
  }

  /** The x test with the right cushion's inner edge as the upper bound, the
      counterpart of `PointWithinVerticalBorders`. */
  predicate PointWithinHorizontalBorders(x: real)
  {
    x <= Width - Border && x >= Border
  }

  /** The corrected axis tests split the two-dimensional test exactly. */
  lemma BordersSplitByAxis(p: Vec)
    ensures PointWithinBorders(p) <==>
      PointWithinHorizontalBorders(p.x) && PointWithinVerticalBorders(p.y)
  {
  }

  /** The written x test accepts every x the corrected one does, and in
      addition exactly the band of one cushion and a cushion thickness to the
      right of the right cushion's edge. */
  lemma HorizontalBordersAsWrittenBand(x: real)
    ensures PointWithinHorizontalBordersAsWritten(x) <==>
      PointWithinHorizontalBorders(x) || Width - Border < x <= Width + Border
  {
  }

  /** A point on the right edge of the table (`x == Width`) passes the
      written x test and the y test, yet lies outside the cushions. */
  lemma HorizontalBordersAsWrittenAcceptsOutside()
    ensures PointWithinHorizontalBordersAsWritten(Width)
    ensures !PointWithinHorizontalBorders(Width)
    ensures PointWithinVerticalBorders(Height / 2.0)
    ensures !PointWithinBorders(Vec(Width, Height / 2.0))
  {
  }
}
