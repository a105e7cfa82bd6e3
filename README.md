# Pool table ball physics

A Dafny model of the ball physics of a small canvas pool game. The model has
five parts:

- the table constants and the opening rack;
- the `Ball` record of position, momentum and colour;
- the per-frame simulation: the wall check, the pairwise collision pass, the
  move-then-friction step, the stop test and the momentum reset;
- the shot power, the cursor hit test and the building of the rack;
- the cushion range tests.

Coordinates are `real`. Every `Math.sqrt` comparison is stated on squares,
and a bridge lemma shows the square form agrees with the comparison on any
square root. The modules are:

- `Geometry` (geometry.dfy): the point and vector type and its arithmetic.
- `Table` (table.dfy): the constants of `consts.ts`, the containment
  rectangle, and the layout facts of `INIT_COORDS`.
- `Balls` (ball.dfy): the `Ball` class of `classes.ts`. The class declares
  only fields and a constructor, so the accessors the physics calls are
  written with their evident meaning: replace, add componentwise, scale.
- `Physics` (physics.dfy): the physics as functions on ball values, plus the
  lemmas about them. These cover conservation, settling, the unit-normal
  form of the handler and the opening rack.
- `Services` (services.dfy): the routines of `servises.ts` as methods that
  change the live `Ball` objects in place. Each method is proved to leave
  exactly the states the matching `Physics` function computes from the old
  states.
- `Borders` (borders.dfy): the cushion range predicates, as written and corrected.

The physics proved:

- The wall check lands every centre in the containment rectangle, keeps a
  ball that is already inside, and flips only the perpendicular component.
- A collision keeps the summed momentum, the summed position and the summed
  squared momentum. With the unit normal, it swaps the two normal components
  and keeps both tangential ones.
- The pass visits every pair `i < j` exactly once, in increasing order.
- A tick scales the total squared momentum by `0.99²`.
- A rack therefore settles within a proved number of ticks: fifty ticks
  more than halve the energy, so the ticks needed grow with the logarithm of
  the energy over the squared threshold. A full-power shot from rest has
  settled after 850 ticks.
- The opening rack is contained, settled, and has no overlapping pair.

The model follows the source where it behaves differently from what one
might expect of such a game:

- **Corner bounce.** One might expect the two axis checks of the wall bounce
  to apply independently. In the source, the momentum is read once before
  both checks, so a ball past an x wall and a y wall at once keeps its x
  component unflipped (`Physics.WallBounceCorner`).
- **Containment.** A ball is not kept in the containment rectangle after
  every tick. In the source, the move comes after the clamp. A ball is
  therefore contained just after the wall check, and after the move it is
  off the rectangle by at most its momentum (`Physics.AdvanceBounds`).
- **Overlap nudge.** After an impulse, each ball is moved one unit per axis
  away from the other, along the sign of each component of the centre
  difference rather than along the line of centres. The centres end up
  strictly further apart (`Physics.CollideNudgesApart`).

In one place the model departs from the source:

- **Coincident centres.** In the model, a pair of balls on one centre is
  skipped, so no NaN reaches a ball. The source has no such guard, and its
  handler turns both momenta into NaN (see Findings). The model's pair step
  `Physics.CollideAt` skips such a pair, and so does everything built on it
  (see "Left out").

## Model

| member | source | states |
|---|---|---|
| `Table.RackSize` | src/assets/consts.ts:14-58 | there are 16 opening positions (the cue ball and 15 rack balls), and the two American colours the rack uses |
| `Table.ContainmentRectangleNonEmpty` | src/assets/consts.ts:1-19 | twice the radius plus the border is less than the width and the height, so the containment rectangle is non-empty |
| `Table.InitialPositionsContained` | src/assets/consts.ts:39-58 | every opening position lies inside the rectangle the wall check keeps centres in |
| `Table.InitialPositionsApart` | src/assets/consts.ts:37-58 | any two opening positions are at least a diameter apart (squared distance at least 4r²) |
| `Table.RowStarts` | src/assets/consts.ts:39-58 | the rows have 1, 2, 3, 4 and 5 balls and fill the 15 places after the cue ball |
| `Table.RackBall` | src/assets/consts.ts:41-57 | rack ball i sits in its row at x = initX + row·(2r − o) and y = h/2 + (2·column − row)·r |
| `Table.RackLayout` | src/assets/consts.ts:38-57 | every row is at x = initX + row·(2r − o); each row is symmetric about y = h/2 (the opposite ball lies in the same row); the cue ball lies left of every rack ball |
| `Table.SlotsApart` | src/assets/consts.ts:41-57 | two different rack places are at least a diameter apart: same row, adjacent rows, or rows two apart |
| `Balls.Ball.constructor` | src/assets/classes.ts:7-11 | a new ball has the given position and colour and momentum (0, 0) |
| `Balls.Ball.SetMomentum` | src/assets/servises.ts:236 | replaces the momentum and changes nothing else |
| `Balls.Ball.AddMomentum` | src/assets/servises.ts:206-207 | adds a vector to the momentum and changes nothing else |
| `Balls.Ball.MultiplyMomentum` | src/assets/servises.ts:218 | scales the momentum and changes nothing else |
| `Balls.Ball.MovePosition` | src/assets/servises.ts:209-210 | adds a vector to the position and changes nothing else |
| `Physics.WallBounce` | src/assets/servises.ts:231-248 | the centre ends in the containment rectangle; a contained ball is unchanged; a coordinate inside its range is kept; `WallBounceClampsToWall` gives the clamp value; component magnitudes and the squared length of the momentum are kept |
| `Physics.WallBounceClampsToWall` | src/assets/servises.ts:234-246 | a coordinate past a wall is set to that wall: W − BR − PTB or BR + PTB in x, H − BR − PTB or BR + PTB in y |
| `Physics.WallBounceSingleWall` | src/assets/servises.ts:234-246 | past exactly one wall, only the momentum component perpendicular to that wall is negated |
| `Physics.WallBounceCorner` | src/assets/servises.ts:233-246 | past an x wall and a y wall at once, the centre goes to the corner and only the y component ends up negated |
| `Physics.Collide` | src/assets/servises.ts:190-211 | the summed momentum and summed position of the two balls are unchanged, as are the colours; nothing changes exactly when the impulse is zero |
| `Physics.CollideKeepsEnergy` | src/assets/servises.ts:196-207 | the sum of the two squared momentum lengths is unchanged |
| `Physics.CollideNudgesApart` | src/assets/servises.ts:208-210 | with a non-zero impulse, ball one moves by (sign dx, sign dy) and ball two by its negation, where (dx, dy) is the centre difference, and the squared distance between the centres strictly grows |
| `Physics.CollideAlongUnitNormal` | src/assets/servises.ts:193-207 | for any d > 0 with d² the squared distance, the handler adds +impulse·n and −impulse·n for n = delta/d and impulse = (m2 − m1)·n, and impulse = 0 agrees with the model's no-op test |
| `Physics.CollideExchangesNormalComponents` | src/assets/servises.ts:196-207 | with the unit normal, ball one's new normal component is ball two's old one and vice versa; both tangential components are kept |
| `Physics.OverlapBySquares` | src/assets/servises.ts:180-183 | distance < 2r holds exactly when the squared distance is < 4r² |
| `Physics.CoincidentCentresReachDivision` | src/assets/servises.ts:182-197 | two balls on one centre pass the overlap test and reach the division by a zero distance as written |
| `Physics.CollideAtAsWritten` | src/assets/servises.ts:182-197 | the pair step as the source writes it: no change for a pair a diameter or more apart, NaN for a pair on one centre, the handler otherwise; its properties are in `CoincidentCentresReachDivision` and `CollideAtFacts` |
| `Physics.CollideAt` | src/assets/servises.ts:182-185 | the guarded pair step: the handler runs on a pair closer than a diameter with distinct centres; it keeps the rack's length, and its other properties are in `CollideAtFacts`, `CollideAtSkipsCoincident` and `CollideAtConserves` |
| `Physics.CollideAtFacts` | src/assets/servises.ts:183-185 | one pair step touches only balls i and j; a non-overlapping pair is untouched; on distinct centres it does what the source does |
| `Physics.CollideAtSkipsCoincident` | src/assets/servises.ts:182-197 | a pair on one centre is left as it is, where the source's step yields NaN |
| `Physics.ExchangeKeepsEnergy` | src/assets/servises.ts:202-207 | adding k·delta to one momentum and taking it from the other, with k·delta² = (m2 − m1)·delta, keeps the summed squared lengths |
| `Physics.PairsFrom` | src/assets/servises.ts:171-174 | every visited pair has i < j < n and comes at or after the starting pair |
| `Physics.PairsFromOrdered` | src/assets/servises.ts:171-186 | the pairs come in strictly increasing (i, j) order, so none comes twice |
| `Physics.PairsFromComplete` | src/assets/servises.ts:171-186 | every pair still to come is visited |
| `Physics.CollisionPairsExactlyOnce` | src/assets/servises.ts:170-188 | the pass visits each pair i < j of the rack exactly once, in increasing order, and no other pair |
| `Physics.CollideAtConserves` | src/assets/servises.ts:183-185 | one pair step keeps the summed momentum, the summed position, the total squared momentum and every colour |
| `Physics.CollisionPass` | src/assets/servises.ts:170-188 | the pair step applied to every pair of `CollisionPairs` in order; it keeps the rack's length, and `CollisionPassConserves` and `CollisionPassWithoutContact` state what it keeps |
| `Physics.CollisionPassConserves` | src/assets/servises.ts:170-188 | the whole pass keeps the summed momentum, the summed position, the total squared momentum and every colour |
| `Physics.CollisionPassWithoutContact` | src/assets/servises.ts:183 | a rack without a pair closer than a diameter leaves the pass unchanged |
| `Physics.Advance` | src/assets/servises.ts:214-218 | one ball's tick: wall check, move by minus the momentum, friction 0.99; `AdvanceBounds` states its properties and `Services.AnimateBall` is proved equal to it |
| `Physics.AdvanceAll` | src/assets/servises.ts:213-218 | every ball is advanced on its own, and no ball depends on another |
| `Physics.AdvanceBounds` | src/assets/servises.ts:215-218 | a tick keeps the colour, multiplies the squared momentum length by 0.99² (so never increases it), and leaves the centre off the rectangle by at most the momentum |
| `Physics.EnergyOfAdvanceAll` | src/assets/servises.ts:213-218 | advancing every ball multiplies the total squared momentum by 0.99² |
| `Physics.StepEnergy` | src/assets/servises.ts:155-156 | one frame, the pass and then the advance, multiplies the total squared momentum by 0.99² |
| `Physics.Step` | src/assets/servises.ts:155-156 | one frame: the pair pass and then the advance of every ball; it keeps the rack's length, and `StepEnergy` states what it does to the energy |
| `Physics.Run` | src/assets/servises.ts:153-165 | n frames without a stop; `RunEnergy`, `SettlesWithinHalvings` and `ShotSettles` are about it |
| `Physics.RunEnergy` | src/assets/servises.ts:153-165 | n frames multiply the total squared momentum by (0.99²)ⁿ |
| `Physics.Settled` | src/assets/servises.ts:157 | the stop test on squares: every squared momentum length is below 0.01; `SettleTestBySquares` ties it to the length test |
| `Physics.SettleTestBySquares` | src/assets/servises.ts:157 | a momentum length < 0.1 holds exactly when its squared length is < 0.01 |
| `Physics.LowEnergySettled` | src/assets/servises.ts:157 | a rack whose total squared momentum is below 0.01 passes the stop test |
| `Physics.SettlesWithin` | src/assets/servises.ts:153-163 | the animation stops within any n frames with n·(1/0.99² − 1) ≥ energy / 0.01 (a bound linear in the energy) |
| `Physics.FiftyTicksHalve` | src/assets/servises.ts:218 | fifty frames of friction scale the energy by less than one half: 0 < (0.99²)⁵⁰ < 1/2 |
| `Physics.SettlesWithinHalvings` | src/assets/servises.ts:153-163 | a rack whose energy is below 2ᵏ·0.01 has stopped after n = 50·k frames, a bound logarithmic in energy over the squared threshold |
| `Physics.ShotSettles` | src/assets/servises.ts:142-163 | a shot from rest (energy at most 30²) stops within 850 frames |
| `Physics.ResetAll` | src/assets/servises.ts:250-254 | every momentum set to (0, 0); `ResetAllFacts` states its properties and `Services.ResetMomentums` is proved equal to it |
| `Physics.ResetAllFacts` | src/assets/servises.ts:250-254 | the reset stops every ball and keeps every position and colour; the rack is then settled and has zero energy |
| `Physics.ShotPower` | src/assets/servises.ts:142-145 | the power is min(600, 1.2·dist), lies between 0 and 600, and is 0 exactly for a zero drag |
| `Physics.ShotMomentum` | src/assets/servises.ts:147-151 | the shot momentum has length power/20 (at most 30), points from the ball towards the cursor and is parallel to the drag |
| `Physics.EnergyOfShotFromRest` | src/assets/servises.ts:148-151 | setting one momentum in a rack at rest gives the rack exactly that squared length as energy |
| `Physics.NewBallSettled` | src/assets/classes.ts:9 | a new ball, with momentum (0, 0), already passes the stop test |
| `Physics.InitialRack` | src/assets/servises.ts:19-25 | one ball per opening position, in order, at rest; ball 0 has the first American colour and every other ball the second |
| `Physics.InitialRackSettled` | src/assets/servises.ts:19-25 | the opening rack passes the stop test and has zero energy |
| `Physics.InitialRackContained` | src/assets/consts.ts:39-58 | every ball of the opening rack is inside the containment rectangle |
| `Physics.InitialRackWallsInert` | src/assets/servises.ts:231-248 | on a rack whose centres are the opening positions, with any momenta (so also after the shot has set the cue's momentum), the first wall checks change no ball |
| `Physics.InitialRackApart` | src/assets/consts.ts:37-58 | no two balls of the opening rack overlap |
| `Physics.InitialRackPassInert` | src/assets/servises.ts:170-188 | on a rack whose centres are the opening positions, with any momenta (so also after the shot has set the cue's momentum), the first pair pass changes nothing |
| `Services.CheckWallCollision` | src/assets/servises.ts:231-248 | the live ball's new state is the wall bounce of its old state |
| `Services.HandleCollision` | src/assets/servises.ts:190-211 | the two live balls' new states are the collision response of their old states |
| `Services.CheckPair` | src/assets/servises.ts:178-185 | the rack after one pair step is the pair step of the old rack |
| `Services.CheckPairsOf` | src/assets/servises.ts:174-186 | the inner loop leaves the rack in the state of the pair steps (i, i + 1), …, (i, n − 1) applied in order to the old rack; the `i === j` return is unreachable |
| `Services.RowThenRest` | src/assets/servises.ts:171-186 | for any pair step, running row i and then the pairs after it is the pass from the start of row i |
| `Services.CheckBallsForCollisions` | src/assets/servises.ts:170-188 | the nested loops leave the rack in the state of the pass over all pairs in (i, j) order |
| `Services.AnimateBall` | src/assets/servises.ts:214-218 | wall check, move by minus the momentum, then friction: the ball's new state is one tick of its old state |
| `Services.AnimateBalls` | src/assets/servises.ts:213-218 | every ball's new state is one tick of its own old state |
| `Services.ResetMomentums` | src/assets/servises.ts:250-254 | every momentum becomes (0, 0) and nothing else changes |
| `Services.EverySettled` | src/assets/servises.ts:157 | true exactly when every momentum is shorter than the threshold |
| `Services.Tick` | src/assets/servises.ts:153-163 | one frame is the pass, then the advance; it reports a stop exactly when the result is settled, and then every momentum is reset |
| `Services.GetBallUnderCursorIndex` | src/assets/servises.ts:256-267 | returns −1 exactly when no centre is within a radius of the cursor; otherwise returns the least such index, which is in range |
| `Services.GetInitialBalls` | src/assets/servises.ts:19-25 | returns distinct new balls whose states are the opening rack |
| `Services.Shoot` | src/assets/servises.ts:140-151 | fires exactly when the power is non-zero; with no shot nothing changes; otherwise only the selected ball's momentum becomes the shot momentum |
| `Borders.PointWithinBorders` | src/assets/servises.ts:81-83 | the point lies within the four cushions, edges included; `BordersSplitByAxis` splits it by axis |
| `Borders.PointWithinVerticalBorders` | src/assets/servises.ts:85-87 | the y coordinate lies between the top and bottom cushions |
| `Borders.PointWithinHorizontalBordersAsWritten` | src/assets/servises.ts:89-91 | the x test as written, with upper bound W + PTB; `HorizontalBordersAsWrittenBand` says exactly what it accepts |
| `Borders.PointWithinHorizontalBorders` | src/assets/servises.ts:81-82 | the corrected x test with upper bound W − PTB, the x half of `pointWithinBorders` |
| `Borders.BordersSplitByAxis` | src/assets/servises.ts:81-91 | the point test is the conjunction of the corrected x test and the y test |
| `Borders.HorizontalBordersAsWrittenBand` | src/assets/servises.ts:89-91 | the written x test accepts the corrected range plus the band (W − PTB, W + PTB] |
| `Borders.HorizontalBordersAsWrittenAcceptsOutside` | src/assets/servises.ts:89-91 | x = W passes the written x test, and with y = h/2 the y test too, yet the point lies outside the borders |

## Left out

- The aim line (`renderAimLine`, `getBorderCollusionPoint`, servises.ts:46-132) is left out. It relies on floating-point trigonometry and exact float equality on computed points, and its reflection loop has no termination argument.
- The `Math.sqrt` results are not computed. Distances are compared on squares. The shot takes the drag length `dist` as a parameter with `dist * dist` equal to the squared drag.
- Physics.ShotMomentum: the shot direction is the unit drag vector times power/20. It is not the `cos`/`sin` of the `atan2` angle, which is the same vector in exact arithmetic.
- Services.HandleCollision: computes `impulse * normal` as `(dot / |delta|²) * delta` rather than through `distance`. Physics.CollideAlongUnitNormal proves the two forms agree for any square root.
- The `requestAnimationFrame`/`Promise` loop of `animateShoot` (146-166) is not modelled as scheduling. One frame is `Services.Tick`, and the sequence of frames is `Physics.Run`.
- Canvas drawing (`clearCanvas`, `renderBalls`, the drawing in `animateBalls`) is left out; it is output only.
- `getPoint` is left out; it maps DOM coordinates.
- The React components are not part of this model. Of `types.ts`, the `Point` and `Vector` types become `Geometry.Vec`; the rest of it is left out.
- `COLORS` (the colour menu's palette) and `MAX_AIM_LINE_LENGTH` (the aim line's length cap) of `consts.ts` are left out, because the colour menu and the aim line are.
- IEEE double rounding is not modelled. All arithmetic is exact over the reals.
- Balls.Ball: the accessors `getPosition`, `getMomentum` and `getColor` are field reads. `getMomentumLength` is a square root, which the model never computes: the stop test compares squared lengths (`Physics.SettleTestBySquares`). `getPosition` returns the live position, which the wall check updates in place.
- Physics.Collide, Services.HandleCollision, Physics.CollideAt, Physics.CollisionPass, Physics.Step, Physics.Run, Services.CheckPair, Services.CheckPairsOf, Services.CheckBallsForCollisions, Services.Tick: these skip a pair of balls on one centre, so that no NaN reaches a ball; `Physics.Collide` and `Services.HandleCollision` require distinct centres (`HandlerDefined`), where servises.ts:184 calls the handler on such a pair too. The source divides by a zero distance and makes both momenta NaN. The conservation, energy and settling theorems built on them (Physics.CollisionPassConserves, Physics.StepEnergy, Physics.RunEnergy, Physics.SettlesWithin, Physics.SettlesWithinHalvings, Physics.ShotSettles) hold for this guarded pass only. In the source, a NaN momentum never passes the `< 0.1` test of servises.ts:157, so such an animation never stops.
- Physics.SettlesWithin: states the coarser bound, linear in the energy, that Bernoulli's inequality gives directly. The logarithmic bound is Physics.SettlesWithinHalvings.
- Services.GetInitialBalls, Balls.Ball.constructor: points are values here. In the source, `new Ball(coords, …)` (classes.ts:8) stores the caller's point object, and `getInitialBalls` (servises.ts:19-25) passes the `INIT_COORDS` entries themselves. So the live balls' positions are the `INIT_COORDS` objects. The wall check writes into them (servises.ts:235-245), and so do the moves. The model treats `INIT_COORDS` as constant. Services.GetInitialBalls therefore builds the opening rack on every call. In the source, only the first call does; later calls (the component calls `getInitialBalls()` on every render) return balls at the current positions that share position objects with the live rack, and the component discards those results. The React component is not part of this model.
- `movePosition` and `position.x = …` are modelled as updates of the ball's own position in place. Under that reading, `pos1`, read once per row at servises.ts:173, sees the nudges of earlier pair steps of that row; the model reads the current position at each pair step, which is the same thing.

## Findings

| source | as written | input that shows it | evidently intended | confidence | as-written member | corrected member |
|---|---|---|---|---|---|---|
| src/assets/servises.ts:89-91 | `pointWithinHorizontalBorders` accepts `x <= POOL_TABLE_WIDTH + PTB` | x = 1024 (the table's right edge) passes, though the right cushion starts at 957 | `x <= POOL_TABLE_WIDTH - PTB`, as in `pointWithinBorders` | high; not executed | `Borders.HorizontalBordersAsWrittenAcceptsOutside` | `Borders.BordersSplitByAxis` |
| src/assets/servises.ts:182-197 | the pass calls `handleCollision` on every pair closer than `2·BR`, and the handler divides by `distance` with no guard | two balls on the same centre: distance 0 < 32, so `normalX = 0/0` and both momenta become NaN | pairs on one centre are skipped and no NaN reaches a ball | medium; not executed | `Physics.CoincidentCentresReachDivision` | `Physics.CollideAt` |
