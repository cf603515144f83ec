# sdl-ascii animation core in Dafny

sdl-ascii draws a scrolling field of ASCII waves on an 83 x 28 character grid. A small boat sits on the waves. The user nudges it with the arrow keys, with w/a/s/d, or by clicking beside it. This project models the per-frame state machine in `main.c`, leaving out the SDL plumbing around it:

- the frame's events are folded into a move intent;
- `boat_move` makes a throttled move, with its hidden move timeout and the drift timeout;
- the wave scroll position advances at most once per 1000 ms;
- the grid is repainted with the wave pattern;
- the boat drifts one column left when the waves advance and drift is not held off;
- the boat's 3 x 7 mask is drawn over the grid.

Files:

- `scene.dfy` (module `Scene`): grid size, palette, cells, the boat mask, and the wave glyph rule. It also defines what the two painting passes leave in the grid (`Painted`, `Overlay`) and the in-range condition `OverlayFits` for the boat's writes.
- `input.dfy` (module `Input`): events, the click-versus-box rule and `Resolve`, which folds a frame's events into an intent.
- `motion.dfy` (module `Motion`): the scalar state as a value (`Motion`), with the transitions `Move`, `AdvanceWaves` and `Drift`, one frame `Step`, and runs of frames `Run`.
- `animation.dfy` (module `Animation`): class `Animation`. It holds the loop's variables as fields, the static move timeout as `moveTimeout`, and the grid as an array. Its methods perform each step in place, and each is proved to follow the value-level function. `Frame` runs one pass of the loop.

Colours are palette indices (`Color`), not pointers. `Unset` stands for the null colour pointer of the zero-filled grid before its first paint. The cell pixel size reported by the font is a parameter (`cellW`, `cellH`). So is the tick time `now` of each frame.

Three points of the code's behaviour the model keeps as written:

- A move needs the move timeout to be strictly below the current time. So from the initial timeout 0, a move at tick 0 is dropped (`MoveCooldownScenario`).
- The boat overlay writes at `boat_x + x + 83*(boat_y + y)` with no bounds check, and nothing clamps the boat's position. Neither the model nor the code adds a check. Instead, `OverlayBoat` and `Frame` require `OverlayFits`: every written index lies in `[0, 83*28)`. `UpMoveFromTopRowLeavesGrid` shows that a reachable kind of move breaks this, and `StepFromMarginFits` shows when one more frame keeps it.
- The code paints the waves before it applies drift. Painting does not read the boat, so the order does not change the grid.

## Model

| member | source | states |
|---|---|---|
| `Input.ApplyEvent` | main.c:117-152 | one event: quit sets the flag and nothing else; up/down set only the row axis to -1/+1; left/right set only the column axis to -1/+1; a click sets either axis to a direction or leaves it; other keys and events change nothing |
| `Input.ClickAxis` | main.c:139-147 | a click past the box's far edge `(pos+size)*cell` gives +1; one before its near edge `pos*cell` gives -1; a click within the box keeps the axis's earlier value |
| `Input.Resolve` | main.c:112-153 | each axis of the folded intent is -1, 0 or 1; quit is reported exactly when a quit event is among the frame's events |
| `Input.KeyOverwritesOneAxis` | main.c:118-137 | a direction key sets its own axis (up -1, down +1, left -1, right +1) whatever came before, and leaves the other axis and the quit flag unchanged |
| `Input.ClickSetsEachAxis` | main.c:138-148 | a click sets each axis independently from its own comparison with the box, on top of the intent so far |
| `Input.IgnoredEventsLeaveNoIntent` | main.c:112-157 | a frame with only other keys and other events yields no intent, so `boat_move` is not called |
| `Animation.Animation.ResolveIntent` | main.c:112-153 | the event loop, which overwrites the two axis variables event by event, computes exactly `Resolve` of the frame's events for the boat's current position |
| `Motion.Motion.Move` | main.c:10-23 | the move takes effect iff the move timeout is strictly below the time; otherwise nothing changes. An effective move shifts the boat by exactly (dx, dy) and sets the timeout to time+60 for dx<0 and time+120 otherwise. The drift timeout never decreases, and it changes (to time+1000) iff the move took effect and it had lapsed |
| `Animation.Animation.BoatMove` | main.c:10-23 | the in-place `boat_move` leaves the state `Move` describes, with the hidden static timeout as a field |
| `Motion.Motion.AdvanceWaves` | main.c:160-164 | the scroll position rises by exactly one iff `wavesPosTime + 1000 < now`, and then the advance time becomes `now`; otherwise nothing changes; the boat is untouched |
| `Animation.Animation.AdvanceWaves` | main.c:160-164 | the in-place advance follows `AdvanceWaves` and returns the position before it (`waves_pos_last`) |
| `Motion.Motion.Drift` | main.c:183-184 | the column drops by exactly one iff the position rose past `waves_pos_last` and the drift timeout is strictly below `now`; nothing else changes |
| `Animation.Animation.DriftBoat` | main.c:183-184 | the in-place drift follows `Drift` |
| `Motion.Step` | main.c:112-184 | per frame: the scroll position rises by at most one, only after more than 1000 ms. The row moves by at most one and the column by between -2 and +1. Timeouts never decrease. The column is the one after the move (if any), less one exactly when the waves advanced and the drift timeout left by the move is below `now`. With no intent, `boat_move` is not called and only the waves and the drift act |
| `Motion.Run` | main.c:109-184 | repeated loop passes: over any run the scroll position never decreases and rises by at most one per frame; each rise is more than 1000 ms of advance time after the previous one; neither timeout decreases |
| `Motion.WavesAdvanceAtMostOncePerInterval` | main.c:160-164 | over any run, the scroll position rises by at most one per 1001 ms of the frames' tick times, counted from the starting advance time to the latest tick; the advance time never passes the latest tick. A late frame catches up a single step |
| `Motion.ReachableWavesPosNonNegative` | main.c:36 | every state reached from the initial one has a non-negative scroll position |
| `Motion.IdleRunDriftsWithoutBound` | main.c:160-184 | drift has no lower bound. With drift not held off, frames without input arriving 1001 ms apart advance the waves every time. Each one moves the boat one column left, so after n frames the column is n lower and nothing else about the boat has changed |
| `Motion.Initial` | main.c:36-50 | the state before the first frame: scroll position, advance time and both timeouts 0, the boat's box centred, rounding toward the top-left |
| `Motion.StepFromMarginFits` | main.c:183-190 | a boat two columns from the left edge, one column from the right edge and one row from the top and bottom is still drawn inside the grid after any one frame |
| `Motion.InitialFrameFits` | main.c:48-49 | the initial boat at column 38, row 12 is within that margin, so the first frame writes inside the grid |
| `Motion.UpMoveFromTopRowLeavesGrid` | main.c:186-190 | moves are not clamped: an effective up move from row 0 puts the boat at row -1, where the overlay's writes leave the grid |
| `Motion.DriftIgnoresLeftEdge` | main.c:183-184 | drift is not clamped: it takes the boat from column 0 to column -1 |
| `Motion.MoveCooldownScenario` | main.c:12-18 | from the initial state a move at tick 0 is dropped. At tick 1 a left move sets the timeout to 61 and a right or down move sets it to 121. A move at tick 30 after the left move is dropped |
| `Motion.DriftTimeoutScenario` | main.c:20-21 | with the drift timeout at 500, a move at tick 100 leaves it at 500, and a move at tick 600 renews it to 1600 |
| `Scene.WaveCell` | main.c:170-178 | a wave cell always has the background; its glyph is `'/'` exactly with the first wave colour and `'\\'` exactly with the second; it is `'/'` iff `wavesPos + x + y%10 > 0` |
| `Scene.Painted` | main.c:166-180 | the grid after the wave pass: 83*28 cells, cell i holding the wave cell of column i%83 and row i/83 |
| `Scene.PaintedAt` | main.c:166-180 | cell (x, y) of the painted grid is at row-major index `x + 83*y`, inside the grid, and holds the wave cell for (x, y) |
| `Scene.PaintedCellColours` | main.c:168-178 | every painted cell has the page background. It is `'/'` in the first wave colour iff `wavesPos + x + y%10 > 0` (`%` binding tighter than `+`), and `'\\'` in the second wave colour otherwise |
| `Scene.SecondGlyphOnlyAtOrigin` | main.c:166-178 | for a non-negative scroll position, `'\\'` appears iff the position is 0, x is 0 and y%10 is 0 |
| `Animation.Animation.PaintWaves` | main.c:166-180 | the nested loops overwrite every cell, and the grid afterwards is exactly `Painted` of the current scroll position |
| `Scene.TopRowShape` | main.c:45 | the only non-blank character in the mask's top row is in column 3 |
| `Scene.OverlayFitsBounds` | main.c:186-190 | every overlay write lies in the grid iff the first write (mask column 3, row 0) and the last write (column 6, row 2) do |
| `Scene.BoxInsideGridFits` | main.c:186-190 | a boat whose 7x3 box lies inside the grid writes only inside it |
| `Scene.BoatGlyphAt` | main.c:186-197 | the boat character the overlay draws at an index, if any: never a blank, and, when `OverlayFits` holds, only at indices inside the grid |
| `Scene.Overlay` | main.c:186-197 | the grid after the boat pass: same length, and every changed cell has the boat colour over the background |
| `Scene.OverlayCovers` | main.c:186-195 | each non-blank mask cell's grid cell gets that character, the boat colour and the background |
| `Scene.OverlayKeeps` | main.c:186-197 | a cell that no non-blank mask cell lands on keeps its painted value |
| `Animation.Animation.OverlayBoat` | main.c:186-197 | given that every write index is in range, the nested loops leave exactly `Overlay` of the previous grid |
| `Animation.Animation.Frame` | main.c:109-197 | one loop pass. The new scalar state is `Step` of the old. The grid is the boat overlaid on the freshly painted waves. The result is true exactly when a quit event was seen |
| `Animation.Animation.constructor` | main.c:26-50 | the initial state: scroll position, times and timeouts 0, boat at ((83-7)/2, (28-3)/2), every cell zero-filled |

## Left out

- SDL and font initialisation, the cursor, window and renderer creation, and their error exits (main.c:62-106). These are foreign library calls.
- Drawing the grid to the window and the teardown (main.c:199-244). This is the rendering backend.
- Event polling and the tick clock. A frame's events are an input sequence, and its tick time `now` is a parameter. The click position is read through the motion member of the event union; the model simply takes the click's pixel position.
- Colour values. Cells hold palette indices. The RGBA values of the dark palette and the commented-out light palette carry no behaviour.
- Unsigned 32-bit wrap-around of the tick counter and of `time + 60`, `time + 120` and `time + 1000`. Times are unbounded naturals. Likewise, `int` overflow of the scroll position and the boat coordinates is not modelled.
- The behaviour of an out-of-range overlay write. In the code it is an unchecked heap write. The model requires `OverlayFits` instead of describing it.
- Ending the loop. `Frame` reports quit, and `Run` models a run of frames without stopping on it.
