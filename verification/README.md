# Proofs about the robot stack's control core

A Dafny model of the parts of a differential-drive robot stack whose
correctness is a statement about whole runs or whole grids, with the properties
those parts are relied on for. `dafny verify dfyconfig.toml` checks the whole
project.

## What is modelled

**Grid planning** (`Grid`, `Rasters`, `Wavefront`, `LocalCostmap`, `Paths`,
`SearchState`, `Astar`, `BestEffort`, `TieWidth`, `TieGate`, `StartRelax`,
`Clearance`, `Chords`, `Downsampling`, `LocalPlanner`, `CutCorners`). Dilations and the chamfer wavefront are loops over rasters,
proved equal to a disk, a Chebyshev ball and a capped octile distance. Both A*
searches are the source's loops over a lazily deleting heap, a closed set,
costs and parents; their invariant (`SearchState.Inv`) carries ghost trails
that the parent links stand for, and gives optimality, completeness and the
ranking of best-effort endpoints, its choice among equals included. The planner
composes them, and says where its plans end. The padded lethal radius is shown to
keep every point of the cell path clear of every hit, and the downsampled
polyline at exactly which footprints and steps.

**Safety** (`EStop`, `EStopProtocol`, `Arbiter`, `Wheel`, `Motor`). The two
e-stop latches run as a transition system: the watchdog's status level, the
emergency stop that it or the desktop sends and the operator's re-arm travel on
separate channels, each in order, each able to lose or delay messages; a status is computed under the
watchdog's lock, by a clock read before it, and published later; and the watchdog
may be killed and started again. Behind the latches sit the command
arbiter, the wheel PI loop and the decision part of the motor tick.

**Goals** (`Goto`, `Steering`, `Tier3`, `Tier3Object`, `PathGoals`,
`PathFollow`). The arbiter of goto, path and cancel messages under arbitrary
resends; the per-goal controller with poses, plans, vetoes and times as
arbitrary inputs of each tick, over runs of ticks, path refreshes and new goals;
the resampling and rejoin scans of path following.

**Decoders and clocks** (`LdPacket`, `LdStream`, `LidarClock`, `LidarTime`,
`Quadrature`). The LD19 CRC table, frame parser and incremental decoder; the
device clock with its monotonic deque; the quadrature counter.

**Utterances** (`AudioBridge`, `Playback`). Receive, stop, shutdown and playback
as interleaved atomic steps, one per locked block or player call.

**Depth evidence** (`DepthDenoise`, `DepthEvidence`, `DepthMemory`). The
component search, and the obstacle memory against the full history of frames.

`Options` and `Numbers` hold what the modules share.

Objects the source updates in place are classes whose methods are proved
against a specification function; the properties are then proved of that
function over all inputs or all runs.

### Conventions

- Floats are `real`. `math.sqrt(2.0)` is the exact value of that double, so the
  octile metric is the one the code computes with, short of its rounding.
- `math.hypot` and `exp` are parameters: any norm with `norm(x, y)^2 = x^2 + y^2`,
  any decay with values in [0, 1] for arguments at most 0.
- A raster is a value (shape and contents); numpy's whole-array operations are
  functions on it. The heap is the set of its entries, ordered as tuples are.
- Each block the source holds a lock for is one step; any interleaving of steps
  is allowed. Times are inputs.

### Where the code does not do what its documentation says

- `astar_toward` says "no path" means that no reachable cell is nearer the goal
  than the start. With a tie width it can pick a cheaper cell that makes no
  progress and then report "no path". Detour gate off, a given offset from start
  to goal and a given tie width keep the promise on every map if and only if no
  cells `a` other than the goal and `i` other than the start have `a` nearer than
  the start by the margin, `i` not, and `i` within the tie width of `a`
  (`TieWidth.TiePromiseExact`, `TieWidth.Shadows`). With the gate on, a nearer cell
  that is no detour is hidden on no map if the tie width is zero or the start is at
  most one cell from the goal, and on some map otherwise, however small the tie
  width (`TieGate.GatedPromiseExact`). Every default in place, a two by four map
  hides one (`TieWidth.DefaultsHideGain`).
- The clearance of a plan is that of its cell path. For a footprint of `phi` cells
  and a pad of `1 / sqrt(2)`, downsampling keeps it for every path at a step of at
  most one; at two if and only if `phi` is zero or above `1 - pad`; at three if
  and only if moreover `phi^2 <= 0.4` or `(phi + pad)^2 > 2`
  (`Downsampling.DownsampleClearIff`), and `plan_local` does hand out the paths that
  lose it (`CutCorners`). The default footprint of 1.375 cells keeps
  it at exactly the steps up to the default of three
  (`Downsampling.DefaultStepIsLargest`).
- The watchdog "latches on heartbeat loss", but not always: after a re-arm that
  comes before the tick that sees the heartbeat again, a second loss goes
  unlatched and unannounced. Over any run a tick without heartbeat leaves it
  latched if and only if no re-arm was accepted since the current stretch of such
  ticks began (`EStopProtocol.LossLatches`). `EStopProtocol.LossCanBeMissed` is a
  run; as an accepted re-arm wakes the status loop, it takes a loop held up for the
  heartbeat timeout, or a timeout shorter than the wake-up.
- The e-stop clears "only" on a re-arm, but a restarted watchdog that hears a
  heartbeat before its first tick clears the motor's mirrored latch without one
  (`EStopProtocol.RestartClears`). That is the only exception
  (`EStopProtocol.EdgeNeedsRearm`).
- A cancel ignores the watermark: a late copy of an old cancel drops a newer
  goal. Replaying one is harmless exactly when there is nothing to cancel and
  its number is not new (`Goto.CancelReplay`).

## Model

| member | source | states |
|---|---|---|
| Grid.NeighborTable | body/lib/astar.py:24-28 | the neighbour table lists every 8-neighbour with its length, and nothing else |
| Grid.OctileStep | body/lib/astar.py:31-34 | the octile distance to a goal drops by at most the length of a step: it is a consistent heuristic |
| Astar.WeightedConsistent | body/lib/astar.py:31-101 | a weighted heuristic is consistent once steps are inflated by its weight, so weights up to one cost nothing |
| Astar.CostIs | body/lib/astar.py:84-95 | a route costs its length plus the weighted cost of every cell it enters |
| SearchState.RelaxKeeps | body/lib/astar.py:84-101 | relaxing an edge keeps heap, costs, parents and the settled cells in agreement |
| SearchState.PopIsBest | body/lib/astar.py:72-83 | a cell taken off the heap already has the least cost of any route to it, in spite of lazy deletion |
| SearchState.ExhaustedReach | body/lib/astar.py:72-102 | with the heap empty every cell that any route reaches has been closed |
| Astar.Reconstruct | body/lib/astar.py:37-44 | following the parent links backwards gives exactly the route they were built from |
| Astar.HeapPop | body/lib/astar.py:72-73 | what is popped is least by priority, then by push order |
| Astar.Expand | body/lib/astar.py:84-101 | expanding a cell settles all its edges and keeps the search invariant |
| Astar.Astar8c | body/lib/astar.py:47-102 | "ok" comes with a non-lethal start-to-goal route of least cost (times the heuristic weight if above one); "no path" means unreachable; the limit is hit only if it is at most the number of cells |
| BestEffort.CheapestTie | body/lib/astar.py:211-228 | the tie pass returns the cheapest cell that ties with the leader; among equally cheap ones the leader, then the one closed first |
| BestEffort.Explore | body/lib/astar.py:163-210 | the main loop stops at an accepted goal, at the limit, or with every reachable cell closed |
| BestEffort.AstarToward | body/lib/astar.py:105-236 | the path is an optimal route to the endpoint that leader, tie pass and closing order pin down; "frontier" exactly when that endpoint makes progress; within the expansion limit every reachable cell was considered |
| BestEffort.FrontierIsExact | body/lib/astar.py:121-236 | without a tie width a frontier endpoint is nearest, then cheapest, among all reachable ungated cells, and "no path" means none of them is nearer than the start |
| BestEffort.FrontierIsNearer | body/lib/astar.py:229-236 | for any tie width a frontier endpoint is strictly nearer than the start and never a detour |
| BestEffort.BaseIsLeast | body/lib/astar.py:176-190 | the leader ranks least, by gate, distance and cost, of all eligible cells that any route reaches |
| TieWidth.TiePromiseExact | body/lib/astar.py:117-120 | detour gate off: for which offsets and tie widths "no path" keeps its promise on every map: exactly those at which no pair of cells shadows the start |
| TieGate.GatedPromiseExact | body/lib/astar.py:117-137 | detour gate on: no map hides an eligible nearer cell exactly if the tie width is zero or the start is at most one cell from the goal |
| TieGate.GateHides | body/lib/astar.py:105-236 | for every other start the search answers "no path" on a concrete map, an eligible nearer cell among those it met |
| TieWidth.HiddenGain | body/lib/astar.py:211-236 | gate on or off, what a hidden gain looks like: the leader gained, and the cell it tied with did not, or is itself a detour |
| TieWidth.HideGain | body/lib/astar.py:105-236 | wherever a pair of cells shadows the start, the search answers "no path" on a concrete map with a nearer cell in reach |
| TieWidth.DefaultsHideGain | body/lib/local_planner.py:44-51 | with every default in place, on a concrete map, each answer the search may give is "no path" although a nearer cell is reachable |
| StartRelax.SegmentHits | body/lib/astar.py:268-278 | true exactly when a sampled cell of the segment is blocked |
| StartRelax.WallStops | body/lib/astar.py:268-278 | a full row or column of blocked cells between the ends is never jumped over |
| StartRelax.NearestNonLethal | body/lib/astar.py:239-265 | the nearest non-lethal cell in the ring that is not behind a hit, ties in scan order; None only if there is none |
| Rasters.ShiftMoves | body/lib/local_costmap.py:138-147 | shifting moves every cell by the offset and fills what comes from outside |
| Rasters.DilateDisk | body/lib/local_costmap.py:125-135 | the result is the set cells and every cell strictly within the radius of one |
| Rasters.DilateBool | body/lib/local_costmap.py:150-161 | n iterations give the Chebyshev ball of radius n |
| Wavefront.WavefrontDistance | body/lib/local_costmap.py:176-195 | the iterated transform, early exit included, is the octile distance to the nearest blocked cell capped at max_cells + 1 |
| Wavefront.Round | body/lib/local_costmap.py:186-195 | one round gives each cell the least of its value and its neighbours' plus the step |
| Wavefront.FixpointBelow | body/lib/local_costmap.py:186-195 | a round that changes nothing has reached the true distance of every cell, however far |
| LocalCostmap.BlockedIff | body/lib/local_costmap.py:68-78 | the denoiser drops exactly the hits that are out of range and touch no other hit |
| LocalCostmap.LethalCells | body/lib/local_costmap.py:85-91 | lethal are exactly the hits, what lies strictly within the padded radius of one, and unknown cells if configured |
| LocalCostmap.CostBounds | body/lib/local_costmap.py:93-101 | costs stay between nothing and the halo maximum or unknown cost, the safety band costs the full halo, unknown is never cheaper |
| LocalCostmap.HaloProfile | body/lib/local_costmap.py:93-101 | the halo is full through the safety band, then decays by the decay length, and is gone after five of them |
| LocalCostmap.FartherCostsNoMore | body/lib/local_costmap.py:81-101 | of two cells in the same state of knowledge, the one at least as far from every blocked cell costs no more |
| LocalCostmap.BuildLocalCostmap | body/lib/local_costmap.py:60-104 | the built costmap meets those specifications, lethal cells at an infinite cost, and fails exactly for a bad resolution |
| LocalCostmap.LethalCovers | body/lib/local_costmap.py:85-91 | the built costmap covers the hits: every cell within the padded radius of one is lethal |
| LocalCostmap.CloseOffKeeps | body/lib/tier3_controller.py:367-375 | with more cells closed off, as the controller does before planning, it still does, and prices stay as specified |
| Clearance.SegmentClear | body/lib/local_costmap.py:107-110 | between two adjacent non-lethal centres no point is nearer a hit than the footprint radius, corner-cutting diagonals included |
| LocalPlanner.CellHolds | body/lib/local_planner.py:69-71 | a point falls in the cell whose square holds it, lower edges included with a billionth of a cell to spare, and in no other |
| LocalPlanner.CentreRoundTrip | body/lib/local_planner.py:69-76 | so a cell's centre falls in that cell |
| Downsampling.DownsampleKeeps | body/lib/local_planner.py:166-173 | downsampling keeps both ends and visits only cells of the path |
| Downsampling.DownsampleClearIff | body/lib/local_planner.py:155-173 | for which footprint and step up to three downsampling keeps the clearance of every path |
| Downsampling.DefaultStepIsLargest | body/lib/local_planner.py:41 | the default step of three is the largest that keeps the default footprint's clearance |
| CutCorners.PlanThroughHall | body/lib/local_planner.py:78-173 | for every footprint of at most 1 - pad cells and every step from two on, a planner run hands out a path through a hit |
| CutCorners.PlanThroughNook | body/lib/local_planner.py:78-173 | for every footprint of the second band, at the default step, one that passes a hit nearer than the footprint |
| Chords.ThreeMoves | body/lib/local_planner.py:166-173 | how near a hit the straight line over three moves can come when the four cells keep off it |
| LocalPlanner.FreeStart | body/lib/local_planner.py:118-127 | a lethal start steps to the nearest free cell never across a hit, a free one stays |
| LocalPlanner.PlanLocal | body/lib/local_planner.py:78-163 | each reason holds exactly when its cause does, snapped and frontier included, out-of-map ones by the coordinates, and a plan that searched is built from an answer `astar_toward` may give for the cells that hold the start and the goal |
| LocalPlanner.PathPointsAre | body/lib/local_planner.py:155-162 | the path handed out is the kept centres in order, the robot's position before them exactly when it is more than a cell off |
| LocalPlanner.PlanEndsNearer | body/lib/local_planner.py:54-64 | a snapped or frontier plan ends strictly nearer the goal than it starts, never by a detour, along an optimal route |
| LocalPlanner.PlanIsNearest | body/lib/local_planner.py:54-64 | without a tie width it ends nearest, then cheapest, of all eligible reachable cells, and with no path to offer none of them is nearer than the start |
| LocalPlanner.PlanIsTied | body/lib/local_planner.py:42-44 | with a tie width, as by default, it ends at most that much farther than any eligible cell, and no dearer than any that ties with the leader |
| LocalPlanner.PlannedPathClear | body/lib/local_planner.py:101-163 | every point of every segment of the planned cell path keeps the footprint radius from every hit, on the built costmap and on any with more cells closed off |
| LocalPlanner.PolylineClear | body/lib/local_planner.py:155-173 | so does every point between the kept centres, where the step suits the footprint |
| LocalPlanner.BuiltCostsNonNegative | body/lib/local_planner.py:96-140 | with the built costmap no step is cheaper than its length, so the searches are optimal |
| EStop.EStopState.UpdateHeartbeat | body/watchdog.py:34-43 | the watchdog's tick is the specified transition and says when to announce |
| EStop.EStopState.Rearm | body/watchdog.py:45-50 | a re-arm clears the watchdog's latch only with a fresh heartbeat |
| EStop.EStopLatch.OnEmergencyStop | body/lib/wheel_control.py:281-282 | an emergency stop latches |
| EStop.EStopLatch.OnStatus | body/lib/wheel_control.py:284-288 | the motor's latch follows the status level and clears on its falling edge |
| EStop.EStopLatch.OnRearm | body/lib/wheel_control.py:290-295 | a re-arm clears the motor's latch only with a fresh heartbeat |
| EStopProtocol.RunKeeps | body/watchdog.py:73-150 | under loss, delay, restarts and any interleaving the statuses on the way are ordered, quiet ones without heartbeat follow a re-arm, and every edge so far has its own cause |
| EStopProtocol.EdgeNeedsRearm | body/lib/wheel_control.py:263-295 | the motor's e-stop goes inactive only by a status or re-arm message, behind which is a re-arm accepted while that side's heartbeat was fresh; the one exception is a watchdog restarted, and not re-armed, since the last status applied, that has found a fresh heartbeat |
| EStopProtocol.EdgesNeedDistinctRearms | body/lib/wheel_control.py:263-295 | no two such edges share a re-arm, or a restart |
| EStopProtocol.RestartClears | body/watchdog.py:53-150 | the exception is reached from every state with nothing under way, exactly when the motor mirrors an active status |
| EStopProtocol.LossLatches | body/watchdog.py:34-43 | over any run a tick without heartbeat leaves the watchdog latched if and only if no re-arm was accepted since the current stretch of such ticks began |
| EStopProtocol.FlagsAre | body/watchdog.py:34-50 | over any run a loss is announced exactly in such a stretch, and the latch is clear in it exactly after an accepted re-arm |
| EStopProtocol.TickReports | body/watchdog.py:114-148 | a tick reports the latch as it then stands, and sends an emergency stop exactly on the first tick of a stretch without heartbeat |
| EStopProtocol.MotorLatchIs | body/lib/wheel_control.py:263-295 | over any run the motor's own latch is set exactly while an emergency stop that reached it has been lifted by neither a re-arm on a fresh heartbeat nor a falling status, and the mirrored one exactly while the last status to reach it was active |
| EStopProtocol.StopsStop | body/lib/wheel_control.py:263-288 | an emergency stop or active status that reaches the motor latches it, and it stays active until an edge as above |
| EStopProtocol.LossCanBeMissed | body/watchdog.py:73-124 | a run in which a second heartbeat loss goes unlatched and unannounced |
| Arbiter.TimeoutBounds | body/lib/wheel_control.py:215-218 | no command outlives its own timeout, the maximum, or the 50 ms floor |
| Arbiter.CommandArbiter.Store | body/lib/wheel_control.py:244-250 | the command joins the history, its timeout clamped |
| Arbiter.CommandArbiter.Select | body/lib/wheel_control.py:252-257 | lazy deletion answers as the full history does: the latest received of each kind's last command that has not expired |
| Arbiter.CommandArbiter.Clear | body/lib/wheel_control.py:259-260 | clearing leaves no command in force |
| Arbiter.InForceUnique | body/lib/wheel_control.py:252-257 | that answer is unique unless two live commands arrived at the same instant |
| Arbiter.SilenceStops | body/lib/wheel_control.py:212-257 | with no command as young as the longest timeout allowed, none is in force |
| Wheel.WheelPI.Step | body/lib/wheel_control.py:116-172 | the in-place step is the specified one, duty and direction included |
| Wheel.WheelPI.Reset | body/lib/wheel_control.py:75-81 | a reset loop is a fresh one |
| Wheel.StepPiKeeps | body/lib/wheel_control.py:83-172 | every step keeps the integral and the escalation in their clamps and the duty in [0, 1] |
| Wheel.RunPiKeeps | body/lib/wheel_control.py:83-172 | over every run the integral's duty authority stays within its configured share |
| Wheel.ReversalForgets | body/lib/wheel_control.py:123-131 | after a reversal the step is that of a fresh loop |
| Wheel.BreakawayFloor | body/lib/wheel_control.py:143-164 | after the kick ramp a static wheel is driven at least at breakaway duty, the commanded way |
| Wheel.OutputIs | body/lib/wheel_control.py:30-36 | the output is feed-forward plus kp times the error plus ki times the integral, the feed-forward running from the kinetic duty to full at top speed |
| Wheel.FeedbackOpposes | body/lib/wheel_control.py:135-141 | the slower the wheel is found at the same command, the higher the output, integral included |
| Wheel.RegimeDebounced | body/lib/wheel_control.py:89-114 | the friction regime flips with the reading that completes a run of regime_confirm_ticks readings across the threshold, and none before |
| Wheel.KickIs | body/lib/wheel_control.py:143-164 | the kick floor ramps to breakaway, then escalates up to its bound, and only raises the output |
| Wheel.StepIs | body/lib/wheel_control.py:166-176 | the duty is the output cut to [-1, 1], and the integral is frozen exactly while the floor holds or the output saturates on the side of the error |
| Wheel.CandidateIs | body/lib/wheel_control.py:123-140 | the integral starts over on a reversal and takes in the error of at most a tenth of a second, cut to its clamp |
| Motor.MotorController.OnMotion | body/motor_controller.py:182-196 | a motion command joins the history, a zero one releases a stall, none touches the e-stop |
| Motor.MotorController.Tick | body/motor_controller.py:266-317 | a tick drives only with an unexpired command in force and neither e-stop nor stall, at the loop's duty for that command |
| Motor.StallLatchesIff | body/motor_controller.py:192-312 | over any run of ticks and releasing zero commands, a tick latches a stall if and only if the wheels have been stuck, the latch clear, on every tick since one the configured time back, where that stretch began |
| Motor.StallHolds | body/motor_controller.py:192-312 | a latched stall stays latched until a zero command releases it |
| Motor.WheelsFollow | body/lib/diff_drive.py:15-21 | the mean of the two wheel speeds is the linear speed, and the right one is faster by turn rate times wheel base |
| Motor.PwmMeans | body/lib/diff_drive.py:24-34 | open-loop duty is in proportion to the speed, full at top speed and beyond, in the direction asked for |
| AudioBridge.Bridge.OnChunkLocked | body/audio_bridge.py:140-163 | a chunk is ignored, stored with its utterance, admitted or refused as specified |
| AudioBridge.Bridge.StopAllLocked | body/audio_bridge.py:167-179 | a stop drops all that waits and cuts what plays |
| AudioBridge.Bridge.TakeLocked | body/audio_bridge.py:204-214 | the oldest waiting utterance becomes current with no cut pending |
| AudioBridge.Bridge.DecideLocked | body/audio_bridge.py:229-252 | the next chunk is written, or the utterance ends for the specified reason |
| AudioBridge.Bridge.FinishLocked | body/audio_bridge.py:261-265 | the utterance ends and its id is remembered |
| Playback.RunKeeps | body/audio_bridge.py:132-266 | over every interleaving the memory, the reports, the order and the cuts stay in agreement |
| Playback.ReportedOnce | body/audio_bridge.py:132-266 | each admitted or refused utterance is reported done exactly once, and an id still remembered can not be played again |
| Playback.PlayedInOrder | body/audio_bridge.py:204-266 | utterances are taken up and started in arrival order |
| Playback.OutcomesAreHonest | body/audio_bridge.py:217-266 | what was written is chunk 0, 1, 2, ..., each as last received when it was popped; a clean finish was decided with everything taken through the final mark last received by then, a gap timeout with the next chunk missing and none of that utterance received for as long as the gap |
| Playback.StoppedWasAsked | body/audio_bridge.py:167-252 | an utterance reported as stopped was playing when a stop came, or at shutdown |
| Playback.LoopIsDecided | body/audio_bridge.py:229-252 | over every run each pass of the loop stops, finishes, writes, gives up or waits exactly as the stops asked for, the chunks received of the utterance and the time of the last of them call for |
| Playback.FailureIsCalled | body/audio_bridge.py:217-266 | a player that fails ends the utterance as stopped exactly if a stop was asked for while it played |
| Playback.RefusedIff | body/audio_bridge.py:140-163 | a chunk is refused exactly if it is the first of an utterance not remembered and there is no device, or the queue is full |
| Playback.QueueBounded | body/audio_bridge.py:132-179 | over every run at most max_queue utterances wait |
| Goto.GotoArbiter.Command | body/lib/local_drive_core.py:450-510 | the in-place handler is the specified transition |
| Goto.GotoArbiter.DropGoal | body/lib/local_drive_core.py:516-523 | dropping a goal latches a fault under its id |
| Goto.GotoArbiter.FinishGoal | body/lib/local_drive_core.py:525-528 | only the goal of that id is ended |
| Goto.GotoArbiter.TakeRejects | body/lib/local_drive_core.py:512-514 | the queued rejections are handed out once |
| Goto.GotoArbiter.IdleStatus | body/lib/local_drive_core.py:530-538 | a pending cancel is reported first and once, then a latched fault, then idle |
| Goto.ReplayIsSafe | body/lib/local_drive_core.py:423-510 | after any history, re-delivering a processed goto or path leaves goal, watermark, fault and pending cancel alone |
| Goto.StartsAreNew | body/lib/local_drive_core.py:450-510 | a goal starts only under a number above all processed before, so each starts at most one, and what was refused is not accepted later |
| Goto.AnswersAre | body/lib/local_drive_core.py:450-510 | over any run each answer is given exactly under its condition on the highest number so far, the goal in force, the message and the e-stop, and leaves exactly what it should: refused under e-stop no goal and that number's fault |
| Goto.GoalIs | body/lib/local_drive_core.py:450-528 | over any run the goal in force is exactly the one last taken by an accepted goto or path or by a refresh, and not since replaced, refused, canceled, dropped or finished |
| Goto.WatermarkGrows | body/lib/local_drive_core.py:450-510 | the watermark never falls |
| Goto.RefreshRaises | body/lib/local_drive_core.py:450-510 | over any run a path refresh has a strictly higher sequence number than every path taken before it under its number |
| Goto.MalformedKeepsGoal | body/lib/local_drive_core.py:487-503 | a malformed goto under a readable number takes the watermark there and is rejected, an unreadable one changes nothing, and both leave the older goal in force |
| Goto.CancelReplay | body/lib/local_drive_core.py:460-467 | replaying a cancel is harmless exactly when nothing is active or faulted and its number is not new |
| Goto.OldCancelDropsNewGoal | body/lib/local_drive_core.py:460-467 | a late copy of an old cancel drops a newer goal |
| Steering.CapsOnlySlow | body/lib/tier3_controller.py:134-143 | per-goal caps never raise a limit |
| Steering.CapsAre | body/lib/tier3_controller.py:134-143 | a cap within the configured range is the limit, one outside it is moved to its edge, none leaves the limit alone |
| Steering.SteerBounds | body/lib/local_drive_core.py:226-252 | a steering command stays within the limits, and turning in place does not drive |
| Steering.SteersTo | body/lib/local_drive_core.py:226-252 | steering turns towards the point in proportion to the bearing, in place exactly above the threshold, with hysteresis, and else drives at the slowed cruise speed |
| Steering.LatchHolds | body/lib/local_drive_core.py:285-308 | the latched turn keeps its direction inside the flip band and its rate within the limit |
| Steering.LatchTurns | body/lib/local_drive_core.py:285-308 | the latched turn goes towards the bearing, inside the flip band the way it started, at the rate for the angle left |
| Steering.CandidateBounds | body/lib/tier3_controller.py:728-757 | every retry is no faster than the command it replaces and within the turn limit |
| Steering.CandidatesAre | body/lib/tier3_controller.py:728-757 | the command, then the arcs through the lookahead, at speed and at the minimum, and through the half lookahead are tried in that order |
| Tier3Object.Tier3Controller.Step | body/lib/tier3_controller.py:259-573 | the in-place tick is the specified transition, result included |
| Tier3Object.Tier3Controller.StartGoal | body/lib/tier3_controller.py:188-220 | starting a goal resets every per-goal budget |
| Tier3Object.Tier3Controller.UpdatePath | body/lib/tier3_controller.py:222-245 | a refresh keeps the budgets, a new route resets them and lifts a terminal block |
| Tier3Object.Tier3Controller.EnterTerminal | body/lib/tier3_controller.py:759-762 | entering a terminal block is its first terminal tick |
| Tier3Object.Tier3Controller.TerminalTick | body/lib/tier3_controller.py:764-771 | a terminal tick reports the block and counts itself |
| Tier3.TickFacts | body/lib/tier3_controller.py:273-560 | one tick of a point goal: nothing moves past the deadline, no turn past the rotation budget, no re-aim past its own |
| Tier3.CausesAre | body/lib/tier3_controller.py:304-470 | outside a terminal block arrival, and each reason to block before steering, is reported exactly when its cause holds, and the tick goes on to steer exactly when none does |
| Tier3.SteeredIs | body/lib/tier3_controller.py:456-475 | the command steered by: a latched turn in place above the threshold, else towards the lookahead, along the same arc at the minimum speed when the path is starved |
| Tier3.VetoesDecide | body/lib/tier3_controller.py:477-560 | a tick blocks or re-aims for the swept veto exactly if that refuses the command and every retry, and otherwise goes on with the first one let through |
| Tier3.VetoesObeyed | body/lib/tier3_controller.py:477-560 | no forward command is published that the swept veto, or the depth veto in force, refuses |
| Tier3.RealignTurns | body/lib/tier3_controller.py:519-537 | a re-aiming tick turns in place towards the lookahead |
| Tier3.BoundedMotion | body/lib/tier3_controller.py:270-560 | at every tick of every run: in-place turns, re-aiming and motion stay within the rotation, re-aim and deadline budgets |
| Tier3.TerminalAbsorbs | body/lib/tier3_controller.py:759-771 | a terminal block absorbs: at most terminal_zero_ticks zero commands, then silence, always the same reason |
| PathGoals.PathDrivesFresh | body/lib/tier3_controller.py:296-345 | over runs of ticks, refreshes and new goals a path goal drives only within stale_factor times its time to live of the path's last arrival; past that only the final turn moves |
| PathGoals.TurnsWithinBudget | body/lib/tier3_controller.py:222-560 | for every goal, gates and streamed paths included, an in-place turn comes within the rotation timeout of the last start, new route, translation or rest |
| PathGoals.BlockStands | body/lib/tier3_controller.py:759-771 | refreshes do not end a terminal block: until a new route or goal every tick reports it, with zeros first and then in silence |
| PathGoals.BlockEndsByRoute | body/lib/tier3_controller.py:222-245 | a terminal block that is gone was ended by a new route or a new goal |
| Tier3.CommandEnvelope | body/lib/tier3_controller.py:259-573 | whatever the inputs no command leaves the speed and turn limits or drives backwards |
| PathFollow.ResampleOk | body/lib/path_follow.py:81-89 | samples start and end where asked and never go back |
| PathFollow.ResampleStep | body/lib/path_follow.py:81-89 | consecutive samples are at most one step apart |
| PathFollow.ResampleEven | body/lib/path_follow.py:81-89 | samples are evenly spaced, and the fewest at most one step apart |
| PathFollow.FirstBlocked | body/lib/path_follow.py:107-118 | the first lethal sample on the raster, and how many samples are on it |
| PathFollow.SpoilsBetween | body/lib/path_follow.py:139-145 | an obstruction that spoils a sample spoils every one up to it, so the scan may jump |
| PathFollow.ClearAfter | body/lib/path_follow.py:133-145 | the inner scan finds a clear stretch or the obstruction that spoils it |
| PathFollow.RejoinIndex | body/lib/path_follow.py:121-148 | the jumping scan answers as the plain one: the least sample with clear_m of clear path after it |
| LdPacket.TableIsBitwise | body/lib/ldrobot_ldpacket.py:15-274 | all 256 table entries are eight bitwise steps of the generator 0x4D |
| LdPacket.Crc8Ld | body/lib/ldrobot_ldpacket.py:277-281 | the table-driven loop computes the bitwise MSB-first CRC |
| LdPacket.CrcSeesChange | body/lib/ldrobot_ldpacket.py:277-281 | changing any one byte changes the CRC |
| LdPacket.ParseLdPacket | body/lib/ldrobot_ldpacket.py:294-319 | the parser accepts exactly the valid frames and reads their fields |
| LdPacket.CorruptionRejected | body/lib/ldrobot_ldpacket.py:294-319 | changing any single byte of a valid frame makes the parser reject it |
| LdPacket.FrameRoundTrip | body/lib/ldrobot_ldpacket.py:294-319 | a frame decodes to the packet it was encoded from |
| LdStream.LdPacketDecoder.Feed | body/lib/ldrobot_ldpacket.py:346-365 | the index loop returns the stream's packets and keeps its rest |
| LdStream.ChunkingIndependent | body/lib/ldrobot_ldpacket.py:338-365 | however a stream is cut into chunks, the packets and the waiting bytes are those of one call |
| LdStream.RestIsSuffix | body/lib/ldrobot_ldpacket.py:364 | fewer than 47 bytes wait, and they are the end of what came in |
| LdStream.StartsAreFrames | body/lib/ldrobot_ldpacket.py:349-363 | every decoded packet is a valid frame of the stream, in order |
| LdStream.StartsApart | body/lib/ldrobot_ldpacket.py:349-363 | decoded frames never overlap |
| LdStream.NoFrameMissed | body/lib/ldrobot_ldpacket.py:349-363 | every valid frame of the stream was decoded or starts inside one that was |
| LdStream.StreamRoundTrip | body/lib/ldrobot_ldpacket.py:338-365 | a stream of encoded packets behind headerless noise, cut anyhow, yields exactly the packets |
| LidarClock.LidarClock.Unwrap | body/lidar_driver.py:168-191 | device time advances by the unwrapped delta or a new epoch starts, as specified |
| LidarClock.LidarClock.Push | body/lidar_driver.py:192-197 | the monotonic deque's front is the least offset of the epoch inside the window |
| LidarClock.LidarClock.Stamp | body/lidar_driver.py:168-200 | the stamp is device time plus that minimum less the latency, never later than arrival less latency, and None exactly when stalled |
| LidarClock.LidarClock.Reset | body/lidar_driver.py:162-166 | a reset starts a new epoch and keeps the wrap |
| LidarTime.StampsNeverFall | body/lidar_driver.py:168-200 | within an epoch and with arrivals in order, no later stamp is earlier |
| LidarTime.DeviceTimeIsTrue | body/lidar_driver.py:170-191 | read often enough, the unwrapped time is the true elapsed time, even when a 16-bit counter is found out on the way |
| LidarTime.JumpStartsAnew | body/lidar_driver.py:168-191 | a jump of the counter, and nothing else, starts an epoch in which the clock is as a new one |
| LidarTime.StalledIsRepeats | body/lidar_driver.py:174-199 | the stall count is the number of packets since the counter last moved |
| LidarTime.StampError | body/lidar_driver.py:133-141 | a stamp is off by exactly the shortest delay in the window less the configured latency |
| Quadrature.QuadraturePort.OnEdge | body/lib/motor_gpio.py:196-211 | a callback moves one line and adds the table's tick |
| Quadrature.QuadraturePort.Drain | body/lib/motor_gpio.py:213-217 | a drain hands out the pending delta and leaves none |
| Quadrature.TableIsGray | body/lib/motor_gpio.py:12-29 | the table is the Gray cycle 00, 01, 11, 10 and nothing else |
| Quadrature.ReportIsGrayStep | body/lib/motor_gpio.py:196-211 | no callback sees both lines change; its tick is the Gray step |
| Quadrature.PhaseConserved | body/lib/motor_gpio.py:196-217 | for all callbacks and drains, drained plus pending is the Gray phase change modulo four |
| Quadrature.DrainsDoNotCount | body/lib/motor_gpio.py:213-217 | where the drains fall never changes what is counted |
| Quadrature.WalkCounted | body/lib/motor_gpio.py:167-217 | a port that hears every edge of a walk counts exactly the shaft's displacement |
| Quadrature.LossesCostWholeCycles | body/lib/motor_gpio.py:167-177 | with edges lost or repeated the count is off by whole cycles once the lines agree again |
| Quadrature.RetraceNegates | body/lib/motor_gpio.py:196-217 | retracing any run of edges takes its whole count back |
| DepthDenoise.Search | body/lib/depth_denoise.py:74-89 | one stack search finds all that is joined to its root and nothing seen before |
| DepthDenoise.Components | body/lib/depth_denoise.py:63-90 | the lists are disjoint, each a whole class of joined cells, and together all indices |
| DepthDenoise.SameListIffJoined | body/lib/depth_denoise.py:63-90 | two cells share a list if and only if a chain of 8-neighbours within the input joins them |
| DepthDenoise.Spread | body/lib/depth_denoise.py:81-88 | the double loop marks and pushes exactly the unseen 8-neighbours |
| DepthEvidence.StreaksAreTrailing | body/lib/depth_memory.py:188-217 | the stored streaks are the runs the cell's history ends in |
| DepthEvidence.RememberedIff | body/lib/depth_memory.py:163-217 | a cell is remembered if and only if confirm_frames consecutive frames hit it since it was last dropped and no clear_frames consecutive floor frames came after them |
| DepthEvidence.ForgettingNeedsFloor | body/lib/depth_memory.py:201-215 | a frame that forgets a cell completes a run of clear_frames floor frames; silence never forgets |
| DepthEvidence.AgeFromLastConfirming | body/lib/depth_memory.py:188-199 | age counts from the last confirming frame, not from the last hit |
| DepthMemory.DepthObstacleMemory.Integrate | body/lib/depth_memory.py:163-217 | the two loops apply the frame's signal to every cell, known or not |
| DepthMemory.FrameSays | body/lib/depth_memory.py:182-206 | a frame hits a cell with min_pts obstacle points, clears it with floor_min_pts floor points and no obstacle, and else is silent |
| DepthMemory.DepthObstacleMemory.Expire | body/lib/depth_memory.py:219-238 | only old, far or underfoot cells go, and beyond those only the stalest, of equally stale ones the first inserted, down to max_cells; the others keep their order |
| DepthMemory.DepthObstacleMemory.Update | body/lib/depth_memory.py:141-161 | a frame is integrated exactly when new, fresh, posed and slow, one without a time aged from zero and dated now; at most max_cells remain after an enabled update |
| DepthMemory.DepthObstacleMemory.Reset | body/lib/depth_memory.py:123-126 | a reset drops every cell |
| DepthMemory.MemoryIsHistory | body/lib/depth_memory.py:111-238 | at any time the dictionary holds exactly the cells their histories say are remembered |

## Left out

- Downsampling.DownsampleClearIff: stops at steps of three, the default; beyond it only the default footprint is settled.
- LocalPlanner.PlanLocal: its start anchor and the follower's lookahead, trimming and path cost are not covered by a clearance claim.
- Tier3.BoundedMotion: covers point goals without an inspector gate holding, one goal at a time; `PathGoals` has the rotation budget and the staleness bound over runs of every kind of goal, but not the re-aim budget.
- DepthMemory.DepthObstacleMemory.Integrate: the cells a frame adds enter the dictionary in any order, as the source takes them from a set.
- Floating-point and float32 rounding, infinities and NaN: proved over the reals. The checks for finite values in `WheelPI.step`, `_valid_path_msg` and the command parsers are inputs or absent.
- Trigonometry, frame transforms, projection onto a path and odometry integration: bearings, distances, poses and path lengths are inputs.
- In `Tier3Controller.step`: the plan, the swept and depth vetoes, path hysteresis and endpoint latching are inputs; telemetry and report fields are dropped.
- EStopProtocol.EdgeNeedsRearm: a restart of the motor controller, whose latch starts clear until a status arrives, is not a step.
- TieGate.GatedPromiseExact: for a gate that lets straight ways through (ratio at least one, slack not negative), heuristic weights within one and starts within a million cells, the offset that marks a detour.
- JSON parsing, Zenoh sessions, publishing, GPIO, PWM, serial and process supervision.
- The audio id map is the queue lookup it caches; player processes are steps that succeed or fail.
- Depth unprojection, the floor band and the obstacle mask: per-cell point counts and the frame key are inputs; a depth message whose time stamp is null, which raises, is not modelled. `find_blobs`, `gate_blobs`, `stamp_blocked` and `plan_cells` are not modelled.
- `SweepAssembler`, `OdomRing`, `ImuYawCorrector`, `EStopMonitor`, SLAM, vision, desktop UI and launchers.
