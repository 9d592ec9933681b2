# Verification of the tsunami simulation service

This project models the parts of the service where being right is not obvious from one
function: the travel-time solver, the ownership protocol of compute jobs, the workspace
lock, the shallow-water stepper with its checkpoints, the step markers of the pipeline,
the date search of the web form, and the generator of parity cases. Each component is
one module, in a file of its name.

- `IndexedHeap`, `Ocean`, `Wavefront`, `ArrivalTheory`, `Propagation`, `Padding`,
  `Epicenter`, `Seeding`, `SampledSlowness`, `SegmentCost`, `TravelTimes`,
  `StencilTable`: the travel-time solver.
  `Wavefront` gives the queue's steps as functions with their invariant, `Propagation`
  is the loop over arrays proved against them, and `ArrivalTheory` says what the settled
  order means. A settled cell blocks longer segments, so the times are not shortest
  paths in a fixed graph: they lie between the cheapest walk over all 120 directions and
  the cheapest walk by single cells, and the set of reached nodes is an exact flood
  fill. `SegmentCost` says what a segment costs by the slowness it crosses. `Epicenter`
  and `Seeding` place the source and start the wave, and `TravelTimes` puts all of it
  together over the concrete stencil, which `StencilTable` proves meets what the
  theorems ask.
- `JobRows`, `JobProtocol`: every SQL statement is written with the three-valued
  conditions of `Sql` and proved by what it does to the columns. The protocol
  interleaves claims, writes, operator retries, redelivery and reconciliation passes
  whose snapshot and update are separate steps. The queue is an environment whose
  attempt counter never goes back.
- `OutputExpiry`: files go before the stamp, a pass may die after any step, and passes
  may overlap.
- `AttemptShares`, `Workspaces`: the two-share claim with cancellation anywhere, the
  upload on a thread of its own that outlives a native cancellation, then many attempts
  and removers over lock files as inodes.
- `ShallowWater`, `ShallowLaws`, `Conservation`, `TsunamiRun`, `TsunamiResume`: the
  kernels over arrays in any parallel order, the laws they obey, discrete volume, whole
  runs over swapped buffers, and crashes.
- `Calendars`, `EventDate`, `EventForm`: the Gregorian calendar of section 21.4.1 of
  ECMA-262, the search for the month, and the form's text.
- `Pairwise`: exhaustive and greedy pairwise cases.
- `PipelineResume`, `PipelineDamage`: runs that skip marked steps, from an empty
  workspace, and from whatever a killed removal left of one.
- `Wrappers`, `Arithmetic`, `Collections`, `Sql`: what the others share.

Where code and comments disagree, the model follows the code:

- The date search is described as finding the latest month that has the day. For a run
  created in the years 0 to 99 it returns the time of creation instead, because Date.UTC
  moves those years to the twentieth century (`EventDate.LatestExactlyWhen`).
- The form promises to send back the stored day and time. Outside the years 0 to 9999
  the text has no room for minutes (`EventForm.FormSendsItsTimeExactlyWhen`).
- Pairwise cases are promised for any lists. They raise when a list is empty while two
  others are not, and are empty when fewer than two lists have values (`Pairwise.Cover`).
- Removing a workspace is described as safe because the lock is taken before the unlink.
  A claimant between its open and its flock still locks the old inode
  (`Workspaces.UnlinkIsSafeIffCalm`).
- A marker is trusted as long as the outputs exist. That is right exactly for disks
  whose marked steps have all their outputs (`PipelineDamage.SafeIffTrusted`). A removal
  killed between outputs and markers leaves another kind, which a retry then resumes.
- `run_simulation_task` says the claim stays held while `complete_job` reads the
  workspace. A native cancellation ends that wait while the upload's thread reads on,
  and the lock is given up under it (`AttemptShares.CoveredIffGentle`,
  `Workspaces.OverlapIsReachable`).
- `locate_source` is said to return a grid node. On the north or east edge of an even
  number of pixels it returns row -1 or one column too many (`Epicenter.LocateSource`).

## Model

| member | source | states |
|---|---|---|
| IndexedHeap.SiftUp | packages/tsdhn-ttt/tsdhn_ttt/solver.py:154-168 | restores the heap order when only the path above one slot may be wrong, keeping `heap` and `pos` inverse and the queued nodes the same |
| IndexedHeap.SiftDown | packages/tsdhn-ttt/tsdhn_ttt/solver.py:171-193 | restores the heap order when only the slot's children may be wrong, with the same frame |
| IndexedHeap.RootIsLeast | packages/tsdhn-ttt/tsdhn_ttt/solver.py:149-151 | in an ordered heap the root is the lexicographic minimum of (time, sequence number) over all queued nodes |
| IndexedHeap.DecreaseNeedsOnlySiftUp | packages/tsdhn-ttt/tsdhn_ttt/solver.py:281-285 | lowering a queued node's time while raising its sequence number breaks the order only above it |
| IndexedHeap.AppendNeedsOnlySiftUp | packages/tsdhn-ttt/tsdhn_ttt/solver.py:230-234 | a node appended after the last slot breaks the order only above it |
| Ocean.Sea.PatchInside | packages/tsdhn-ttt/tsdhn_ttt/solver.py:249-250 | every cell of a water node's 256-cell patch lies inside the padded arrays |
| Ocean.Sea.CostIsNonNegative | packages/tsdhn-ttt/tsdhn_ttt/solver.py:269-273 | with negative slowness and non-negative lengths, no segment arrives before it leaves |
| Wavefront.SettleKeeps | packages/tsdhn-ttt/tsdhn_ttt/solver.py:236-246 | settling the first queued node keeps the whole propagation invariant: tables shaped, ranks distinct, every queued time earned by a seed or a clear segment, every earlier offer met, times in order |
| Wavefront.EnqueueKeeps | packages/tsdhn-ttt/tsdhn_ttt/solver.py:274-285 | queueing or improving a node with an earned time keeps that invariant, done offers included |
| Wavefront.RelaxKeeps | packages/tsdhn-ttt/tsdhn_ttt/solver.py:257-285 | trying direction k of the node just settled extends the invariant from k to k + 1 offers |
| Wavefront.RelaxByCases | packages/tsdhn-ttt/tsdhn_ttt/solver.py:257-285 | the loop body's tests (settled, blocked, unreached, improved) decide exactly the specified relaxation |
| Wavefront.OfferTarget | packages/tsdhn-ttt/tsdhn_ttt/solver.py:258-260 | a clear direction leads to a node that is not settled: skipping on a key above the unreached mark loses no offer |
| Wavefront.SeedKeeps | packages/tsdhn-ttt/tsdhn_ttt/solver.py:228-234 | queueing distinct water seeds one by one establishes the invariant |
| Wavefront.OrderFits | packages/tsdhn-ttt/tsdhn_ttt/solver.py:235-246 | no node is settled twice, so the loop settles at most as many nodes as there are cells and ends |
| ArrivalTheory.EmptyQueueIsSolved | packages/tsdhn-ttt/tsdhn_ttt/solver.py:236-286 | an empty queue leaves the arrival equations solved: each time is a seed's or a clear segment's, and bounds every offer made |
| ArrivalTheory.FloodFill | packages/tsdhn-ttt/tsdhn_ttt/solver.py:257-286 | a node ends with a time exactly when it is water joined to a seed by an 8-connected chain of water cells |
| ArrivalTheory.SegmentFollowsWater | packages/tsdhn-ttt/tsdhn_ttt/_stencil.py:264-268 | the blocking cells of a clear direction contain an 8-connected water path to its neighbour |
| ArrivalTheory.UnreachedCount | packages/tsdhn-ttt/tsdhn_ttt/solver.py:486-513 | `water - settled` counts exactly the water nodes outside the seeds' components |
| ArrivalTheory.TimeIsAWalk | packages/tsdhn-ttt/tsdhn_ttt/solver.py:269-285 | every settled time is the time of an actual walk from a seed over segments that avoid land, priced at the original slowness; so it is at least the cheapest |
| ArrivalTheory.UnitWalksBoundTimes | packages/tsdhn-ttt/tsdhn_ttt/solver.py:257-285 | every 8-neighbour water walk from a seed takes at least the settled time of its end |
| ArrivalTheory.WalksBoundTimes | packages/tsdhn-ttt/tsdhn_ttt/solver.py:257-285 | more generally, every walk of segments that no earlier settled node obstructs takes at least the settled time |
| Propagation.Wave.constructor | packages/tsdhn-ttt/tsdhn_ttt/solver.py:219-227 | an empty queue over the caller's tables |
| Propagation.Wave.Push | packages/tsdhn-ttt/tsdhn_ttt/solver.py:230-234 | pushing a node is the specified enqueue, at the next sequence number |
| Propagation.Wave.Lower | packages/tsdhn-ttt/tsdhn_ttt/solver.py:281-285 | decrease-key is the specified enqueue, by sift-up alone |
| Propagation.Wave.Pop | packages/tsdhn-ttt/tsdhn_ttt/solver.py:237-245 | pops the lexicographic minimum and settles it |
| Propagation.Wave.CellState | packages/tsdhn-ttt/tsdhn_ttt/solver.py:249-254 | a slowness cell reads as open exactly while it is water that is not settled, since settled cells hold non-negative hours |
| Propagation.Wave.ReadPatch | packages/tsdhn-ttt/tsdhn_ttt/solver.py:248-254 | the patch tables record which cells are unsettled water and their original slowness |
| Propagation.Wave.SegmentOpen | packages/tsdhn-ttt/tsdhn_ttt/solver.py:261-268 | decides whether all blocking cells are unsettled water; with no closed cell in the patch the skipped test would have passed |
| Propagation.Wave.MeanSlowness | packages/tsdhn-ttt/tsdhn_ttt/solver.py:269-271 | sums the direction's weights over the original slowness |
| Propagation.Wave.SegmentArrival | packages/tsdhn-ttt/tsdhn_ttt/solver.py:261-273 | the arrival is the start's time plus the segment's cost at the original slowness |
| Propagation.Wave.Take | packages/tsdhn-ttt/tsdhn_ttt/solver.py:274-285 | queues an unreached node, improves a queued one, and otherwise does nothing |
| Propagation.Wave.SettleNext | packages/tsdhn-ttt/tsdhn_ttt/solver.py:236-285 | one turn of the loop settles one more node and keeps the heap, the invariant and the written hours |
| Propagation.QueueSeeds | packages/tsdhn-ttt/tsdhn_ttt/solver.py:228-234 | all seeds queued in turn, each at its own time |
| Propagation.Propagate | packages/tsdhn-ttt/tsdhn_ttt/solver.py:196-286 | for distinct water seeds the loop ends with the arrival equations solved, (time, sequence) strictly increasing over the settled order, and exactly the settled cells overwritten with their hours |
| Padding.PaddedSeaIsValid | packages/tsdhn-ttt/tsdhn_ttt/solver.py:91-100 | a grid padded by 13 land cells on each side meets what the propagation needs |
| Padding.CellLiesAtItsStep | packages/tsdhn-ttt/tsdhn_ttt/solver.py:136-137 | a patch cell is the node as many columns east and rows north as its step says |
| Padding.InnerOf | packages/tsdhn-ttt/tsdhn_ttt/solver.py:91-97 | a water cell's slowness times the speed at its own depth in its own row is -1; land and missing data have none |
| TravelTimes.Chart.WatersAreCharted | packages/tsdhn-ttt/tsdhn_ttt/solver.py:91-100 | every node of the solver's sea lies in its place with the slowness of its own depth, and all padding is land |
| Seeding.SeedAroundEpicenter | packages/tsdhn-ttt/tsdhn_ttt/solver.py:357-400 | the seeds are exactly the water nodes within four rows in latitude, as far in longitude by the cosine of the epicenter, within four cells of great-circle distance and in sight, each once; with all water between two slownesses each starts between its metres at the one and at the other |
| Seeding.Window.WindowIsNear | packages/tsdhn-ttt/tsdhn_ttt/solver.py:367-377 | the scanned columns and rows are exactly those whose distance from the epicenter is within the reach, edges of the grid included |
| Seeding.Segment.MeanIsBetween | packages/tsdhn-ttt/tsdhn_ttt/solver.py:403-442 | the mean lies between the least and the greatest slowness of the sea |
| Seeding.SeedsTakeTheirMetres | packages/tsdhn-ttt/tsdhn_ttt/solver.py:379-397 | each seed takes its great-circle metres at a slowness of the sea; over a uniform sea exactly at that |
| SampledSlowness.SamplesRunStraight | packages/tsdhn-ttt/tsdhn_ttt/solver.py:415-418 | the samples run from the epicenter to the node, equally far apart |
| SampledSlowness.SamplesAreTwoACell | packages/tsdhn-ttt/tsdhn_ttt/solver.py:415-415 | there are the fewest samples that make two for each cell of the way, and at least two steps |
| SampledSlowness.SampleIsInItsCell | packages/tsdhn-ttt/tsdhn_ttt/solver.py:419-424 | a sample is tested for land in a cell whose middle is at most half a cell away |
| SampledSlowness.NodeReadsItself | packages/tsdhn-ttt/tsdhn_ttt/solver.py:425-439 | at a node the interpolation reads the node's own slowness |
| SampledSlowness.LinearIsRead | packages/tsdhn-ttt/tsdhn_ttt/solver.py:425-439 | between nodes it is exact where slowness is linear in column and row |
| SampledSlowness.EndsCountHalf | packages/tsdhn-ttt/tsdhn_ttt/solver.py:440-442 | in the mean an end sample counts half of an inner one, which counts one step in all of them |
| SampledSlowness.LinearMean | packages/tsdhn-ttt/tsdhn_ttt/solver.py:403-442 | over a slowness linear in column and row the mean along a segment on the grid is that of its two ends |
| Seeding.Window.SourceStartsIffNear | packages/tsdhn-ttt/tsdhn_ttt/solver.py:386-394 | the node an epicenter rounds to is in sight of it whenever it is water, so it is a seed exactly when it is within the reach and four cells |
| TravelTimes.CellHoursMean | packages/tsdhn-ttt/tsdhn_ttt/solver.py:504-506 | a final cell yields scaled hours exactly for settled nodes and NaN for land and unreached water |
| TravelTimes.HoursMean | packages/tsdhn-ttt/tsdhn_ttt/solver.py:504-506 | so the hours read back are, node by node, the settled times and NaN exactly off the seeds' water |
| TravelTimes.Chart.HoursAreOfAWalk | packages/tsdhn-ttt/tsdhn_ttt/solver.py:465-513 | every hour returned is the metres of a walk over water from a seed at a slowness between the least and the greatest of the chart, in scaled seconds after that seed |
| TravelTimes.CountWater | packages/tsdhn-ttt/tsdhn_ttt/solver.py:486-487 | counts the water cells of the key table |
| TravelTimes.OneSeedHours | packages/tsdhn-ttt/tsdhn_ttt/solver.py:344-354 | a wave started at the nearest node has no delay there, and the nodes with hours are exactly those an 8-connected chain of water cells joins to it |
| TravelTimes.Chart.SourceIsSeeded | packages/tsdhn-ttt/tsdhn_ttt/solver.py:357-400 | an accepted source is among the default seeds exactly when it is near enough by the seeder's own measure |
| TravelTimes.Spread | packages/tsdhn-ttt/tsdhn_ttt/solver.py:484-513 | from the seeds, every grid node has its settled hours or NaN, and `unreached` is exactly the water no chain of water cells joins to a seed |
| TravelTimes.Solve | packages/tsdhn-ttt/tsdhn_ttt/solver.py:465-513 | refuses an epicenter for exactly one of three stated reasons; otherwise answers over the sea the chart's depths give, from the chosen seeder's seeds: from the nearest node the source has hour zero and the nodes with hours are those water joins to it, and the default start reaches the source whenever it is near enough |
| TravelTimes.TimesFrom | packages/tsdhn-ttt/tsdhn_ttt/solver.py:516-548 | the same over the solver's own stencil table, with grids that span 360 degrees refused |
| Epicenter.WrapLongitude | packages/tsdhn-ttt/tsdhn_ttt/solver.py:445-450 | the result is the input after whole turns, within one turn east of the western edge, as a closed form |
| Epicenter.WrappedIsUnique | packages/tsdhn-ttt/tsdhn_ttt/solver.py:445-450 | no other longitude of that turn does |
| Epicenter.RoundIsNearest | packages/tsdhn-ttt/tsdhn_ttt/solver.py:144-145 | rounding half to even gives a nearest integer |
| Epicenter.Axis.RoundedIsNearest | packages/tsdhn-ttt/tsdhn_ttt/solver.py:140-146 | no grid line, nor any continuation of the grid, is nearer than the one rounded to |
| Epicenter.Axis.RoundedIsALine | packages/tsdhn-ttt/tsdhn_ttt/solver.py:140-146 | a point between the edges rounds to one of the grid's lines exactly unless it is on the far edge of an even number of pixels, which it rounds past |
| Epicenter.Grid.NodesLieOnLines | packages/tsdhn-ttt/tsdhn_ttt/solver.py:73-82 | longitudes and latitudes of nodes, the last taken from the far edge, are the evenly spaced lines |
| Epicenter.LocateSource | packages/tsdhn-ttt/tsdhn_ttt/solver.py:140-146 | on grids registered by nodes or by pixels, an accepted epicenter gets the nearest node in latitude and longitude; row -1 or one column too many comes out exactly on such an edge; it is refused exactly when its latitude, or every turn of its longitude, is outside the grid |
| StencilTable.TableIsValid | packages/tsdhn-ttt/tsdhn_ttt/_stencil.py:5-1637 | the concrete cells, weights and blockers meet every condition the theorems ask of a stencil |
| StencilTable.ChainFor | packages/tsdhn-ttt/tsdhn_ttt/_stencil.py:264-1637 | each of the 120 rows blocks an 8-connected chain of cells to its neighbour |
| StencilTable.WeightsSumToSteps | packages/tsdhn-ttt/tsdhn_ttt/_stencil.py:264-268 | with the node's own weight of 1, each row's weights sum to twice the steps along its major axis |
| StencilTable.WeightsBalance | packages/tsdhn-ttt/tsdhn_ttt/_stencil.py:264-1637 | each of the 120 rows balances about the middle of its segment: over any field linear in columns and rows its weights read what the two ends would |
| SegmentCost.CostIsBetween | packages/tsdhn-ttt/tsdhn_ttt/solver.py:269-273 | a segment takes its half steps, as many as its cells and its start weigh, at a slowness between the extremes of its start and its weighted cells |
| SegmentCost.UniformCost | packages/tsdhn-ttt/tsdhn_ttt/solver.py:269-273 | over water of one slowness, direction k of the table takes two half steps for each step along its major axis, at that slowness |
| SegmentCost.LinearCost | packages/tsdhn-ttt/tsdhn_ttt/solver.py:269-273 | over a slowness linear in columns and rows it takes its steps at the mean of its two ends |
| SegmentCost.UnitCost | packages/tsdhn-ttt/tsdhn_ttt/solver.py:269-273 | to any of the eight cells around, a step takes its length at the mean of the two cells' slowness, whatever they are |
| SegmentCost.CostFollows | packages/tsdhn-ttt/tsdhn_ttt/solver.py:269-273 | changing the slowness of one cell by d changes the cost by minus d times half a step times that cell's weight, the start's own counting as one |
| SegmentCost.SettledTimeIsMetres | packages/tsdhn-ttt/tsdhn_ttt/solver.py:269-285 | every settled time is a seed's plus the metres of a walk over water, at a slowness between the least and the greatest of the sea |
| StencilTable.UnitRow | packages/tsdhn-ttt/tsdhn_ttt/_stencil.py:269-277 | the eight unit directions are blocked by their own cell alone |
| StencilTable.ImageIsMirrored | packages/tsdhn-ttt/tsdhn_ttt/_stencil.py:3-262 | the patch is closed under the eight symmetries of the square |
| JobRows.JobTable.CreateOrGet | packages/api/api/core/repository.py:161-198 | a simulation keeps one row: same input finds it, different input is refused, and nothing else changes |
| JobRows.SubmitTwice | packages/api/api/core/repository.py:161-198 | a repeated request finds the very row the first one made, which keeps its input, and the same simulation with another input is refused |
| JobRows.JobTable.MarkStarted | packages/api/api/core/repository.py:443-503 | won exactly on a row not completed that nobody, an older attempt, or this attempt unfailed owns; then only status, details, owner, error and the two times change, the first start time kept |
| JobRows.JobTable.RecordProgress | packages/api/api/core/repository.py:506-560 | lands exactly for the owning attempt on an unfinished row, and keeps every progress column the report leaves out |
| JobRows.JobTable.RecordFailure | packages/api/api/core/repository.py:563-611 | for the owner of an unfinished row a final failure sets status, error and finish time, and a retried one only the details; otherwise nothing changes |
| JobRows.JobTable.CompleteJob | packages/api/api/core/repository.py:670-708 | lands exactly for the owning attempt on an unfinished row, with the manifest and no error |
| JobRows.JobTable.ReconcileRow | packages/api/api/core/repository.py:325-371 | fails a row exactly when it is unfinished, its queue row gave up before the cutoff, and no newer attempt owns it; the owner becomes the later of the two attempts |
| JobRows.JobTable.ReconcileTerminalJobs | packages/api/api/core/repository.py:349-371 | over the rows in any order fails exactly those, leaves the others, and returns the ids it failed |
| JobRows.JobTable.MarkOutputsExpired | packages/api/api/core/repository.py:287-310 | stamps and empties the manifest of a completed, unstamped row, once, and no other column |
| JobRows.PassConverges | packages/api/api/core/repository.py:349-371 | a pass alone leaves no unfinished row under a queue row that gave up before the cutoff, and touches nothing else |
| JobRows.SecondPassIsIdle | packages/api/api/core/repository.py:349-371 | a second pass changes nothing |
| JobProtocol.HistoryIsSound | packages/api/api/core/repository.py:332-346 | in every reachable state rows are coherent (finished iff `finished_at`, error iff failed, outputs only when completed and unexpired), `owner_attempt` is at most the queue's attempt, and no simulation has two rows |
| JobProtocol.RunOnlyMovesOn | packages/api/api/core/repository.py:480-503 | over any stretch of any run `owner_attempt` never decreases and `completed` is never left |
| JobProtocol.FailedIsLeftByANewerClaim | packages/api/api/core/repository.py:457-471 | `failed` is left only by a claim strictly newer than the row's owner |
| JobProtocol.SupersededWritesNothing | packages/api/api/core/repository.py:480-611 | once a newer attempt owned a row or it was completed, no claim or write by an older attempt changes anything, however much later it comes |
| JobProtocol.NewerOwnerIsSpared | packages/api/api/core/repository.py:328-346 | a pass that read the queue at an older attempt than one that has owned the row since changes nothing, whenever it comes to its update |
| JobProtocol.LiveAttemptLands | packages/api/api/core/repository.py:328-346 | while no newer attempt is leased and no pass read the queue giving up on it, nothing but its own outcome ends an attempt's ownership, so its completion lands |
| JobProtocol.StampedAttemptsAreRefused | packages/api/api/core/repository.py:457-471 | once a pass failed a row, every claim or write by an attempt not newer than the stamped one changes nothing, ever after |
| JobProtocol.RetryReclaims | packages/api/api/core/repository.py:459-470 | an operator retry's next attempt can always reclaim a failed row |
| JobProtocol.ReachablePassConverges | packages/api/api/core/repository.py:344-346 | in every reachable state a pass settles every row whose queue row gave up before the cutoff |
| JobProtocol.Perform | packages/api/api/core/repository.py:161-708 | every statement of the table, submission included, does to the rows what the state machine's event does, a pass working from the queue row it read |
| OutputExpiry.ListDue | packages/api/api/core/repository.py:268-284 | the oldest due jobs in finishing order, no more than the limit, and all of them when fewer |
| OutputExpiry.ExpireListed | packages/api/api/core/tasks.py:499-504 | deletes files before stamping each job: with two steps of life for each listed job it stamps them all, and with less one job for every two steps; wherever it dies, no stamped row has files |
| OutputExpiry.ExpireOldOutputs | packages/api/api/core/tasks.py:487-506 | from any state with no orphans a pass cut off after any step leaves none and counts exactly the rows it stamped; it ends, with all due rows stamped, exactly when it lives for two steps a due row |
| OutputExpiry.RepeatIsIdle | packages/api/api/core/tasks.py:487-506 | with nothing due, a repeat changes no row and no file |
| OutputExpiry.FilesAreNeverOrphaned | packages/api/api/core/tasks.py:487-506 | under any overlap of passes a stamped row has no files and a completed row with files is still listed by a later pass |
| AttemptShares.WorkspaceClaim.Release | packages/api/api/core/tasks.py:151-159 | each release gives back one share; the last one, and only it, hands out the descriptor to close |
| AttemptShares.ReleaseTwice | packages/api/api/core/tasks.py:200-202 | of two releases of a fresh claim the second closes, and a third would close nothing |
| AttemptShares.LifeIsAccounted | packages/api/api/core/tasks.py:139-222 | in every interleaving the shares held equal what coroutine, kernel and drain still owe, and given-back plus held is two once the claim was handed over |
| AttemptShares.UsedOnlyWhileHeld | packages/api/api/core/tasks.py:318-372 | while the kernel runs the lock is held, in every life; while the upload thread reads too, in every life with no native cancellation inside the upload; the descriptor is closed at most once |
| AttemptShares.CoveredIffGentle | packages/api/api/core/repository.py:661-668 | a step keeps every later use of the workspace under the lock, whatever gently follows, exactly when it is not a cancellation while the upload thread reads |
| AttemptShares.UploadOutlivesItsLock | packages/api/api/core/repository.py:661-668 | a life from the first step in which such a cancellation leaves the upload reading with the lock given up |
| AttemptShares.QuietIsSettled | packages/api/api/core/tasks.py:192-222 | an attempt with nothing left to do has closed its descriptor exactly once and given back exactly two shares if it had the claim, unless the drain itself was cancelled, and then it never closes |
| AttemptShares.LivesAreShort | packages/api/api/core/tasks.py:192-222 | every life ends, within twenty-two steps |
| Workspaces.OneKernelRuns | packages/api/api/core/tasks.py:166-189 | if no unlink falls between an open and its flock, at most one kernel runs in a workspace, and no remover is removing it then |
| Workspaces.OneAttemptIsActive | packages/api/api/core/tasks.py:166-189 | if no cancellation falls inside an upload either, at most one attempt's kernel or upload is active |
| Workspaces.StepIsSafeIffPatient | packages/api/api/core/tasks.py:348-369 | any other step keeps the workspace to one attempt, whatever patiently follows, exactly when it is not such a cancellation |
| Workspaces.OverlapIsReachable | packages/api/api/core/tasks.py:348-369 | a run from an untouched workspace in which a replacement runs its kernel while a cancelled upload still reads |
| Workspaces.StepStaysLinked | packages/api/api/core/tasks.py:225-254 | under that hypothesis every open or held file is the one the lock path leads to |
| Workspaces.UnlinkRaceAdmitsTwo | packages/api/api/core/tasks.py:174-185 | after an unlink that does fall there, two processes enter the workspace |
| Workspaces.RaceIsReachable | packages/api/api/core/tasks.py:174-254 | a run from an untouched workspace that gets there |
| Workspaces.UnlinkIsSafeIffCalm | packages/api/api/core/tasks.py:225-254 | an unlink keeps the workspace exclusive, whatever follows, exactly when nobody is between open and flock |
| ShallowWater.Mass | packages/tsdhn/tsdhn/tsunami.py:123-147 | every cell equals its closed form over the grids before the call, whatever the order of the rows; row and column 0 keep their values |
| ShallowWater.Bout | packages/tsdhn/tsdhn/tsunami.py:150-194 | every cell equals its closed form, whatever the order within each pass; a shared corner is the row pass's and all other cells keep their values |
| ShallowWater.RadiationLaw | packages/tsdhn/tsdhn/tsunami.py:168-193 | a radiated height obeys the long-wave law, height squared times g h equals discharge squared, and is not positive where water flows from the edge into the basin |
| ShallowWater.Momentum | packages/tsdhn/tsdhn/tsunami.py:197-228 | every face of both grids equals its closed form whatever the order; the faces no loop covers keep their values |
| ShallowLaws.FaceAlongI | packages/tsdhn/tsdhn/tsunami.py:211-218 | between two wet cells along i, water at rest never flows towards the higher side and flows once the slope drives the flush threshold; a level surface changes nothing beyond the flush |
| ShallowLaws.FaceAlongJ | packages/tsdhn/tsdhn/tsunami.py:220-228 | the same along j |
| ShallowLaws.MomentumFallsAlongI | packages/tsdhn/tsdhn/tsunami.py:211-218 | along a line of wet cells what the step takes from the momenta, each over its own factor, adds up to the difference of the end elevations, up to the flush |
| ShallowLaws.MomentumFallsAlongJ | packages/tsdhn/tsdhn/tsunami.py:220-228 | the same along j |
| ShallowLaws.WetCellFalls | packages/tsdhn/tsdhn/tsunami.py:133-147 | a wet cell falls by its factor times what leaves through its four faces, up to the flush |
| ShallowLaws.RowEdgeRadiates | packages/tsdhn/tsdhn/tsunami.py:177-193 | at the edges i = 1 and i = ia - 1 the squared elevation times g h is the squared discharge, from the mean momentum along the edge and the one through its inner face, and stands low where that flows into the basin |
| ShallowLaws.ColumnEdgeRadiates | packages/tsdhn/tsdhn/tsunami.py:160-176 | the same at the edges j = 1 and j = ja - 1, the corner the passes share excepted |
| Conservation.DryFaces | packages/tsdhn/tsdhn/tsunami.py:211-228 | no momentum on any face of a dry cell |
| Conservation.CellBalances | packages/tsdhn/tsdhn/tsunami.py:133-147 | each interior cell's weighted height changes by its flux differences and what it flushes, on land as on water |
| Conservation.TotalBalances | packages/tsdhn/tsdhn/tsunami.py:133-147 | over the grid the inner fluxes cancel |
| Conservation.MassKeepsVolume | packages/tsdhn/tsdhn/tsunami.py:133-147 | continuity changes the volume of the wet interior by exactly what it flushes |
| Conservation.VolumeIsConserved | packages/tsdhn/tsdhn/tsunami.py:133-147 | that is at most the flush threshold times the sum of 1 / rx over the wet interior |
| TsunamiRun.MomentumIsWalled | packages/tsdhn/tsdhn/tsunami.py:211-228 | the kernel closes every dry face and leaves the outer faces of the buffer it writes |
| TsunamiRun.RunIsWalled | packages/tsdhn/tsdhn/tsunami.py:375-392 | at every step of every run both momentum buffers have still outer faces and the live one no flow at land |
| TsunamiRun.RunConservesVolume | packages/tsdhn/tsdhn/tsunami.py:375-392 | so every continuity step of every run conserves volume up to the flush |
| TsunamiRun.RunObeysLaws | packages/tsdhn/tsdhn/tsunami.py:375-392 | every step of every run: inner cells fall by their outflow, open edges radiate the momentum before the step, the new momentum is driven by the slope of the new surface, none crosses land, and the old levels are kept in the other buffers |
| TsunamiRun.RunStartsStill | packages/tsdhn/tsdhn/tsunami.py:358-371 | a run starts from the deformed surface with no momentum, no maximum and no row |
| TsunamiRun.GaugeRows | packages/tsdhn/tsdhn/tsunami.py:384-386 | there is one gauge row for each multiple of KD below the step, in order: row r says r minutes and, gauge by gauge, the height of its cell after step 20 r + 1 |
| TsunamiRun.FullRunHasItsRows | packages/tsdhn/tsdhn/tsunami.py:375-386 | a full run has 1681 rows |
| TsunamiRun.MaximumOfSamples | packages/tsdhn/tsdhn/tsunami.py:384-387 | in every cell the maximum grid is the maximum of zero and the sampled surfaces |
| TsunamiResume.Tsunami.constructor | packages/tsdhn/tsdhn/tsunami.py:351-373 | buffers holding the given levels |
| TsunamiResume.Tsunami.TakeSample | packages/tsdhn/tsdhn/tsunami.py:385-387 | exactly at the sampled steps appends a row with 3 seconds a step in minutes and each gauge's own cell of the new surface, and raises the maximum |
| TsunamiResume.Tsunami.Advance | packages/tsdhn/tsdhn/tsunami.py:375-392 | one step over the swapped arrays is the specified step, whatever the parallel orders |
| TsunamiResume.Turn | packages/tsdhn/tsdhn/tsunami.py:375-397 | one turn of the loop moves one entry along the uninterrupted run and writes a checkpoint exactly at multiples of 2000 |
| TsunamiResume.TakeSteps | packages/tsdhn/tsdhn/tsunami.py:375-397 | the loop from any step follows the uninterrupted run to its end |
| TsunamiResume.RunTsunami | packages/tsdhn/tsdhn/tsunami.py:336-401 | from any faithful checkpoint, or none, an attempt leaves exactly the uninterrupted run's gauge rows and maximum grid, and no checkpoint |
| TsunamiResume.EventKeepsSound | packages/tsdhn/tsdhn/tsunami.py:254-286 | every disk state between two actions keeps an accepted checkpoint equal to the uninterrupted levels at its step |
| TsunamiResume.OutputsAreNeverPartial | packages/tsdhn/tsdhn/tsunami.py:399-401 | at every crash point any output present is the uninterrupted run's |
| TsunamiResume.ForeignCheckpointIsHarmless | packages/tsdhn/tsdhn/tsunami.py:303-335 | a checkpoint of another version, of other shapes or of a step outside the run is never resumed from, whatever it holds |
| TsunamiResume.OwnCheckpointIsResumed | packages/tsdhn/tsdhn/tsunami.py:303-335 | one the job wrote itself is picked up at its step with its levels |
| TsunamiResume.ResumeEqualsUninterrupted | packages/tsdhn/tsdhn/tsunami.py:348-401 | after any schedule of crashes and lost checkpoints, running again to the end leaves what one uninterrupted run leaves |
| TsunamiResume.CrashLosesLittle | packages/tsdhn/tsdhn/tsunami.py:394-397 | unless its checkpoint was spoiled since it was last read or written, and so in every history without spoiling, a crash costs at most 2000 steps |
| Calendars.YearOf | apps/web/src/lib/schema/earthquake.ts:111-114 | the year of a day is the one whose days include it |
| Calendars.MonthsAbut | apps/web/src/lib/schema/earthquake.ts:111-114 | each month starts where the one before ends, leap years included |
| Calendars.GregorianIsValid | apps/web/src/lib/schema/earthquake.ts:110-110 | Gregorian months have 28 to 31 days, abut, cover every day, and of two neighbours one has 31 |
| Calendars.DaysOnRecord | apps/web/src/lib/schema/earthquake.ts:110-114 | 1 January 1970 is day 0 and 29 February 2000 day 11016; 1900 and 2100 have no such day |
| Calendars.MonthsOnRecord | apps/web/src/lib/schema/earthquake.ts:110-114 | the lengths of the twelve months of any year |
| Calendars.FourCenturies | apps/web/src/lib/schema/earthquake.ts:110-114 | 400 years have 146097 days |
| EventDate.EventTime | apps/web/src/lib/schema/earthquake.ts:103-118 | the loop returns the first candidate month's instant on the stored day and not in the future; an implausible input or a day that is not a whole number yields the time of creation |
| EventDate.FoundWithinThreeMonths | apps/web/src/lib/schema/earthquake.ts:110-117 | the search succeeds within three months, so its final fallback is unreachable |
| EventDate.LatestExactlyWhen | apps/web/src/lib/schema/earthquake.ts:87-118 | the result is the greatest whole minute up to creation with that UTC day, hour and minute, if and only if the year of creation is not one of 0 to 99, which Date.UTC reads as 1900 to 1999, or creation itself is such a minute |
| EventDate.YearFiftyIsMissed | apps/web/src/lib/schema/earthquake.ts:110-117 | created on 2 January of the year 50, the day before is not found |
| EventDate.InstantOnRecord | apps/web/src/lib/schema/earthquake.ts:110-114 | 951831900000 milliseconds after 1970 began it was 13:45 on 29 February 2000, both ways |
| EventForm.TextReadsBack | apps/web/src/lib/schema/earthquake.ts:61-65 | the sixteen characters of the form read back to the same date and time; a signed six-digit year loses the minutes |
| EventForm.TextOnRecord | apps/web/src/lib/schema/earthquake.ts:61-65 | 2024-01-03T14:05 is the text of five past two in the afternoon of 3 January 2024, and reads as it |
| EventForm.PlausibleExactlyWhen | apps/web/src/lib/schema/earthquake.ts:103-109 | what passes the guard is every day from 1 to 31 with every time from 0000 to 2359, and nothing else |
| EventForm.FormSendsItsTimeExactlyWhen | apps/web/src/lib/schema/earthquake.ts:61-74 | a form sends back the day and time it was made from exactly when its year has four digits or it is on the hour |
| EventForm.YearTenThousandLosesMinutes | apps/web/src/lib/schema/earthquake.ts:61-65 | half past midnight on 1 January of the year 10000 is sent without its minutes |
| EventForm.RepeatSendsTheSame | apps/web/src/lib/schema/earthquake.ts:61-118 | repeating a stored event, its day written in any way that reads as a whole number, sends back that day in two digits and the very time exactly when the found year has four digits or it is on the hour, or, for creation in the years 0 to 99, when creation is at them; for creation in the years 100 to 9999 always |
| Pairwise.ExhaustiveIsListed | packages/tsdhn-parity/tsdhn_parity/cases.py:15-21 | the exhaustive cases are exactly the listed combinations |
| Pairwise.ExhaustiveIsInOrder | packages/tsdhn-parity/tsdhn_parity/cases.py:15-21 | in the order of their first parts, each followed by the last values in turn |
| Pairwise.BestValue | packages/tsdhn-parity/tsdhn_parity/cases.py:80-93 | the first candidate that completes the most uncovered pairs; an empty list is an error |
| Pairwise.CandidateCountsItsGrowth | packages/tsdhn-parity/tsdhn_parity/cases.py:80-93 | what a candidate counts for is the number of uncovered pairs its choice adds to those chosen so far |
| Pairwise.CompleteChoiceHasItsPairs | packages/tsdhn-parity/tsdhn_parity/cases.py:48-97 | the pairs of a choice for every parameter are those of its case |
| Pairwise.GreedyCombination | packages/tsdhn-parity/tsdhn_parity/cases.py:63-77 | a listed case holding the seed pair, each open parameter set in order to its first best value; it fails exactly when an open parameter has no values |
| Pairwise.Cover | packages/tsdhn-parity/tsdhn_parity/cases.py:30-37 | whichever uncovered pair seeds each case, the loop ends with any two values of two parameters together in some case, all cases listed and no more of them than pairs; it fails exactly when one list is empty while two others are not |
| Pairwise.EmptyThirdIsUnfillable | packages/tsdhn-parity/tsdhn_parity/cases.py:30-77 | two lists of one value and a third with none fail, though there is a pair to cover |
| Pairwise.Cases | packages/tsdhn-parity/tsdhn_parity/cases.py:24-39 | the same for any number of parameters, fewer than two giving the exhaustive cases |
| PipelineResume.FreshKeepsEarlier | packages/tsdhn/tsdhn/engine.py:121-140 | later steps leave the outputs of earlier ones as they are |
| PipelineResume.MarkersCoverAPrefix | packages/tsdhn/tsdhn/utils/processing.py:20-36 | at every point of every history of runs and crashes the markers cover a prefix of the steps whose files are a fresh run's, and no marked step is running |
| PipelineResume.SkippedIsFresh | packages/tsdhn/tsdhn/engine.py:125-134 | a skipped step's outputs are a fresh run's |
| PipelineResume.ResumedRunEndsAsFresh | packages/tsdhn/tsdhn/engine.py:121-140 | after any history a resumed run finishes exactly when a fresh run does, with a fresh run's files |
| PipelineResume.ProcessStep | packages/tsdhn/tsdhn/utils/processing.py:32-36 | a step that returns and leaves all its outputs is marked; a failure means a fresh run fails too |
| PipelineResume.Run | packages/tsdhn/tsdhn/engine.py:121-140 | the loop succeeds exactly when a fresh run would, leaving its files and all markers |
| PipelineDamage.SafeIffTrusted | packages/tsdhn/tsdhn/utils/processing.py:20-36 | over any found disk with its inputs intact, no history of runs and crashes goes past a step whose outputs are not a fresh run's, if and only if every marked step has all its outputs as a fresh run leaves them |
| PipelineDamage.FinishesFreshIffTrusted | packages/tsdhn/tsdhn/utils/processing.py:20-36 | from such a disk every run that finishes leaves a fresh run's files; with runners that never raise, only from such a disk |
| PipelineDamage.RaisingHides | packages/tsdhn/tsdhn/utils/processing.py:20-36 | a two-step pipeline and a disk whose bad marker no finished run shows, because the second runner raises on what the first left |
| PipelineDamage.RemovalIsSafeIffTidy | packages/api/api/core/tasks.py:225-254 | a removal killed half-way leaves a disk that may be resumed exactly when it took the marker of every step it took an output of |

## Left out

- Rounding of float32 and float64, Numba and threads as machine detail: arithmetic is over reals, so equality of times and the order of float sums are exact, and savez round trips are identities.
- Trigonometry and gravity (`_gravity`, `_great_circle_degrees`, the cosine in the seeder's reach, the length tables, `_prelim`): their results are parameters with the signs the code needs; the square root is a function positive on positive numbers.
- Times at or above the unreached sentinel: the propagation asks for a bound that keeps all arrivals below it.
- The flattened (CSR) rows of weights and blockers: rows are sequences, and a row's blocking cells need not be sorted.
- `TravelTimes.Solve`: does not model `_source_slope`, which only averages the hours around the source, and asks that the epicenter is not on an edge of a pixel-registered grid that it rounds past, where the source fails or reads the row of the other edge.
- Grids with a single row or column.
- `_bout` at an edge cell of depth exactly zero divides by zero: the ring of edge cells has depth other than zero.
- Parallel loops interleave by whole iterations (a row of `_mass` and `_mmnt`, a cell of `_bout`), not within one.
- Reading the input grids, gauge and window files, and logging: `Setup` holds their contents, with gauges inside the grid.
- Message texts, `updated_at`, notifications, `metadata.json` and JSON encoding of job rows: texts are constructors by what they say.
- Several queue rows for one job, malformed queue payloads, the queue's purge and its grants: each job has one queue row.
- The identifier of a new job row is fresh by assumption, and the row and its queue row appear together, as one transaction.
- The uploads of `complete_job` before its guarded update, and uploads that arrive after a row is completed: `OutputExpiry` assumes none does.
- A batch size of zero in `expire_old_outputs`, with which its loop never ends.
- `remove_workspace` when the lock file cannot be opened, and failures to submit work to the executor.
- `Workspaces.OneAttemptIsActive`: holds under two hypotheses, that no unlink falls between anyone's open and flock and that no native cancellation falls inside an upload; `UnlinkIsSafeIffCalm` and `StepIsSafeIffPatient` show each is needed.
- The inside of anyio: a native cancellation is taken to end the coroutine's wait while the worker thread goes on.
- `PipelineResume.ResumedRunEndsAsFresh`: assumes runners are functions of the inputs and earlier outputs, and write only their declared outputs. The wipe before a run that does not resume is one action; killed on the way it is one of the removals of `PipelineDamage`.
- `PipelineDamage.FinishesFreshIffTrusted`: with runners that may raise it goes one way, since `RaisingHides` shows the other way false; `SafeIffTrusted` is exact for them too.
- Hash collisions of step fingerprints, progress messages, and the result files written after the last step.
- JavaScript's limits on instants, `Number()` of strings other than digits, and `isRealDatetime`: instants are unbounded integers and the stored day arrives as a number or NaN.
- `Pairwise.Cases`: returns the value tuples; case identifiers and values Python considers equal across types are not modelled.
- Routes, streaming, web pages, authentication, rendering, settings, comparison tools and deployment: they would add only easy members.
