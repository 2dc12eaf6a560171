# Verified model of PatriotsRTES

PatriotsRTES is a real-time simulation: attacker missiles fly towards a goal, defender
missiles are launched to meet them, and every missile is a task. This project models the
parts of it on which everything else rests and proves what they guarantee, for every
interleaving of the tasks.

| files | what they model |
|---|---|
| `EnvSemaphores`, `EnvLock`, `EnvLockTheorems`, `EnvSections` | the lock around the environment: the scans over the per-class counters as loops over arrays, and `access_env` / `release_env` as a transition system over any number of threads and classes; and any statements that threads run under it |
| `IndexQueue`, `QueueProtocol`, `QueueRefinement`, `QueueTheorems`, `QueueService` | the queue of missile indices: the intrusive lists in `next[]` as a class over an array, its producers, readers, writers and releasers as a transition system over the lists, and the same clients on `next[]` and the three indices, proved to refine it |
| `Missiles`, `EnvGrid`, `EnvEvents` | the shared memory: the grid, the score and the missile records as a value, and the functions of `gestor.c` that update them in place as methods of a class over arrays, proved to have exactly the effect given on the value and to perform the events of the simulation |
| `World`, `WorldScore`, `WorldAccess`, `WorldCollision`, `WorldLayout`, `WorldAgreement`, `WorldTracking`, `WorldStart`, `WorldLegend` | the running simulation: all interleavings of launch, move, update, search and clear |
| `Composition` | the simulation together with its two index queues |
| `RealAlgebra`, `Interception` | the bisection for the column in which a defender meets its target, over exact reals |
| `Options`, `Counting` | optional results; counting threads and adding semaphore values |

Sizes (number of classes, indices, threads, window, wall, goal, radius) are parameters; the
program's own values are `Missiles.DEFAULT`. `Sound` asks of them only what the proofs use:
a wall of at least 2 (with 1, `XWIN - x < WALL_THICKNESS` gives no right wall), a radius of
at least 1, at least one missile.

The three layers stack. One event of `World` is one section between `access_env` and
`release_env`: `SectionsAreAtomic` proves that threads which run any statements on shared data
under the lock, in any interleaving, compute what whole sections compute one after the other.
A statement outside of the sections must commute with the one that is running:
`MoveCommutesWithUpdate` proves it of moves, and searches are treated below.
A launch in `World` takes an index whose record is free; `Composition` runs the simulation
with the lists of the two queues, in which nobody looks at the record, and proves that the
launchers never meet a used one. A queue operation is one step there; `QueueRefinement` has
its statements, on `next[]`.

Where the source and its own text disagree, the model follows the source:

* `EPSILON` is described as a precision, but `1 / TRAJECTORY_PRECISION` is an integer
  division and gives 0: the bisection stops on an exact hit or after 100 rounds.
* The scan in `access_env` is described as looking for tasks of lower priority; it looks at
  the classes numbered 0 to the caller's own, which are the higher ones and its own.
* `request_atk_launch` is described as blocking; it never waits for anything but the mutex.

Hypotheses that the program does not establish are stated where they are used: spawn columns
inside the window (`World.Enabled`), no first update on a wall or goal cell
(`WorldLayout.SpawnsHarmless`), no first update on another missile's cell
(`WorldAgreement.SpawnsFree`), and no search that the screen misleads
(`WorldTracking.ScreensSound`). The last three are exactly what is needed: `LayoutIntactIff`,
`AgreementIff` and `CacheIff` prove that a run keeps the layout, keeps the agreement in all
its states, or keeps the target cache right in all its states, if and only if its hypothesis
holds. The program meets none of them always, and each has a run: `LayoutCanBreak`, for every
first move of an attacker drawn on a wall column; `AgreementCanBreak`; and `CacheCanBreak`, in
which every position is one that `move_missile` computes with speeds, angle and periods of the
program, and the screen is red only at the attacker and in the program's own legend. For the
layout only the columns drawn for attackers need a hypothesis: `ComputedStartsHarmless` proves
that the columns computed for defenders are clear if their scans found the target. Time is no
part of the model, so these runs may delay a task; in `AgreementCanBreak` the first attacker's
task does not run for the half second that the launcher waits.

A search does not hold the mutex of the defenders' queue, so defenders may be cleared while it
scans, and missiles move. It is one event at its end: `InterruptedSearch` proves, for every run
of such events between its tests, that what the search finds is what World's search event finds
after the run over some of the red pixels, and the set of red pixels is arbitrary.

## Model

| member | source | states |
|---|---|---|
| `EnvSemaphores.PrioSems.LowerOrEqualBlocked` | src/gestor.c:336-340 | the or-loop is true exactly when some class numbered 0..prio has a blocked thread |
| `EnvSemaphores.PrioSems.WakeNext` | src/gestor.c:366-378 | the wake-up loop posts exactly one semaphore, that of the first blocked class counting up from the releasing one and round from the last class to class 0, the releasing class last; it posts none only when no class is blocked |
| `EnvSemaphores.SelectIsFirst` | src/gestor.c:366-378 | the class that the lock's scan selects is that one, and the other way round |
| `EnvSemaphores.SelectsUnique` | src/gestor.c:368-378 | that class is unique |
| `EnvLock.CheckDecides` | src/gestor.c:333-342 | a thread at the test finds count 0 exactly when no thread has the right to enter, and then no class is blocked |
| `EnvLock.WakeFindsWaiter` | src/gestor.c:373-377 | a class that the wake-up scan sees blocked has a thread at its semaphore |
| `EnvLock.StepInv` | src/gestor.c:329-383 | every statement of every thread keeps the lock's invariant (one token, one right to enter, exact counters) |
| `EnvLockTheorems.LockSafety` | src/gestor.c:329-383 | in every reachable state at most one thread is inside, count is the number of admitted threads and at most 1, mutex + token holders + semaphores is 1, blk counts the blocked threads of each class, a posted semaphore has a waiter |
| `EnvLockTheorems.FreeMeansNobodyBlocked` | src/gestor.c:337-342 | with the mutex free and count 0, no class is blocked |
| `EnvLockTheorems.ScanNeverDecidesAlone` | src/gestor.c:342 | the test is decided by count alone in every reachable state |
| `EnvLockTheorems.TokenSectionStable` | src/gestor.c:333-351 | while a thread holds the mutex no step of another thread changes the counters, the semaphores or that thread |
| `EnvLockTheorems.NoDeadlock` | src/gestor.c:329-383 | in every reachable state with a thread under way, some thread under way can take its next step |
| `EnvLockTheorems.NoBarging` | src/gestor.c:342-348 | while a class waits, every thread that reaches the test is parked |
| `EnvLockTheorems.ReleaseAdvances` | src/gestor.c:369-382 | a release passes the right to a class strictly nearer, in scan order, to every waiting class, or to that class itself |
| `EnvLockTheorems.BypassMeasure` | src/gestor.c:369-382 | releases that do not grant a waiting class are fewer than the scan distance from the owning class to it |
| `EnvLockTheorems.BoundedBypass` | src/gestor.c:359-383 | from any reachable state in which a class has a blocked thread, ENV_PRIOS releases cannot pass without granting that class |
| `EnvLockTheorems.UncontendedEntry` | src/gestor.c:329-351 | with the mutex free and nobody counted, the steps of an idle thread take it inside |
| `EnvLockTheorems.ContendedEntryBlocks` | src/gestor.c:342-346 | with the mutex free and somebody counted, the steps of an idle thread block it in its class and give the mutex back |
| `EnvLockTheorems.LeavingReachesWake` | src/gestor.c:359-366 | with the mutex free, the steps of a thread inside take it to the wake-up scan with nobody counted |
| `EnvLockTheorems.BatonArrives` | src/gestor.c:366-382 | a release takes any blocked thread of the first blocked class after the releasing one inside by its own steps |
| `EnvLockTheorems.ReleaseFrees` | src/gestor.c:379-382 | a release with no class blocked frees the mutex and changes nothing else |
| `EnvSections.SectionsAreAtomic` | src/gestor.c:329-383 | in every reachable state of threads that run any statements under the lock, the shared data is what the completed sections, each run as a whole, make of the initial data, and then what the thread inside has run of its own section |
| `EnvSections.CommutesWithWhole` | src/gestor.c:591-599 | a statement outside that commutes with the statements of the running section may be run before it |
| `IndexQueue.ChainUnique` | src/launchers.c:35 | the array and a start index determine the list |
| `IndexQueue.ChainAcyclic` | src/launchers.c:35 | a chain that ends in NONE visits no index twice |
| `IndexQueue.AppendRefines` | src/launchers.c:200-209 | both branches of update_queue_head append to the pending list and leave the free list alone |
| `IndexQueue.LinksDetermineLists` | src/launchers.c:30-39 | next[] and the three indices stand for one free list and one pending list |
| `IndexQueue.SpliceThenTake` | src/launchers.c:316-317 | splicing an index into next[] and requesting one gives that index back, changes no link but its own, and leaves both lists as they were |
| `IndexQueue.FirstInFirstOut` | src/launchers.c:196-210 | two indices appended to the pending list are popped in that order |
| `IndexQueue.Gestor.constructor` | src/launchers.c:79-97 | all indices are free, in order |
| `IndexQueue.Gestor.UpdateQueueHead` | src/launchers.c:196-210 | the index becomes the last pending one; the free list is unchanged |
| `IndexQueue.Gestor.RequestAtkLaunch` | src/launchers.c:225-236 | accepted exactly when an index is free and a reader is blocked; then the top free index becomes the last pending one |
| `IndexQueue.Gestor.PopFree` | src/launchers.c:263-267 | the top free index is taken and is in neither list |
| `IndexQueue.Gestor.PopHead` | src/launchers.c:295-298 | the oldest pending index is taken and is in neither list |
| `IndexQueue.Gestor.SpliceIndex` | src/launchers.c:311-327 | the index becomes the top free one; the mutex goes to a writer exactly when one is blocked |
| `QueueRefinement.StepRefines` | src/launchers.c:196-327 | every statement of every client on next[], freeIndex, headIndex and tailIndex is its statement on the lists, and the array goes on standing for them |
| `QueueRefinement.StepDoesNotAbortIn` | src/launchers.c:198-313 | no assert fails and no access leaves next[] in a step from such a state |
| `QueueProtocol.StepInv` | src/launchers.c:216-327 | every statement of every client keeps the queue's invariant |
| `QueueTheorems.AssertsHold` | src/launchers.c:198-313 | no assert fails and no access leaves next[] in any interleaving of any number of clients; a client about to pop finds freeIndex or headIndex in range |
| `QueueTheorems.FreeMutexMeansQuiet` | src/launchers.c:255-327 | whenever the mutex is free headIndex is NONE, and a writer is blocked only while freeIndex is NONE |
| `QueueTheorems.IndexPartition` | src/launchers.c:216-365 | in every reachable state both chains through next[] are acyclic and end in NONE, tailIndex is the last pending index while headIndex is not NONE, and the chains and the holders are disjoint and cover all indices: no index is handed out twice |
| `QueueTheorems.LaunchAccounting` | src/launchers.c:216-303 | accepted requests are the delivered indices plus one exactly while headIndex is not NONE |
| `QueueTheorems.NoLostWakeup` | src/launchers.c:239-327 | while a call is under way, or a writer is blocked with an index free, or a reader with a launch pending, some call can go on |
| `QueueService.LaunchAcceptedIff` | src/launchers.c:225-236 | in every reachable state a launch request is accepted exactly when an index is free and a reader is blocked, and otherwise only gives the mutex back |
| `QueueService.AcceptedLaunchArrives` | src/launchers.c:216-303 | an accepted launch reaches a reader: whichever blocked reader goes on ends with the index that freeIndex named |
| `QueueService.FreeIndexGranted` | src/launchers.c:246-272 | a request for an index while one is free gets the index that freeIndex names, without waiting |
| `QueueService.ReleasedIndexArrives` | src/launchers.c:311-327 | with a writer blocked, whichever blocked writer goes on after a release ends with the released index |
| `QueueService.RequestCall` | src/launchers.c:246-272 | request_def_index as a whole call with the mutex free and an index free |
| `QueueService.NextCallBlocks` | src/launchers.c:281-291 | get_next_index as a whole call with the mutex free: it blocks and gives the mutex back |
| `QueueService.ReleaseCall` | src/launchers.c:354-365 | clear_missile as a whole call with the mutex free and no writer blocked: the index used becomes the next one to give out |
| `Missiles.FirstHitUnique` | src/gestor.c:488-501 | the collision scan has one outcome |
| `EnvGrid.Env.InitCells` | src/gestor.c:158-165 | every cell gets the wall, goal or empty contents of its position |
| `EnvGrid.Env.HandleCollisionByCellType` | src/gestor.c:410-431 | a missile cell is emptied and its missile deleted; any other cell is left alone; the type returned is the old one |
| `EnvGrid.Env.HandleCollision` | src/gestor.c:440-466 | as above, with the points of the pair of types |
| `EnvGrid.Env.CollisionAround` | src/gestor.c:478-504 | 0 exactly when every cell of the box is empty or the mover's own, and then nothing changes; otherwise exactly the column-major first other cell is handled |
| `EnvGrid.Env.HandleCollisionsAroundMissile` | src/gestor.c:513-532 | outside the window a collision without effect; inside, the scan of the clamped box |
| `EnvGrid.Env.UpdateMissilePosition` | src/gestor.c:561-575 | the old cell is emptied, the box scanned, and the new cell set only without a collision |
| `EnvGrid.Env.UpdateMissileEnv` | src/gestor.c:591-599 | the same, and nothing for a deleted missile |
| `EnvGrid.Env.IsAlreadyTracked` | src/launchers.c:601-617 | true exactly for a non-negative target that is the index of a defender record |
| `EnvGrid.Env.SearchScreenForTarget` | src/gestor.c:671-696 | assigns the target to the row-major first candidate, in its cell and in the attacker record the cell names, or changes nothing |
| `EnvGrid.Env.ScanEnvForTargetPos` | src/gestor.c:613-639 | returns the column-major first cell with the target, or (NONE, NONE) if there is none |
| `EnvGrid.Env.ClearMissile` | src/launchers.c:360-361 | returns the index the record had and empties the record |
| `EnvEvents.UpdateMissile` | src/launchers.c:410 | in a reachable world update_missile_env on the arrays can always happen, leaves the memory that World gives for its event, and returns whether the movement loop ends |
| `EnvEvents.SearchTarget` | src/launchers.c:919 | the search on the arrays is a search event of World with the same memory afterwards |
| `EnvEvents.ClearRecord` | src/launchers.c:358-363 | the same for clear_missile, and the index it splices back is the record's own |
| `EnvEvents.LaunchAttacker` | src/launchers.c:520-531 | the same for the launch of an attacker |
| `EnvEvents.LaunchDefender` | src/launchers.c:894-905 | the same for the launch of a defender |
| `EnvEvents.AimDefender` | src/launchers.c:819-825 | the same for a defender's start position |
| `World.VictimIsLive` | src/gestor.c:410-431 | the missile an update deletes is alive, undeleted, last placed at that cell, and not the mover |
| `World.UpdatedCell` | src/gestor.c:561-604 | the contents of every cell after an update |
| `World.UpdatedRecord` | src/gestor.c:585-604 | an update changes no record except that it deletes its victim |
| `World.StepInv` | src/launchers.c:354-417 | every event keeps the simulation's invariant |
| `WorldScore.NoGhostCells` | src/gestor.c:561-604 | in every run, wherever missiles spawn, a missile cell belongs to a live undeleted missile last placed there, and no missile has two cells |
| `WorldScore.DeletesHitLiveMissiles` | src/launchers.c:571-577 | in every run a delete reaches a missile still in its movement loop, never a recycled record |
| `WorldScore.ScoreConservation` | src/gestor.c:392-466 | in every run attackers launched = attackers alive + both scores + attackers lost, and defenders launched = defenders alive + defender points + defenders lost |
| `WorldScore.ScoreBound` | src/gestor.c:392-403 | the two scores together never exceed the attackers launched, nor the defender score the defenders launched |
| `WorldScore.PointMeaning` | src/gestor.c:448-463 | a defender point exactly when missiles of different types meet, an attacker point exactly when an attacker meets the goal, at most one point an update |
| `WorldScore.PointsUseUpMissiles` | src/gestor.c:448-463 | an attacker point uses up a live undeleted attacker, a defender point a live undeleted attacker and a live undeleted defender |
| `WorldScore.RunExtends` | src/launchers.c:404-416 | an event whose guard holds after a run extends the run |
| `WorldAccess.ScanHasOutcome` | src/gestor.c:488-501 | the scan always has an outcome |
| `WorldAccess.MovementInBounds` | src/launchers.c:404-416 | for arbitrary displacements every grid position a movement loop accesses is in the window, and the update can happen |
| `WorldAccess.UpdateTouchesFewCells` | src/gestor.c:561-575 | an update writes only the old, the hit and the new cell |
| `WorldAccess.UpdateDeletesAtMostOne` | src/gestor.c:410-431 | an update changes at most one record, by deleting it, and only on a collision |
| `WorldAccess.NobodyStuck` | src/launchers.c:397-417 | in every reachable state every missile and the defender launcher can take their next step |
| `WorldCollision.CollidesIffOccupied` | src/gestor.c:478-532 | in every run an update of an undeleted missile in the window collides exactly when some cell within MISSILE_RADIUS is not empty, hits the first such cell by columns and ends the loop; otherwise the missile is placed under its index, type and target |
| `WorldCollision.PlacedMissileAlone` | src/gestor.c:513-532 | a placed missile has no other missile within MISSILE_RADIUS |
| `WorldCollision.DeletedMissileEnds` | src/gestor.c:591-594 | a deleted missile ends its loop and its update changes nothing |
| `WorldCollision.LeavingMissileEnds` | src/gestor.c:517-518 | a missile that leaves the window ends its loop; only its old cell is emptied |
| `WorldCollision.StaticPlaces` | src/gestor.c:62-80 | in every harmless run exactly the cells below the goal line and off the walls are goal cells, and exactly those at the walls are wall cells |
| `WorldCollision.AttackerScoresIff` | src/gestor.c:457-460 | in every harmless run an update adds an attacker point exactly when it is an attacker's and the cell it hits lies below the goal line and off the walls |
| `WorldAccess.MoveCommutesWithUpdate` | src/launchers.c:374-388 | a move and the update of another missile give the same world in either order, even if the update deletes the moving missile |
| `WorldLayout.CleanScanMeansInside` | src/gestor.c:513-532 | a scan without a hit proves that the position keeps its distance from walls and goal |
| `WorldLayout.LayoutIntactIff` | src/gestor.c:62-135 | a run ends with every wall and goal cell as init_env left it exactly when no event of it is the first update of a missile that spawned on such a cell |
| `WorldLayout.MissilesStayInside` | src/gestor.c:513-575 | in such a run every placed missile and every missile cell is inside |
| `WorldLayout.DamageStays` | src/gestor.c:121-135 | a wall or goal cell that was lost is never restored |
| `WorldLayout.LayoutNeverChanges` | src/launchers.c:486-495 | if every drawn and computed column is clear of the walls, no run changes a wall or goal cell |
| `WorldLayout.DefaultSizes` | src/gestor.h:52-58 | inside is 7 <= x <= 634 and 7 <= y <= 380, and the harmless spawn columns are 2..638 |
| `WorldLayout.LayoutCanBreak` | src/gestor.c:565 | for every column that is a wall and every first move of an attacker drawn there, its first update can happen and ends with a damaged wall or goal |
| `WorldStart.ComputedStartsHarmless` | src/launchers.c:795-810 | if attackers are drawn in clear columns and every defender starts in a column computed from two positions its scans found, no run changes a wall or goal cell |
| `WorldStart.ScanReturnsLabel` | src/gestor.c:613-639 | a position that the scan returns is one of those |
| `WorldLayout.AttackerScoresAtTheGoal` | src/gestor.c:457-460 | an attacker scores only within MISSILE_RADIUS rows of the goal |
| `WorldAgreement.AgreementDamageIff` | src/gestor.c:565 | an update leaves some live missile without its cell exactly when it is the first one of a missile whose spawn cell holds a missile |
| `WorldAgreement.AgreementIff` | src/gestor.c:565 | grid and records agree in all states of a run exactly when it has no such update |
| `WorldAgreement.GridAgreement` | src/gestor.c:539-604 | without such updates, in every run a cell holds missile (type, index) exactly when that missile is live, undeleted and last placed there |
| `WorldAgreement.AgreementCanBreak` | src/launchers.c:486-495 | two attackers drawn in one column, the first still on its spawn cell: a run that breaks the agreement |
| `WorldTracking.SearchBreaksCacheIff` | src/gestor.c:683-689 | a search breaks the target cache exactly when the row-major first candidate of the memory and screen before it is no attacker cell |
| `WorldTracking.CacheIff` | src/gestor.c:648-662 | the target cache is right in all states of a run exactly when no search of it meets such a screen |
| `WorldLegend.CacheCanBreak` | src/gestor.c:710-737 | a run with the program's sizes, speeds and periods, in which a defender on its way passes the red legend rectangle and is taken for a target, and the attacker it pursues is reassigned |
| `WorldLegend.PlanFlies` | src/launchers.c:404-416 | missiles that fly by any plan that keeps them inside and apart reach its end, with both on the grid |
| `WorldLegend.StartColumnComputed` | src/launchers.c:685-712 | for the two positions sampled in that run, and a measured speed within 0.2 of the attacker's, tmp_dsa - dsa changes its sign between the start column and the next |
| `WorldLegend.StartColumnReturned` | src/launchers.c:795-810 | for these positions get_start_x_position returns the start column of that run |
| `WorldTracking.TargetCacheAgreement` | src/gestor.c:539-551 | in every run with a sound screen an attacker cell carries its record's target and no other cell has one |
| `WorldTracking.ScanFindsTarget` | src/gestor.c:613-639 | the scan for a defender's target returns (NONE, NONE) exactly when no live placed attacker is assigned to it, and otherwise the position of the column-major first one |
| `WorldTracking.TrackingStable` | src/gestor.c:648-662 | an attacker assigned to a live defender keeps that assignment until one of the two is cleared |
| `WorldTracking.SearchStartsTracking` | src/gestor.c:679-691 | a successful search that the screen does not mislead tracks a live untracked attacker and changes no other record or cell |
| `WorldTracking.SearchMustFind` | src/gestor.c:648-696 | if a search finds nothing, or finds a later pixel, the target of a red attacker cell is the index of some defender record |
| `WorldTracking.SearchFindsUntracked` | src/gestor.c:656-658 | what a search finds is red, has a missile, and no defender record has its target as index |
| `WorldTracking.NobodyOverlooked` | src/gestor.c:671-696 | in every run, when a search finds nothing, every red live attacker has a target under which there is a defender record |
| `WorldTracking.InterruptedSearch` | src/launchers.c:601-617 | whatever launches, starts, moves and clears happen between the tests of a search, what it finds is what the search event finds after them over some of the red pixels |
| `WorldTracking.UnlockedRun` | src/launchers.c:354-365 | such events leave the grid alone, and an index tracked after them was tracked at every point among them |
| `Composition.LaunchesFindFreeRecords` | src/launchers.c:520-531 | while the link below holds, an index that a launcher gets from its queue belongs to a free record, so the launch that World describes can happen |
| `Composition.StepLinked` | src/launchers.c:354-365 | every step keeps: the indices in a queue or in a launcher's hands are distinct and are exactly those whose record is free |
| `Composition.RunLinked` | src/launchers.c:354-365 | that link holds at the end of every run taken under the program's guards alone |
| `Composition.CompositionRefines` | src/launchers.c:536-547 | every run of the simulation with its queues under the program's guards, none of which looks at a record to launch, is a run of World with the same result |
| `Composition.ComposedRunsAreSafe` | src/launchers.c:354-365 | in every such run no launcher is ever given a record in use, an index is unlaunched exactly while its record is free, the scores are bounded by the launches, and no cell outlives its missile |
| `Composition.LaunchServed` | src/launchers.c:536-547 | a launch request, its fetch and its launch give a missile under the top free index, at its spawn position and unassigned, and change no other record |
| `Composition.ReserveServed` | src/launchers.c:246-272 | the defender launcher gets the top free index |
| `Composition.ReleaseRecycles` | src/launchers.c:354-365 | a released index is the next one given out, and its record has neither an index nor a target |
| `Interception.SlowerIsSlow` | src/launchers.c:702 | a target slower than a defender meets, along every line, the condition under which the results below hold |
| `Interception.DifferenceMonotone` | src/launchers.c:700-702 | tmp_dsa - dsa is strictly monotone in x on the searched side, increasing for m < 0 and decreasing otherwise, also past the start line where fabs flips |
| `Interception.GapSign` | src/launchers.c:700-702 | the sign of tmp_dsa - dsa is the sign of the difference of the squares, so the comparisons need no square root |
| `Interception.GapTells` | src/launchers.c:704-707 | the sign of tmp_dsa - dsa tells on which side of the intercept a column lies, for either sign of m and on both sides of the start line |
| `Interception.InterceptUnique` | src/launchers.c:697-702 | there is at most one intercept |
| `Interception.InterceptExists` | src/launchers.c:697-702 | the intercept in closed form, above and below the start line |
| `Interception.InterceptAboveStart` | src/launchers.c:700 | for a target above the start line the intercept is not below it |
| `Interception.InterceptTimes` | src/launchers.c:700-702 | at an intercept the travel times of defender and target are equal |
| `Interception.InterceptMeets` | src/launchers.h:47-49 | the same with the lengths, the start row 378 and the speed 130 written out |
| `Interception.GetExpectedPositionX` | src/launchers.c:685-712 | for every trajectory the result stays between the ends of the initial bracket after 1 to 100 rounds and an early stop is an exact intercept; for a slow target the column after i rounds is within width / 2^i of the intercept clamped to the bracket, and of every column where the sign of tmp_dsa - dsa tells the side; with the program's sizes the result is within 624 / 2^100 of the intercept, or of 8 or 632 if it lies beyond |
| `Interception.ResultIsIntercept` | src/launchers.c:685-712 | with the program's sizes a target that is met between the columns 8 and 632 is met within 0.001 of the result |
| `Interception.ResultIsBetween` | src/launchers.c:704-707 | a change of the sign of tmp_dsa - dsa between two columns puts the result between them, whether or not there is an exact intercept |
| `Interception.LineThroughBoth` | src/launchers.c:638-662 | the computed line runs through both sampled positions |
| `Interception.GetStartXPosition` | src/launchers.c:795-810 | the bisection applied to the measured line, for every measured speed; a target last seen inside gives a spawn cell that is no wall or goal, for all sizes with clear bracket limits |
| `Interception.ComputedClear` | src/launchers.c:691-692 | a column between the ends of the bracket of two positions inside is a clear spawn cell |
| `Interception.DefaultLimitsClear` | src/launchers.h:47-49 | the program's own sizes are such sizes |

## Left out

- The statements of a section: EnvSections is for any statements. That the C functions between access_env and release_env are made of such statements, and that launch, start and clear events commute with the sections of other tasks, is not mechanised; it is for moves and, in place of commuting, for searches. A queue operation in Composition is one step, without such a theorem.
- Drawing, keyboard and display code: input and output only. The screen is a parameter of the search, the set of pixels of the attacker colour.
- The ptask, timer and barrier headers: declarations only.
- Periods, deadlines, sleeping and the sampling loop of collect_positions: driven by real time. The two sampled positions and the speed are parameters.
- move_missile's trigonometry and the random numbers: displacements and columns are arbitrary.
- Floating point: the bisection is over exact reals, and its lengths are compared by their squares. InterceptExists takes the square root of 1 + m*m as a parameter, because exact reals in Dafny have no square root function.
- Interception.GetExpectedPositionX: the distance bound is for brackets whose ends are in order. A target in column 7 that comes from the right, or beyond column 632 that comes from the left, gives an inverted bracket, for which only the ends bound the result.
- Shutdown: a task that leaves its loop because of `end` frees its index while its cell remains, so the simulation's events stop when `end` is set.
- task_missile_movement as a loop of one task: it is the cycle of Move and Update events in World, because other tasks run between its statements.
- Which of several threads blocked in one class is woken: left to the operating system's semaphores, so the bypass bound is per class.
- Two attackers assigned to one live defender: possible, because a record keeps its target after its defender is gone; nothing is claimed against it.
- private_sem_t.count and missile_t.mutex: initialised and never used.
