# TES3MP server core and navmesh scheduler, modelled in Dafny

This project models several parts of the TES3MP (OpenMW multiplayer) code
base and proves properties of them.

**The asynchronous navmesh tile-update scheduler** (`AsyncNavMeshUpdater`).
It is modelled as a sequential state machine with four parts:
- the shared priority queue of jobs and its pending sets (`mJobs`, `mPushed`);
- the per-thread queues;
- the debounce table of last updates;
- the tile-ownership table.

The calling thread and the steady-clock reading are explicit parameters. The
queue's comparator is a parameter that is required to be a total preorder.
The bake step is an abstract outcome: handle expired, baked, failed, or threw
(an exception, which the worker loop catches and only logs).

**Script timers and their controller** (`Timer`, `TimerController`). The wall
clock is a parameter; a controller tick reads it once per timer, as the source
does.

**A script event's callback collection**, which dispatches callbacks in
order until one asks it to stop.

**The server-side actor and player bookkeeping.** This covers:
- the setters that store a value and raise a "changed" flag;
- the change-index lists;
- the update queue guard and the update pass that resets it;
- the handshake counter;
- the walk over the players of the loaded cells;
- the `BaseMgr` changed flag.

**Three packet layouts:** player cell state, actor attack and player attack.
The network bit stream is a sequence of typed tokens. `RW(x, send)` either
appends `x` or reads the next token into `x`. Each layout is proved to round
trip.

Modules and files:

| module | file | models |
|---|---|---|
| `NavJobs` | nav_jobs.dfy | tiles, jobs, Manhattan distance, the sorted job queue, pending sets, total thread jobs |
| `AsyncNavMeshUpdater` | navmesh_updater.dfy | lock table, debounce table, post's loop, class `Updater` |
| `Timers` | timer.dfy | `Timer`, `TimerController` |
| `Events` | event_controller.dfy | `CallbackCollection` |
| `Players` | players.dfy | `Actor` (NetActor and Player) |
| `BaseManagers` | base_mgr.dfy | `BaseMgr` |
| `BitStreams` | bitstream.dfy | tokens, `BitStream`, the base packet header |
| `PlayerCellStatePacket` | player_cell_state.dfy | PacketPlayerCellState |
| `ActorAttackPacket` | actor_attack.dfy | PacketActorAttack |
| `PlayerAttackPacket` | player_attack.dfy | PacketPlayerAttack |
| `Wrappers` | wrappers.dfy | `Option` |

## Model

| member | source | states |
|---|---|---|
| NavJobs.ManhattanDistance | components/detournavigator/asyncnavmeshupdater.cpp:19-22 | the distance is never negative, and it is zero exactly when the two tiles are equal |
| NavJobs.ManhattanSymmetric | components/detournavigator/asyncnavmeshupdater.cpp:19-22 | the distance is symmetric |
| NavJobs.InsertJob | components/detournavigator/asyncnavmeshupdater.cpp:104 | a push adds exactly one copy of the job (multiset) and, under a total preorder, keeps the queue sorted so the head is served first |
| NavJobs.InsertKeepsKeysUnique | components/detournavigator/asyncnavmeshupdater.cpp:87-105 | pushing a job whose (agent, tile) is not queued keeps one job per pair and adds exactly its pair |
| NavJobs.KeySetOfInsert | components/detournavigator/asyncnavmeshupdater.cpp:104 | the pairs queued after a push are the old pairs plus the job's |
| NavJobs.TailKeys | components/detournavigator/asyncnavmeshupdater.cpp:265-266 | popping the head of a queue with one job per pair removes exactly the head's pair |
| NavJobs.AddPending | components/detournavigator/asyncnavmeshupdater.cpp:89 | `mPushed[a].insert(t)` adds exactly (a, t), creates a's entry when missing, and leaves other agents alone |
| NavJobs.RemovePending | components/detournavigator/asyncnavmeshupdater.cpp:271-274 | the erase removes exactly (a, t), erases a when its set becomes empty, and leaves other agents alone |
| NavJobs.NoPairsMeansEmpty | components/detournavigator/asyncnavmeshupdater.cpp:271-274 | since empty agent entries are erased, a pending map with no pairs is the empty map |
| NavJobs.EmptyQueueValid | components/detournavigator/asyncnavmeshupdater.cpp:222 | a queue created empty satisfies the queue invariant |
| NavJobs.PushIfNew | components/detournavigator/asyncnavmeshupdater.cpp:317-322 | the job is queued if and only if its pair was not pending, the pair is pending afterwards, and the queue invariant is kept |
| NavJobs.PopTop | components/detournavigator/asyncnavmeshupdater.cpp:265-274 | taking the top leaves the rest of the queue, removes the top's pair from the pending sets, and keeps the queue invariant |
| NavJobs.TopIsFirst | components/detournavigator/asyncnavmeshupdater.cpp:262-266 | the job getJob takes is served no later than any queued job |
| NavJobs.EmptyJobsNothingPending | components/detournavigator/asyncnavmeshupdater.cpp:118 | a valid queue with no jobs has no pending tiles |
| NavJobs.TotalJobsZero | components/detournavigator/asyncnavmeshupdater.cpp:384-388 | the thread-job total is zero exactly when every thread queue is empty |
| AsyncNavMeshUpdater.TailKeepsBounds | components/detournavigator/asyncnavmeshupdater.cpp:265-266 | popping keeps the retry bound and the "already due" property |
| AsyncNavMeshUpdater.PushKeepsBounds | components/detournavigator/asyncnavmeshupdater.cpp:310-332 | pushing a job within the retry bound (or due) keeps the queue within it |
| AsyncNavMeshUpdater.ClaimTile | components/detournavigator/asyncnavmeshupdater.cpp:339-357 | the first claimer of (agent, tile) becomes its owner; a later claimer gets the recorded owner and nothing changes; no other pair changes |
| AsyncNavMeshUpdater.ReleaseTile | components/detournavigator/asyncnavmeshupdater.cpp:365-379 | unlocking frees (agent, tile), is a no-op when it is not locked, erases an agent left with no tiles, and changes no other pair |
| AsyncNavMeshUpdater.ClaimIsExclusive | components/detournavigator/asyncnavmeshupdater.cpp:341-357 | once one thread has claimed a free tile, a second claimer is handed the first and the table is unchanged |
| AsyncNavMeshUpdater.ClaimThenRelease | components/detournavigator/asyncnavmeshupdater.cpp:334-382 | claiming a free tile and then unlocking it restores the table |
| AsyncNavMeshUpdater.Seeded | components/detournavigator/asyncnavmeshupdater.cpp:100-101 | indexing `mLastUpdates[a][t]` leaves every value readable as before (absent reads as the epoch) and makes each indexed entry present |
| AsyncNavMeshUpdater.SeededStep | components/detournavigator/asyncnavmeshupdater.cpp:101 | indexing one more tile inserts it with its current value or the epoch |
| AsyncNavMeshUpdater.CleanupRow | components/detournavigator/asyncnavmeshupdater.cpp:398-404 | the inner erase loop leaves exactly the entries not older than the interval |
| AsyncNavMeshUpdater.CleanedKeepsExactlyFresh | components/detournavigator/asyncnavmeshupdater.cpp:396-410 | after cleanup an entry is kept if and only if `now - t <= interval`, kept values are unchanged, and no agent is left without entries |
| AsyncNavMeshUpdater.PostTile | components/detournavigator/asyncnavmeshupdater.cpp:89-104 | one changed tile: it becomes pending; a job is queued and the debounce entry indexed (update jobs only) exactly when it was not already pending; the queue invariant and retry bound are kept |
| AsyncNavMeshUpdater.PostTileKeeps | components/detournavigator/asyncnavmeshupdater.cpp:87-106 | one more tile keeps post's loop invariant |
| AsyncNavMeshUpdater.PostTileKeepsPushed | components/detournavigator/asyncnavmeshupdater.cpp:89 | one more tile adds its pair to the pending sets |
| AsyncNavMeshUpdater.PostTileKeepsJobs | components/detournavigator/asyncnavmeshupdater.cpp:89-104 | one more tile adds its job to the queued jobs exactly when it was not pending before post |
| AsyncNavMeshUpdater.PostTileKeepsLastUpdates | components/detournavigator/asyncnavmeshupdater.cpp:100-101 | one more tile indexes its debounce entry exactly when it makes a new update job |
| AsyncNavMeshUpdater.PostTiles | components/detournavigator/asyncnavmeshupdater.cpp:87-106 | post's loop: every changed tile is pending; the new jobs are exactly one per changed tile that was not pending; the debounce table is indexed for the new update jobs |
| AsyncNavMeshUpdater.PostStep | components/detournavigator/asyncnavmeshupdater.cpp:87-105 | how the jobs, indexed tiles and pending pairs of post grow by one tile |
| AsyncNavMeshUpdater.PostedJobFacts | components/detournavigator/asyncnavmeshupdater.cpp:91-102 | each job post creates has try number 0, both Manhattan distances, the tile's change type, and a process time equal to last update plus the interval for update jobs and the epoch otherwise |
| AsyncNavMeshUpdater.Updater.constructor | components/detournavigator/asyncnavmeshupdater.cpp:53-63 | a new scheduler is valid, quiescent and not stopping |
| AsyncNavMeshUpdater.Updater.QuiescentNothingPending | components/detournavigator/asyncnavmeshupdater.cpp:114-121 | when wait's condition holds, no queue has a pending tile |
| AsyncNavMeshUpdater.Updater.Post | components/detournavigator/asyncnavmeshupdater.cpp:76-112 | the player tile is always stored; with no changes nothing else moves; otherwise as PostTiles, and the invariants are kept |
| AsyncNavMeshUpdater.Updater.GetJob | components/detournavigator/asyncnavmeshupdater.cpp:258-277 | a top job that is not yet due leaves everything as it was; otherwise the top is popped and unpended, and the debounce entry is set to now only for update jobs and only when the caller asks for it (the shared queue) |
| AsyncNavMeshUpdater.Updater.LockTile | components/detournavigator/asyncnavmeshupdater.cpp:334-358 | with at most one thread the caller owns every tile and the table is untouched; otherwise as ClaimTile |
| AsyncNavMeshUpdater.Updater.UnlockTile | components/detournavigator/asyncnavmeshupdater.cpp:360-382 | with at most one thread nothing changes; otherwise as ReleaseTile |
| AsyncNavMeshUpdater.Updater.Repost | components/detournavigator/asyncnavmeshupdater.cpp:310-323 | a job is dropped when stopping or when its try number is above 2; otherwise it is pushed back with its try number raised by one, unless it is already pending; the queue stays within the retry bound; the new queue is Reposted of the old |
| AsyncNavMeshUpdater.Updater.PostThreadJob | components/detournavigator/asyncnavmeshupdater.cpp:325-332 | the job goes to the owner's queue (created on first use) unless already pending there |
| AsyncNavMeshUpdater.Updater.AdvanceClock | components/detournavigator/asyncnavmeshupdater.cpp:227 | a later clock reading keeps every thread-queue job due |
| AsyncNavMeshUpdater.Updater.EnsureThreadQueue | components/detournavigator/asyncnavmeshupdater.cpp:222 | the calling thread's queue exists afterwards, created empty when missing |
| AsyncNavMeshUpdater.Updater.GetNextJob | components/detournavigator/asyncnavmeshupdater.cpp:217-256 | returns nothing only when no job is eligible for the thread; a returned job is due, within the retry bound and, with several threads, locked by the caller; GotNextJob ties the new tables to the old: the jobs taken are a prefix of the caller's own queue and then, only once that is empty, a prefix of the shared queue, each popped and unpended; every taken job but the returned one is pending with the thread owning its tile; other threads' queues keep what they had and gain only handed-over jobs; the debounce table changes only by the stamps of shared-queue update jobs; the lock table gains only the caller's claim on the returned job's tile |
| AsyncNavMeshUpdater.GotNextJobAccounts | components/detournavigator/asyncnavmeshupdater.cpp:242-254 | the jobs getNextJob removed from the caller's queue and the shared queue are exactly the returned job and the handed-over ones, so the returned job and every handed one were queued before and none is lost |
| AsyncNavMeshUpdater.Updater.TakeNext | components/detournavigator/asyncnavmeshupdater.cpp:242-254 | one round of getNextJob's loop: the taken job extends the popped prefix, and then either the caller claimed its tile (the lock table as ClaimTile, the hand-offs as before) or the job is handed over and the lock table is unchanged |
| AsyncNavMeshUpdater.Updater.TakeTracked | components/detournavigator/asyncnavmeshupdater.cpp:242-244 | the taken job extends the popped prefix of the own queue, or, when that is empty, of the shared queue together with its debounce stamp; the record of hand-offs is kept |
| AsyncNavMeshUpdater.Updater.ClaimOrHandOver | components/detournavigator/asyncnavmeshupdater.cpp:249-254 | either the caller's claim succeeds (lock table as ClaimTile, queues untouched) or the owner's queue gets the job pending, the caller's queue and the lock table are untouched |
| AsyncNavMeshUpdater.Updater.HandOver | components/detournavigator/asyncnavmeshupdater.cpp:254 | the job becomes pending in its tile owner's queue; the caller's own queue is untouched and the other queues gain only the job |
| AsyncNavMeshUpdater.PoppedStep | components/detournavigator/asyncnavmeshupdater.cpp:265-274 | popping the top once more extends the popped prefix by the next job and erases its pair from the pending set |
| AsyncNavMeshUpdater.HandOffStep | components/detournavigator/asyncnavmeshupdater.cpp:254 | handing a job to its tile's owner makes it pending there, and every other queue keeps what it had and gains only handed jobs |
| AsyncNavMeshUpdater.ReturnedSome | components/detournavigator/asyncnavmeshupdater.cpp:249-252 | when the caller's claim succeeds, the tiles of the jobs handed over before keep their owners, which are other threads |
| AsyncNavMeshUpdater.StampedReads | components/detournavigator/asyncnavmeshupdater.cpp:268-269 | after getJob's stamps for a run of jobs, the debounce entry of a pair reads `now` if some update job of the run has that pair, and its old value otherwise |
| AsyncNavMeshUpdater.Updater.TakeJob | components/detournavigator/asyncnavmeshupdater.cpp:242-244 | the thread's own queue is served first, else the shared queue; the taken job is due and one job leaves the queues |
| AsyncNavMeshUpdater.Updater.CleanupLastUpdates | components/detournavigator/asyncnavmeshupdater.cpp:390-411 | the debounce table becomes exactly Cleaned of the old one |
| AsyncNavMeshUpdater.Updater.RequestStop | components/detournavigator/asyncnavmeshupdater.cpp:65-67 | the stop flag is raised and the invariants hold |
| AsyncNavMeshUpdater.Updater.ProcessStep | components/detournavigator/asyncnavmeshupdater.cpp:137-161 | a stopped worker changes nothing; otherwise the state right after getNextJob is related to the old one by GotNextJob. With no job, only the debounce table moves, and it becomes Cleaned of that state at cleanupLastUpdates' own clock reading, no earlier than getNextJob's (lines 153 and 392). With a job, the thread queues and the debounce table stay as getNextJob left them. A bake that throws leaves the tile locked by the caller and the shared queue as it was; otherwise the tile is unlocked; a processed job is not reposted, a failed one is reposted as Reposted says |
| AsyncNavMeshUpdater.Updater.FinishJob | components/detournavigator/asyncnavmeshupdater.cpp:147-150 | an exception skips both unlock and repost; otherwise the tile is unlocked as ReleaseTile and left unowned; the shared queue moves only for a failed bake, as Reposted |
| AsyncNavMeshUpdater.Reposted | components/detournavigator/asyncnavmeshupdater.cpp:310-323 | a job is dropped when stopping or out of tries; otherwise its pair is pending afterwards and the pending set gains exactly that pair |
| Timers.TickOnlyEnds | apps/openmw-mp/Timer.cpp:64-83 | a tick never restarts a timer or changes its settings, and calls back at most once |
| Timers.TickFiresIffExpired | apps/openmw-mp/Timer.cpp:72-82 | a running, unkilled timer ends on a tick exactly when `now - startTime >= targetMsec`, and calls back exactly when also its callback is valid |
| Timers.IdleTicksCallNothing | apps/openmw-mp/Timer.cpp:66-67 | any run of ticks on an ended or killed timer changes nothing |
| Timers.AtMostOneCallPerStart | apps/openmw-mp/Timer.cpp:72-82 | however many ticks follow, a timer calls back at most once before it is started again, and never when ended or killed |
| Timers.Timer.constructor | apps/openmw-mp/Timer.cpp:49-57 | a new timer is ended, not marked for deletion, and has the given interval |
| Timers.Timer.IsElapsed | apps/openmw-mp/Timer.cpp:24-27 | returns `end` |
| Timers.Timer.Stop | apps/openmw-mp/Timer.cpp:29-32 | sets `end` and nothing else |
| Timers.Timer.Start | apps/openmw-mp/Timer.cpp:34-41 | clears `end` and sets the start time to now |
| Timers.Timer.Restart | apps/openmw-mp/Timer.cpp:43-47 | sets the interval, then starts |
| Timers.Timer.Tick | apps/openmw-mp/Timer.cpp:64-83 | the timer's new state is TickState of the old one |
| Timers.Timer.Kill | apps/openmw-mp/Timer.cpp:85-88 | marks the timer for deletion and nothing else |
| Timers.Unmarked | apps/openmw-mp/Timer.cpp:122-124 | remove_if keeps exactly the unmarked timers and no others |
| Timers.UnmarkedAppend | apps/openmw-mp/Timer.cpp:122-124 | the sweep keeps the relative order of the timers it keeps |
| Timers.UnmarkedDistinct | apps/openmw-mp/Timer.cpp:122-124 | the sweep keeps timers distinct |
| Timers.SweepKeepsDistinct | apps/openmw-mp/Timer.cpp:118-131 | after the sweep, the queued and running timers together still hold each timer once |
| Timers.TimerController.Create | apps/openmw-mp/Timer.cpp:103-107 | a new timer is appended to the queue only and is not in the running list |
| Timers.TimerController.Kill | apps/openmw-mp/Timer.cpp:109-114 | marks the timer and raises the sweep flag |
| Timers.TimerController.Tick | apps/openmw-mp/Timer.cpp:116-140 | the running list becomes the queued timers in creation order followed by the old timers, swept of marked ones if a kill asked for it; the queue is emptied and the flag cleared; every running timer is ticked once, at its own clock reading; a swept timer was marked |
| Timers.TimerController.TickRunning | apps/openmw-mp/Timer.cpp:136-139 | every running timer is ticked exactly once, the k-th at the clock reading `clock(k)` |
| Timers.TimerController.Terminate | apps/openmw-mp/Timer.cpp:142-145 | the running list is emptied |
| Events.Ran | apps/openmw-mp/Script/EventController.hpp:110-126 | the callbacks that run are every callback up to and including the first that requests a stop |
| Events.RunsAllIffNoEarlyStop | apps/openmw-mp/Script/EventController.hpp:108-126 | every callback runs (and stopedAt is the end) exactly when no callback before the last requests a stop |
| Events.StopsAfterFirstRequest | apps/openmw-mp/Script/EventController.hpp:110-126 | the first callback that requests a stop is the last to run |
| Events.CallbackCollection.constructor | apps/openmw-mp/Script/EventController.hpp:166-169 | a new collection is empty and not stopped |
| Events.CallbackCollection.Push | apps/openmw-mp/Script/EventController.hpp:97 | the callback is appended after all earlier ones |
| Events.CallbackCollection.Stop | apps/openmw-mp/Script/EventController.hpp:101 | sets the stop flag |
| Events.CallbackCollection.IsStopped | apps/openmw-mp/Script/EventController.hpp:102 | returns the stop flag |
| Events.CallbackCollection.StoppedAt | apps/openmw-mp/Script/EventController.hpp:103 | returns lastCalled |
| Events.CallbackCollection.Dispatch | apps/openmw-mp/Script/EventController.hpp:105-144 | the callbacks run in order until the first stop request; oldData goes only to those that need it; lastCalled is the first skipped callback or the end; the flag says whether the last one to run requested a stop |
| Events.CallbackCollection.CallWithOld | apps/openmw-mp/Script/EventController.hpp:105-127 | callWOld: as Dispatch, with oldData |
| Events.CallbackCollection.Call | apps/openmw-mp/Script/EventController.hpp:129-144 | call<void>: as Dispatch, without oldData |
| Events.CallbackCollection.CallResult | apps/openmw-mp/Script/EventController.hpp:146-164 | call<R>: as call<void>, returning the result of the last callback that ran, or the default value when none ran |
| Players.Reset | apps/openmw-mp/NetActor.cpp:21-30 | every update flag except momentum is cleared, and momentum is kept as it was |
| Players.AddIndex | apps/openmw-mp/NetActor.cpp:84-85 | the index is recorded once; the list grows only when it was absent and keeps no duplicates |
| Players.AddIndexIdempotent | apps/openmw-mp/Player.cpp:732-733 | recording an index twice is the same as recording it once |
| Players.AddIndexKeepsChangeList | apps/openmw-mp/Player.cpp:759-762 | recording a valid slot and raising the flag keeps a change list well formed |
| Players.Actor.constructor | apps/openmw-mp/NetActor.cpp:16-19 | a NetActor is not a player and is not queued |
| Players.Actor.Player | apps/openmw-mp/Player.cpp:120-144 | a player has its update flags reset, a zero handshake counter, scale 1, no werewolf state, and is not queued |
| Players.Actor.ToPlayer | apps/openmw-mp/NetActor.cpp:138-143 | null exactly for a non-player, the actor itself otherwise |
| Players.Actor.AddToUpdateQueue | apps/openmw-mp/Player.cpp:152-158 | the player is handed to the queue only if it was not already waiting, so at most once between update passes |
| Players.Actor.ResetUpdateFlags | apps/openmw-mp/NetActor.cpp:21-30 | the flags become Reset of the old flags |
| Players.Actor.SetPosition | apps/openmw-mp/NetActor.cpp:37-46 | the position is stored and the rotation kept; the position flag is raised; a player is queued only on the first position change since the reset |
| Players.Actor.SetRotation | apps/openmw-mp/NetActor.cpp:53-61 | rot[0] and rot[2] are stored and rot[1] kept; the position flag is raised; the queue rule as for setPosition |
| Players.Actor.SetMomentum | apps/openmw-mp/NetActor.cpp:63-72 | the momentum is stored; a player is queued only when the momentum flag was not raised |
| Players.Actor.SetDynamic | apps/openmw-mp/NetActor.cpp:79-126 | the slot is written and the others kept; the slot is recorded once; the stats flag is raised; a player is queued only on the first stats change since the reset |
| Players.Actor.SetHealth | apps/openmw-mp/NetActor.cpp:79-90 | slot 0 is written and read back by the getter; magicka and fatigue are kept; the slot is recorded once |
| Players.Actor.SetMagicka | apps/openmw-mp/NetActor.cpp:97-108 | slot 1 is written and read back; health and fatigue are kept; the slot is recorded once |
| Players.Actor.SetFatigue | apps/openmw-mp/NetActor.cpp:115-126 | slot 2 is written and read back; health and magicka are kept; the slot is recorded once |
| Players.Actor.Update | apps/openmw-mp/Player.cpp:160-291 | afterwards the change lists are empty, the mark and spell flags are cleared, the flags are reset, and the player has left the update queue |
| Players.Actor.ClearChangeLists | apps/openmw-mp/Player.cpp:214-242 | each list is cleared when its flag is raised, which empties all three because a list is non-empty only while its flag is raised |
| Players.Actor.SetHandshake | apps/openmw-mp/Player.cpp:303-311 | afterwards isHandshaked holds |
| Players.Actor.IncrementHandshakeAttempts | apps/openmw-mp/Player.cpp:313-316 | the counter goes up by one |
| Players.Actor.GetHandshakeAttempts | apps/openmw-mp/Player.cpp:318-321 | returns the counter |
| Players.Actor.SetAttribute | apps/openmw-mp/Player.cpp:722-736 | ids of 8 or more change nothing; otherwise the base is stored, the modifier is cleared only on request, the id is recorded once and the flag raised |
| Players.Actor.SetSkill | apps/openmw-mp/Player.cpp:748-763 | ids of 27 or more change nothing; otherwise as setAttribute on the skill, and the progress is stored |
| Players.Actor.SetSkillIncrease | apps/openmw-mp/Player.cpp:770-781 | ids of 8 or more change nothing; otherwise the increase is stored, the id recorded once in the attribute list, and the attribute flag raised |
| Players.Actor.SetName | apps/openmw-mp/Player.cpp:422-426 | the name is stored and only the base-info flag is raised; the player is not queued |
| Players.Actor.SetGender | apps/openmw-mp/Player.cpp:593-597 | the gender is stored and the base-info flag raised |
| Players.Actor.SetRace | apps/openmw-mp/Player.cpp:604-610 | the race is stored and the base-info flag raised |
| Players.Actor.SetHead | apps/openmw-mp/Player.cpp:617-621 | the head is stored and the base-info flag raised |
| Players.Actor.SetHair | apps/openmw-mp/Player.cpp:628-632 | the hair is stored and the base-info flag raised |
| Players.Actor.SetBirthsign | apps/openmw-mp/Player.cpp:639-643 | the birthsign is stored and the base-info flag raised |
| Players.Actor.SetResetStats | apps/openmw-mp/Player.cpp:645-649 | the reset-stats state is stored and the base-info flag raised |
| Players.Actor.SetLevel | apps/openmw-mp/Player.cpp:582-586 | the level is stored and the level flag raised |
| Players.Actor.SetLevelProgress | apps/openmw-mp/Player.cpp:686-690 | the level progress is stored and the level flag raised |
| Players.Actor.SetCreatureRefId | apps/openmw-mp/Player.cpp:697-701 | the creature ref id is stored and the shapeshift flag raised |
| Players.Actor.SetCreatureNameDisplayState | apps/openmw-mp/Player.cpp:708-712 | the display state is stored and the shapeshift flag raised |
| Players.Actor.SetWerewolfState | apps/openmw-mp/Player.cpp:867-871 | the werewolf state is stored and the shapeshift flag raised |
| Players.Actor.SetScale | apps/openmw-mp/Player.cpp:878-882 | the scale is stored and the shapeshift flag raised |
| Players.Actor.SetMark | apps/openmw-mp/Player.cpp:884-895 | pos[0..2], rot[0] and rot[2] of the mark are stored, rot[1] is kept, and the mark flag is raised |
| Players.Actor.SetSelectedSpell | apps/openmw-mp/Player.cpp:908-912 | the spell is stored and its flag raised |
| Players.Actor.ForEachLoaded | apps/openmw-mp/Player.cpp:338-359 | the players visited are exactly the distinct, non-null, named players of the loaded cells other than this one, each once |
| BaseManagers.BaseMgr.ForPlayer | apps/openmw-mp/BaseMgr.cpp:9-12 | a player's manager starts unchanged |
| BaseManagers.BaseMgr.ForWorldstate | apps/openmw-mp/BaseMgr.cpp:14-17 | a world-state manager starts unchanged; its player is the header's initial value, which this constructor does not touch |
| BaseManagers.BaseMgr.Update | apps/openmw-mp/BaseMgr.cpp:19-26 | nothing happens unless changed; otherwise the flag is cleared and processUpdate runs exactly once |
| BaseManagers.BaseMgr.SetChanged | apps/openmw-mp/BaseMgr.cpp:28-34 | the flag is raised; an owning player is queued only if it was not already waiting, so repeated calls queue it once |
| BitStreams.ReadAt | components/openmw-mp/Packets/Player/PacketPlayerCellState.cpp:21 | a read gives a token of the target's kind |
| BitStreams.ReadWritten | components/openmw-mp/Packets/Player/PacketPlayerCellState.cpp:21 | a token written at the read position is read back, whatever the target held |
| BitStreams.BitStream.constructor | components/openmw-mp/Packets/BasePacket.cpp:28-31 | the stream attached for reading, abstracted as a token sequence, holds the given tokens from the given position |
| BitStreams.BitStream.Write | components/openmw-mp/Packets/BasePacket.cpp:23-24 | appends one token |
| BitStreams.BitStream.Read | components/openmw-mp/Packets/Player/PacketPlayerCellState.cpp:21 | the stream read behind a receiving RW, abstracted as taking one token: it reads that token as ReadAt says |
| BitStreams.BitStream.RW | components/openmw-mp/Packets/Player/PacketPlayerCellState.cpp:21 | sending appends the value and keeps it; reading fills it from the stream and leaves the tokens alone |
| BitStreams.BitStream.WriteHeader | components/openmw-mp/Packets/BasePacket.cpp:17-26 | sending writes the packet id and the guid; reading writes nothing |
| PlayerCellStatePacket.CellStateTokens | components/openmw-mp/Packets/Player/PacketPlayerCellState.cpp:30-32 | each entry takes three tokens |
| PlayerCellStatePacket.EncodeCellStates | components/openmw-mp/Packets/Player/PacketPlayerCellState.cpp:23-36 | n entries take 3n tokens |
| PlayerCellStatePacket.EncodePrefixStep | components/openmw-mp/Packets/Player/PacketPlayerCellState.cpp:30-32 | writing one entry more appends its type, data and name |
| PlayerCellStatePacket.ReadCellStates | components/openmw-mp/Packets/Player/PacketPlayerCellState.cpp:23-36 | reading count entries gives exactly count entries |
| PlayerCellStatePacket.ReadsOneEncoded | components/openmw-mp/Packets/Player/PacketPlayerCellState.cpp:25-35 | an entry written at a position is read back into a fresh CellState |
| PlayerCellStatePacket.ReadsEncoded | components/openmw-mp/Packets/Player/PacketPlayerCellState.cpp:23-36 | the first n written entries are read back in order, ending right after them |
| PlayerCellStatePacket.EncodingIsEncodedAt | components/openmw-mp/Packets/Player/PacketPlayerCellState.cpp:23-36 | entry k of the written list sits at tokens 3k to 3k+2, whatever surrounds it |
| PlayerCellStatePacket.CountThenEncoded | components/openmw-mp/Packets/Player/PacketPlayerCellState.cpp:21-36 | the count followed by the entries forms a body |
| PlayerCellStatePacket.SendBodyLayout | components/openmw-mp/Packets/Player/PacketPlayerCellState.cpp:16-36 | send writes the size modulo 2^32, then that many entries |
| PlayerCellStatePacket.ReadsBody | components/openmw-mp/Packets/Player/PacketPlayerCellState.cpp:21-36 | a count and that many entries are read back as that count and those entries |
| PlayerCellStatePacket.RoundTrip | components/openmw-mp/Packets/Player/PacketPlayerCellState.cpp:12-37 | reading what send wrote gives the count send wrote and that many entries with the same type, data and name, and stops at the end of the body |
| PlayerCellStatePacket.RoundTripWhole | components/openmw-mp/Packets/Player/PacketPlayerCellState.cpp:12-37 | below 2^32 entries the whole list comes back |
| PlayerCellStatePacket.RWCellState | components/openmw-mp/Packets/Player/PacketPlayerCellState.cpp:30-32 | the three RW calls write or read type, data and name in that order |
| PlayerCellStatePacket.Packet | components/openmw-mp/Packets/Player/PacketPlayerCellState.cpp:12-37 | send sets count to the size and writes the header and the body, changing nothing else; read clears the list and fills it with exactly count entries, as ReadBody |
| ActorAttackPacket.ActorTokens | components/openmw-mp/Packets/Actor/PacketActorAttack.cpp:37-39 | each actor takes three tokens |
| ActorAttackPacket.EncodeActors | components/openmw-mp/Packets/Actor/PacketActorAttack.cpp:30-47 | n actors take 3n tokens |
| ActorAttackPacket.Carried | components/openmw-mp/Packets/Actor/PacketActorAttack.cpp:37-39 | a received actor has the sent refId, refNumIndex and mpNum and default values elsewhere |
| ActorAttackPacket.CarriedAll | components/openmw-mp/Packets/Actor/PacketActorAttack.cpp:37-46 | Carried of each actor, in order |
| ActorAttackPacket.ReadActors | components/openmw-mp/Packets/Actor/PacketActorAttack.cpp:28-47 | reading count actors into the reused variable gives exactly count actors, whose other fields keep the defaults |
| ActorAttackPacket.EncodePrefixStep | components/openmw-mp/Packets/Actor/PacketActorAttack.cpp:37-39 | writing one actor more appends its refId, refNumIndex and mpNum |
| ActorAttackPacket.ReadsOneEncoded | components/openmw-mp/Packets/Actor/PacketActorAttack.cpp:37-39 | an actor written at a position is read into any variable: the three fields from the stream, the rest kept |
| ActorAttackPacket.ReadsEncoded | components/openmw-mp/Packets/Actor/PacketActorAttack.cpp:30-47 | the first n written actors are read back as what they carry, in order |
| ActorAttackPacket.EncodingIsEncodedAt | components/openmw-mp/Packets/Actor/PacketActorAttack.cpp:30-47 | actor k sits at tokens 3k to 3k+2, whatever surrounds it |
| ActorAttackPacket.HeaderThenEncoded | components/openmw-mp/Packets/Actor/PacketActorAttack.cpp:21-47 | count, cell and actors form a body |
| ActorAttackPacket.SendBodyLayout | components/openmw-mp/Packets/Actor/PacketActorAttack.cpp:18-47 | send writes the size modulo 2^32, the cell's flags, X, Y and name, then that many actors |
| ActorAttackPacket.ReadsCell | components/openmw-mp/Packets/Actor/PacketActorAttack.cpp:23-26 | the written cell is read back whatever the reader held |
| ActorAttackPacket.ReadsBody | components/openmw-mp/Packets/Actor/PacketActorAttack.cpp:21-47 | a count, a cell and that many actors are read back as that count, that cell and what the actors carry |
| ActorAttackPacket.RoundTrip | components/openmw-mp/Packets/Actor/PacketActorAttack.cpp:12-48 | reading what send wrote gives the count, the cell, and that many actors with their refId, refNumIndex and mpNum in order and defaults elsewhere |
| ActorAttackPacket.RoundTripWhole | components/openmw-mp/Packets/Actor/PacketActorAttack.cpp:12-48 | below 2^32 actors, every actor comes back as Carried |
| ActorAttackPacket.OnlyCarriedFieldsMatter | components/openmw-mp/Packets/Actor/PacketActorAttack.cpp:37-39 | two actors that agree on the three serialised fields are received alike |
| ActorAttackPacket.RWCell | components/openmw-mp/Packets/Actor/PacketActorAttack.cpp:23-26 | the four RW calls write or read the cell's flags, X, Y and name |
| ActorAttackPacket.RWActor | components/openmw-mp/Packets/Actor/PacketActorAttack.cpp:37-39 | the three RW calls write or read refId, refNumIndex and mpNum |
| ActorAttackPacket.RWActors | components/openmw-mp/Packets/Actor/PacketActorAttack.cpp:28-47 | send writes the first count actors; read appends exactly count actors read into the reused variable |
| ActorAttackPacket.Packet | components/openmw-mp/Packets/Actor/PacketActorAttack.cpp:12-48 | send sets count to the size and writes the header and body, keeping cell and list; read clears the list and fills count, cell and exactly count actors, as ReadBody |
| PlayerAttackPacket.HeadTokens | components/openmw-mp/Packets/Player/PacketPlayerAttack.cpp:28-31 | spellId, type, success and damage take four tokens |
| PlayerAttackPacket.StrikeTokens | components/openmw-mp/Packets/Player/PacketPlayerAttack.cpp:33-35 | pressed, knockdown and block take three tokens |
| PlayerAttackPacket.EnchantmentTokens | components/openmw-mp/Packets/Player/PacketPlayerAttack.cpp:37-38 | the two enchantment flags take two tokens |
| PlayerAttackPacket.TailTokens | components/openmw-mp/Packets/Player/PacketPlayerAttack.cpp:28-38 | the attack's own fields take nine tokens |
| PlayerAttackPacket.SendBody | components/openmw-mp/Packets/Player/PacketPlayerAttack.cpp:15-38 | the body is 11 tokens for a player target and 13 for an actor target |
| PlayerAttackPacket.ReadTarget | components/openmw-mp/Packets/Player/PacketPlayerAttack.cpp:15-26 | the branch follows the isPlayer just read, and the fields of the other branch are not touched |
| PlayerAttackPacket.ReadHead | components/openmw-mp/Packets/Player/PacketPlayerAttack.cpp:28-31 | reading the four head fields touches no other field |
| PlayerAttackPacket.ReadStrike | components/openmw-mp/Packets/Player/PacketPlayerAttack.cpp:33-35 | reading pressed, knockdown and block touches no other field |
| PlayerAttackPacket.ReadEnchantments | components/openmw-mp/Packets/Player/PacketPlayerAttack.cpp:37-38 | reading the enchantment flags touches no other field |
| PlayerAttackPacket.ReadTail | components/openmw-mp/Packets/Player/PacketPlayerAttack.cpp:28-38 | reading the nine attack fields keeps the target |
| PlayerAttackPacket.Received | components/openmw-mp/Packets/Player/PacketPlayerAttack.cpp:15-26 | what a reader holds: isPlayer and the sent branch from the sender, the inactive branch from the reader's old value, every attack field from the sender |
| PlayerAttackPacket.ReadsTarget | components/openmw-mp/Packets/Player/PacketPlayerAttack.cpp:15-26 | a written target is read back in its branch, the other branch left as it was |
| PlayerAttackPacket.ReadsHead | components/openmw-mp/Packets/Player/PacketPlayerAttack.cpp:28-31 | written head fields are read back, ending right after them |
| PlayerAttackPacket.ReadsStrike | components/openmw-mp/Packets/Player/PacketPlayerAttack.cpp:33-35 | written strike flags are read back, ending right after them |
| PlayerAttackPacket.ReadsEnchantments | components/openmw-mp/Packets/Player/PacketPlayerAttack.cpp:37-38 | written enchantment flags are read back, ending right after them |
| PlayerAttackPacket.ReadsTail | components/openmw-mp/Packets/Player/PacketPlayerAttack.cpp:28-38 | the nine written attack fields are read back, ending right after them |
| PlayerAttackPacket.RoundTrip | components/openmw-mp/Packets/Player/PacketPlayerAttack.cpp:11-39 | in both branches, reading what send wrote gives Received and stops at the end of the body |
| PlayerAttackPacket.TargetTokensInjective | components/openmw-mp/Packets/Player/PacketPlayerAttack.cpp:15-26 | equal target tokens mean equal isPlayer and equal fields of the sent branch |
| PlayerAttackPacket.TailTokensInjective | components/openmw-mp/Packets/Player/PacketPlayerAttack.cpp:28-38 | equal tail tokens mean equal attack fields |
| PlayerAttackPacket.SendBodyInjective | components/openmw-mp/Packets/Player/PacketPlayerAttack.cpp:11-39 | two attacks are sent alike exactly when they agree on isPlayer, the sent branch and every attack field |
| PlayerAttackPacket.RWTarget | components/openmw-mp/Packets/Player/PacketPlayerAttack.cpp:15-26 | the RW of isPlayer, then the guid or refId, refNum and mpNum as the isPlayer now held selects |
| PlayerAttackPacket.RWTail | components/openmw-mp/Packets/Player/PacketPlayerAttack.cpp:28-38 | the RW calls of the nine attack fields in order |
| PlayerAttackPacket.RWHead | components/openmw-mp/Packets/Player/PacketPlayerAttack.cpp:28-31 | the RW calls of spellId, type, success and damage |
| PlayerAttackPacket.RWStrike | components/openmw-mp/Packets/Player/PacketPlayerAttack.cpp:33-35 | the RW calls of pressed, knockdown and block |
| PlayerAttackPacket.RWEnchantments | components/openmw-mp/Packets/Player/PacketPlayerAttack.cpp:37-38 | the RW calls of the two enchantment flags |
| PlayerAttackPacket.Packet | components/openmw-mp/Packets/Player/PacketPlayerAttack.cpp:11-39 | send writes the header and the body and changes nothing; read fills the attack as ReadBody |

## Left out

**Scheduler**
- Threads, mutexes, condition variables and their waits are not modelled: thread start-up and join, the 10 ms `wait_for`, and `wait()`'s blocking. Each worker step is a sequential method with an explicit thread id. `wait()` is modelled only by its condition (`Quiescent`).
- AsyncNavMeshUpdater.Updater.GetNextJob: returns nothing at once when no job is eligible, where the source first waits up to 10 ms for one. It does not model resetting the first-start time or notifying waiters.
- AsyncNavMeshUpdater.Updater.ProcessStep: only an exception from processJob is modelled (the Threw outcome). An exception from getNextJob, unlockTile or repost themselves, such as a failed allocation or mutex lock, is not.
- `processJob` is a parameter giving an outcome. The bake itself, `updateNavMesh`, the recast mesh and tile cache, the debug-file writing, logging and the statistics are not modelled.
- The destructor is modelled only as raising the stop flag (`RequestStop`). Clearing the queue and joining the threads are not.
- The comparator of the job queue lives in a header that is not part of this model, so it is a parameter. `std::priority_queue` gives no order among jobs the comparator ranks equal; the model picks one, push order.
- The `if (!job) continue` in getNextJob never fires in the model. The clock is monotone, and jobs handed to a thread were already due, so a job is always taken once `hasJob` holds.
- One steady-clock reading `now` is used per getNextJob call. The cleanup after an empty getNextJob takes a second reading, `cleanupNow`, as cleanupLastUpdates does.
- Tile coordinates are unbounded integers. A Manhattan distance that overflows `int` is not modelled.
- Agent half extents and the navmesh cache handle are opaque numbers.

**Timers**
- Lua callbacks are modelled as a validity flag plus a call counter. A callback that creates or kills timers while the controller's tick loop runs is not modelled.
- Timers.Timer.constructor: the source leaves `startTime` to a header that is not part of this model; the model starts it at 0.
- The TimerController constructor and the timer's `long` fields live in headers that are not part of this model. The model starts with empty lists and uses unbounded integers, so no overflow happens.
- Logging is not modelled.

**Events**
- Events.CallbackCollection.constructor: `lastCalled` is left unset by the source; the model starts it at 0.
- Events.CallbackCollection.CallWithOld and Events.CallbackCollection.Call share one loop (`Dispatch`). The source has two copies, which differ only in passing `oldData`.
- A callback is reduced to whether it requests a stop, and for `call<R>` to its result. The arguments and the callback's other effects are not modelled.
- `EventController` itself is not modelled: registerEvent, createEvent, raiseEvent, stop and the `Call` templates are not part of this model.

**Players and base managers**
- NetActor and Player are merged into one class `Actor`, with a constant `isActorPlayer`.
- Floats are modelled as reals.
- `Players::addToQueue` is modelled as a per-player counter `queued`.
- Players.Actor.Update: models only the flag, list and queue resets. The packets it sends, the cell, inventory and sub-manager updates, and the class update are left out.
- Players.Actor.SetMark: stores the cell description as given; parsing it into a cell is not modelled.
- Players.Actor.SetGender: stores whether the gender is non-zero, because `setIsMale` is defined in a header outside this model.
- Players.Actor.IncrementHandshakeAttempts: requires the counter to be below INT_MAX. Signed overflow there would be undefined.
- Players.Actor.GetSkillIncrease: requires an id below 8, because the source does no bounds check.
- Attribute and skill ids are `nat`. The source's `unsigned short` truncation of a larger argument is not modelled.
- Players.Actor.ForEachLoaded: returns the players `func` would be called with instead of calling `func`. The visiting order, which comes from sorting by address, is not modelled.
- Players.Actor.constructor: the NetActor's other initial values come from headers that are not part of this model.
- Players.Actor.Player: the same applies to the player's.
- BaseManagers.BaseMgr.ForWorldstate: the initial `player` comes from the class header, which is not part of this model, so it is a parameter of the constructor.
- Bounty, reputation, channels, chat, kick, ban, jail, resurrection, authority and the cell-state getters are not modelled; they send packets or call the network.
- processUpdate is only counted.

**Packets**
- `PlayerPacket::Packet` and `ActorPacket::Packet` are defined outside this model. The header is modelled as BasePacket's, the packet id and the guid.
- The definition of `RW` is in a header that is not part of this model. A read that finds no token of the right kind is modelled as a failed read that leaves the target and the read position unchanged.
- The compression flag of `RW` is not modelled.
- Bit-level encodings are not modelled. RakNet's `BitStream`, including its own `Read` and `Write`, is outside this model; the stream is a token sequence with a read position, and `SetReadStream` attaching it becomes the `BitStream` constructor.
- A BaseActor's fields other than the three serialised ones are collapsed into one field.
- The attack type is an integer.
- The constructors of the packets, the actor list and the base player are not modelled. They set only the packet id, priority and reliability, or live in headers.
