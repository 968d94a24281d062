// The asynchronous navmesh tile-update scheduler as a sequential state
// machine: the shared job queue, the per-thread queues, the debounce table and
// the tile-ownership table, with the calling thread and the clock reading
// passed in explicitly.

module AsyncNavMeshUpdater {
  import opened Wrappers
  import opened NavJobs

  /**
   * What processJob does with a job; the bake itself is not modelled. Threw
   * stands for an exception, which process() catches and only logs.
   */
  datatype BakeOutcome = HandleExpired | Baked | BakeFailed | Threw

  /** processJob's result: an expired handle counts as processed, a failed bake does not. */
  predicate IsProcessed(o: BakeOutcome)
  {
    o == HandleExpired || o == Baked
  }

  /** repost drops a job whose try number is above this. */
  const MaxRetriedTryNumber := 2

  /**
   * The shared queue after repost(job): unchanged when the scheduler is stopping
   * or the job is out of tries, otherwise the job pushed with one more try.
   */
  function Reposted(q: Queue, job: Job, stopping: bool, before: (Job, Job) -> bool): (r: Queue)
    ensures stopping || job.tryNumber > MaxRetriedTryNumber ==> r == q
    ensures !stopping && job.tryNumber <= MaxRetriedTryNumber ==>
      IsPending(r.pushed, job.agent, job.tile) && PushedSet(r.pushed) == PushedSet(q.pushed) + {KeyOf(job)}
  {
    if stopping || job.tryNumber > MaxRetriedTryNumber then q
    else
      var r := PushIfNew(q, job.(tryNumber := job.tryNumber + 1), before);
      PendingMeansInPushedSet(r.pushed, job.agent, job.tile);
      r
  }

  /** Every queued job has been tried at most four times. */
  ghost predicate BoundedTries(s: seq<Job>)
  {
    forall j :: j in s ==> j.tryNumber <= MaxRetriedTryNumber + 1
  }

  ghost predicate AllDue(s: seq<Job>, clock: Time)
  {
    forall j :: j in s ==> j.processTime <= clock
  }

  /** Popping the top keeps both bounds. */
  lemma TailKeepsBounds(s: seq<Job>, clock: Time)
    requires s != []
    ensures BoundedTries(s) ==> BoundedTries(s[1..])
    ensures AllDue(s, clock) ==> AllDue(s[1..], clock)
  {
    assert forall x :: x in s[1..] ==> x in s;
  }

  /** Pushing a job that meets a bound keeps it for the queue. */
  lemma PushKeepsBounds(q: Queue, j: Job, before: (Job, Job) -> bool, clock: Time)
    ensures BoundedTries(q.jobs) && j.tryNumber <= MaxRetriedTryNumber + 1 ==> BoundedTries(PushIfNew(q, j, before).jobs)
    ensures AllDue(q.jobs, clock) && j.processTime <= clock ==> AllDue(PushIfNew(q, j, before).jobs, clock)
  {
    var r := PushIfNew(q, j, before);
    forall x | x in r.jobs ensures x in q.jobs || x == j {
      assert x in JobSet(r.jobs);
    }
  }

  // ---------------------------------------------------------------------
  // Tile-ownership table (mProcessingTiles): agent -> tile -> owning thread.

  type LockTable = map<AgentId, map<TilePosition, ThreadId>>

  function Owner(tab: LockTable, a: AgentId, t: TilePosition): Option<ThreadId>
  {
    if a in tab && t in tab[a] then Some(tab[a][t]) else None
  }

  predicate NoEmptyRows(tab: LockTable)
  {
    forall a :: a in tab ==> tab[a] != map[]
  }

  datatype Claim = Claim(owner: ThreadId, table: LockTable)

  /**
   * lockTile with more than one thread: the first claimer of (a, t) becomes its
   * owner; a later claimer gets the recorded owner back and changes nothing.
   */
  function ClaimTile(tab: LockTable, a: AgentId, t: TilePosition, tid: ThreadId): (c: Claim)
    ensures Owner(c.table, a, t) == Some(c.owner)
    ensures Owner(tab, a, t).Some? ==> c.owner == Owner(tab, a, t).value && c.table == tab
    ensures Owner(tab, a, t).None? ==> c.owner == tid
    ensures forall b: AgentId, u: TilePosition :: (b, u) != (a, t) ==> Owner(c.table, b, u) == Owner(tab, b, u)
    ensures NoEmptyRows(tab) ==> NoEmptyRows(c.table)
  {
    if a !in tab then Claim(tid, tab[a := map[t := tid]])
    else if t !in tab[a] then
      var row: map<TilePosition, ThreadId> := tab[a][t := tid];
      Claim(tid, tab[a := row])
    else Claim(tab[a][t], tab)
  }

  /** unlockTile with more than one thread: drops (a, t) and erases an agent left with no tiles. */
  function ReleaseTile(tab: LockTable, a: AgentId, t: TilePosition): (r: LockTable)
    ensures Owner(r, a, t) == None
    ensures forall b: AgentId, u: TilePosition :: (b, u) != (a, t) ==> Owner(r, b, u) == Owner(tab, b, u)
    ensures Owner(tab, a, t) == None ==> r == tab
    ensures NoEmptyRows(tab) ==> NoEmptyRows(r)
  {
    if a !in tab || t !in tab[a] then tab
    else
      var row := tab[a] - {t};
      assert forall u :: u in tab[a] && u != t ==> u in row;
      if row == map[] then tab - {a} else tab[a := row]
  }

  /** Once a thread owns a tile, every other claimer is handed that owner. */
  lemma ClaimIsExclusive(tab: LockTable, a: AgentId, t: TilePosition, first: ThreadId, second: ThreadId)
    requires Owner(tab, a, t) == None
    ensures ClaimTile(ClaimTile(tab, a, t, first).table, a, t, second).owner == first
    ensures ClaimTile(ClaimTile(tab, a, t, first).table, a, t, second).table
         == ClaimTile(tab, a, t, first).table
  {
  }

  /** Claiming a free tile and then releasing it restores the table. */
  lemma ClaimThenRelease(tab: LockTable, a: AgentId, t: TilePosition, tid: ThreadId)
    requires NoEmptyRows(tab) && Owner(tab, a, t) == None
    ensures ReleaseTile(ClaimTile(tab, a, t, tid).table, a, t) == tab
  {
    var c := ClaimTile(tab, a, t, tid).table;
    var r := ReleaseTile(c, a, t);
    if a in tab {
      assert c[a] == tab[a][t := tid];
      assert c[a] - {t} == tab[a];
      assert r == tab[a := tab[a]];
    } else {
      assert c[a] - {t} == map[];
    }
  }

  // ---------------------------------------------------------------------
  // Debounce table (mLastUpdates): agent -> tile -> time of the last update job taken.

  type LastUpdates = map<AgentId, map<TilePosition, Time>>

  function RowOf<V>(m: map<AgentId, map<TilePosition, V>>, a: AgentId): map<TilePosition, V>
  {
    if a in m then m[a] else map[]
  }

  /** mLastUpdates[a][t], which reads the epoch when the entry is absent. */
  function LastUpdateOf(lu: LastUpdates, a: AgentId, t: TilePosition): Time
  {
    var row := RowOf(lu, a);
    if t in row then row[t] else 0
  }

  /**
   * The table after post has indexed mLastUpdates[a][t] for every tile in ts:
   * absent entries are inserted with the epoch, and nothing is touched when ts is empty.
   */
  function Seeded(lu: LastUpdates, a: AgentId, ts: set<TilePosition>): (r: LastUpdates)
    ensures forall b, t :: LastUpdateOf(r, b, t) == LastUpdateOf(lu, b, t)
    ensures forall t :: t in ts ==> a in r && t in r[a]
  {
    if ts == {} then lu
    else
      var row := RowOf(lu, a);
      lu[a := map t | t in row.Keys + ts :: if t in row then row[t] else 0]
  }

  /** Indexing one more tile: the entry is inserted with its current value, or the epoch. */
  lemma SeededStep(lu: LastUpdates, a: AgentId, ts: set<TilePosition>, t: TilePosition)
    ensures Seeded(lu, a, ts + {t})
         == Seeded(lu, a, ts)[a := RowOf(Seeded(lu, a, ts), a)[t := LastUpdateOf(lu, a, t)]]
  {
    var row0 := RowOf(lu, a);
    var lhs := Seeded(lu, a, ts + {t});
    var mid := Seeded(lu, a, ts);
    var rhs := mid[a := RowOf(mid, a)[t := LastUpdateOf(lu, a, t)]];
    assert lhs[a] == rhs[a] by {
      assert lhs[a].Keys == row0.Keys + ts + {t};
      assert rhs[a].Keys == row0.Keys + ts + {t};
      forall u | u in lhs[a] ensures lhs[a][u] == rhs[a][u] {
      }
    }
    forall b | b in lhs ensures b in rhs && lhs[b] == rhs[b] {
    }
    assert lhs == rhs;
  }

  /** The entries cleanupLastUpdates keeps in one row: those not older than the interval. */
  function FreshRow(row: map<TilePosition, Time>, now: Time, interval: nat): map<TilePosition, Time>
  {
    map t | t in row && !(now - row[t] > interval) :: row[t]
  }

  /** The debounce table after cleanupLastUpdates. */
  function Cleaned(lu: LastUpdates, now: Time, interval: nat): LastUpdates
  {
    map a | a in lu && FreshRow(lu[a], now, interval) != map[] :: FreshRow(lu[a], now, interval)
  }

  /** cleanupLastUpdates' inner loop over one agent's entries. */
  method CleanupRow(row0: map<TilePosition, Time>, now: Time, interval: nat) returns (row: map<TilePosition, Time>)
    ensures row == FreshRow(row0, now, interval)
  {
    row := row0;
    var tiles := row.Keys;
    while tiles != {}
      invariant tiles <= row0.Keys && row.Keys <= row0.Keys
      invariant forall t :: t in tiles ==> t in row && row[t] == row0[t]
      invariant forall t :: t in row && t !in tiles ==> t in FreshRow(row0, now, interval) && row[t] == row0[t]
      invariant forall t :: t in FreshRow(row0, now, interval) && t !in tiles ==> t in row
      decreases tiles
    {
      var t :| t in tiles;
      if now - row[t] > interval {
        row := row - {t};
      }
      tiles := tiles - {t};
    }
  }

  /** Cleanup keeps exactly the entries with now - t <= interval, and no agent is left without entries. */
  lemma CleanedKeepsExactlyFresh(lu: LastUpdates, now: Time, interval: nat)
    ensures forall a, t ::
      (a in Cleaned(lu, now, interval) && t in Cleaned(lu, now, interval)[a])
      <==> (a in lu && t in lu[a] && now - lu[a][t] <= interval)
    ensures forall a, t ::
      (a in Cleaned(lu, now, interval) && t in Cleaned(lu, now, interval)[a])
      ==> Cleaned(lu, now, interval)[a][t] == lu[a][t]
    ensures forall a :: a in Cleaned(lu, now, interval) ==> Cleaned(lu, now, interval)[a] != map[]
  {
    var r := Cleaned(lu, now, interval);
    forall a, t | a in lu && t in lu[a] && now - lu[a][t] <= interval
      ensures a in r && t in r[a]
    {
      assert t in FreshRow(lu[a], now, interval);
    }
  }

  /** getJob's stamps, in order, for the jobs js taken from the shared queue at now: update jobs only. */
  function Stamped(lu: LastUpdates, js: seq<Job>, now: Time): (r: LastUpdates)
    decreases |js|
  {
    if js == [] then lu
    else
      var p := Stamped(lu, js[..|js| - 1], now);
      var j := js[|js| - 1];
      if j.changeType == Update then p[j.agent := RowOf(p, j.agent)[j.tile := now]] else p
  }

  /** After the stamps, an entry reads now exactly when an update job for it was taken, and as before otherwise. */
  lemma {:induction false} StampedReads(lu: LastUpdates, js: seq<Job>, now: Time, a: AgentId, t: TilePosition)
    ensures LastUpdateOf(Stamped(lu, js, now), a, t)
         == if exists k :: 0 <= k < |js| && js[k].changeType == Update && KeyOf(js[k]) == (a, t)
            then now else LastUpdateOf(lu, a, t)
    decreases |js|
  {
    if js != [] {
      var init := js[..|js| - 1];
      var j := js[|js| - 1];
      StampedReads(lu, init, now, a, t);
      if j.changeType == Update && KeyOf(j) == (a, t) {
        assert js[|js| - 1].changeType == Update && KeyOf(js[|js| - 1]) == (a, t);
      } else {
        if exists k :: 0 <= k < |js| && js[k].changeType == Update && KeyOf(js[k]) == (a, t) {
          var k :| 0 <= k < |js| && js[k].changeType == Update && KeyOf(js[k]) == (a, t);
          assert init[k] == js[k];
        }
        if exists k :: 0 <= k < |init| && init[k].changeType == Update && KeyOf(init[k]) == (a, t) {
          var k :| 0 <= k < |init| && init[k].changeType == Update && KeyOf(init[k]) == (a, t);
          assert js[k] == init[k];
        }
      }
    }
  }

  /** Stamping one job more. */
  lemma StampedSnoc(lu: LastUpdates, js: seq<Job>, j: Job, now: Time)
    ensures Stamped(lu, js + [j], now)
         == var p := Stamped(lu, js, now);
            if j.changeType == Update then p[j.agent := RowOf(p, j.agent)[j.tile := now]] else p
  {
    assert (js + [j])[..|js|] == js;
  }

  // ---------------------------------------------------------------------
  // Jobs created by post.

  /** The job post creates for a newly pending tile. */
  function NewJob(agent: AgentId, handle: HandleId, tile: TilePosition, ct: ChangeType,
                  playerTile: TilePosition, lu: LastUpdates, interval: nat): Job
  {
    Job(agent, handle, tile, 0, ct,
        ManhattanDistance(tile, playerTile), ManhattanDistance(tile, Origin),
        if ct == Update then LastUpdateOf(lu, agent, tile) + interval else 0)
  }

  /** post's jobs for the tiles of ts: one per changed tile that was not already pending. */
  function PostedJobs(p: Pushed, lu: LastUpdates, agent: AgentId, handle: HandleId, playerTile: TilePosition,
                      changed: map<TilePosition, ChangeType>, interval: nat, ts: set<TilePosition>): set<Job>
  {
    set t | t in ts && t in changed && !IsPending(p, agent, t)
      :: NewJob(agent, handle, t, changed[t], playerTile, lu, interval)
  }

  /** The tiles whose debounce entry post indexes: new `update` jobs. */
  function UpdateTiles(p: Pushed, agent: AgentId, changed: map<TilePosition, ChangeType>,
                       ts: set<TilePosition>): set<TilePosition>
  {
    set t | t in ts && t in changed && changed[t] == Update && !IsPending(p, agent, t)
  }

  /**
   * The work post does for one changed tile: unless the tile is already
   * pending for the agent, index its debounce entry (update jobs only) and
   * queue its job.
   */
  function PostTile(q: Queue, lu: LastUpdates, agent: AgentId, handle: HandleId, playerTile: TilePosition,
                    t: TilePosition, ct: ChangeType, interval: nat, before: (Job, Job) -> bool): (r: (Queue, LastUpdates))
    ensures PushedSet(r.0.pushed) == PushedSet(q.pushed) + {(agent, t)}
    ensures IsPending(q.pushed, agent, t) ==> r.0.jobs == q.jobs
    ensures !IsPending(q.pushed, agent, t)
      ==> JobSet(r.0.jobs) == JobSet(q.jobs) + {NewJob(agent, handle, t, ct, playerTile, lu, interval)}
    ensures IsPending(q.pushed, agent, t) || ct != Update ==> r.1 == lu
    ensures !IsPending(q.pushed, agent, t) && ct == Update
      ==> r.1 == lu[agent := RowOf(lu, agent)[t := LastUpdateOf(lu, agent, t)]]
    ensures TotalPreorder(before) && QueueValid(q, before) ==> QueueValid(r.0, before)
    ensures BoundedTries(q.jobs) ==> BoundedTries(r.0.jobs)
  {
    if IsPending(q.pushed, agent, t) then
      (PushIfNew(q, NewJob(agent, handle, t, ct, playerTile, lu, interval), before), lu)
    else
      var row := RowOf(lu, agent);
      var last := if t in row then row[t] else 0;
      var lu' := if ct == Update then lu[agent := row[t := last]] else lu;
      var job := Job(agent, handle, t, 0, ct, ManhattanDistance(t, playerTile),
                     ManhattanDistance(t, Origin), if ct == Update then last + interval else 0);
      assert job == NewJob(agent, handle, t, ct, playerTile, lu, interval);
      PushKeepsBounds(q, job, before, 0);
      (PushIfNew(q, job, before), lu')
  }

  /** What post's loop has achieved once it has gone through the tiles of done. */
  ghost predicate PostedSoFar(q: Queue, lu: LastUpdates, q0: Queue, lu0: LastUpdates, agent: AgentId, handle: HandleId,
                              playerTile: TilePosition, changed: map<TilePosition, ChangeType>, interval: nat,
                              done: set<TilePosition>, before: (Job, Job) -> bool)
  {
    && QueueValid(q, before) && BoundedTries(q.jobs)
    && PushedSet(q.pushed) == PushedSet(q0.pushed) + (set u | u in done :: (agent, u))
    && JobSet(q.jobs) == JobSet(q0.jobs) + PostedJobs(q0.pushed, lu0, agent, handle, playerTile, changed, interval, done)
    && lu == Seeded(lu0, agent, UpdateTiles(q0.pushed, agent, changed, done))
  }

  /** One more tile keeps post's loop invariant. */
  lemma PostTileKeeps(q: Queue, lu: LastUpdates, q0: Queue, lu0: LastUpdates, agent: AgentId, handle: HandleId,
                      playerTile: TilePosition, changed: map<TilePosition, ChangeType>, interval: nat,
                      done: set<TilePosition>, t: TilePosition, before: (Job, Job) -> bool)
    requires TotalPreorder(before) && t in changed && t !in done
    requires PostedSoFar(q, lu, q0, lu0, agent, handle, playerTile, changed, interval, done, before)
    ensures PostedSoFar(PostTile(q, lu, agent, handle, playerTile, t, changed[t], interval, before).0,
                        PostTile(q, lu, agent, handle, playerTile, t, changed[t], interval, before).1,
                        q0, lu0, agent, handle, playerTile, changed, interval, done + {t}, before)
  {
    PostTileKeepsPushed(q, lu, q0.pushed, agent, handle, playerTile, changed, interval, done, t, before);
    PostTileKeepsJobs(q, lu, q0.pushed, lu0, agent, handle, playerTile, changed, interval, done, t, before, JobSet(q0.jobs));
    PostTileKeepsLastUpdates(q, lu, q0.pushed, lu0, agent, handle, playerTile, changed, interval, done, t, before);
  }

  lemma PostTileKeepsPushed(q: Queue, lu: LastUpdates, p0: Pushed, agent: AgentId, handle: HandleId,
                            playerTile: TilePosition, changed: map<TilePosition, ChangeType>, interval: nat,
                            done: set<TilePosition>, t: TilePosition, before: (Job, Job) -> bool)
    requires t in changed
    requires PushedSet(q.pushed) == PushedSet(p0) + (set u | u in done :: (agent, u))
    ensures PushedSet(PostTile(q, lu, agent, handle, playerTile, t, changed[t], interval, before).0.pushed)
         == PushedSet(p0) + (set u | u in done + {t} :: (agent, u))
    ensures IsPending(q.pushed, agent, t) <==> IsPending(p0, agent, t) || t in done
  {
    PendingMeansInPushedSet(q.pushed, agent, t);
    PendingMeansInPushedSet(p0, agent, t);
    assert (set u | u in done + {t} :: (agent, u)) == (set u | u in done :: (agent, u)) + {(agent, t)};
  }

  lemma PostTileKeepsJobs(q: Queue, lu: LastUpdates, p0: Pushed, lu0: LastUpdates, agent: AgentId, handle: HandleId,
                          playerTile: TilePosition, changed: map<TilePosition, ChangeType>, interval: nat,
                          done: set<TilePosition>, t: TilePosition, before: (Job, Job) -> bool, jobs0: set<Job>)
    requires t in changed
    requires IsPending(q.pushed, agent, t) <==> IsPending(p0, agent, t)
    requires LastUpdateOf(lu, agent, t) == LastUpdateOf(lu0, agent, t)
    requires JobSet(q.jobs) == jobs0 + PostedJobs(p0, lu0, agent, handle, playerTile, changed, interval, done)
    ensures JobSet(PostTile(q, lu, agent, handle, playerTile, t, changed[t], interval, before).0.jobs)
         == jobs0 + PostedJobs(p0, lu0, agent, handle, playerTile, changed, interval, done + {t})
  {
    PostStep(p0, lu0, agent, handle, playerTile, changed, interval, done, t);
    var nj := NewJob(agent, handle, t, changed[t], playerTile, lu0, interval);
    assert NewJob(agent, handle, t, changed[t], playerTile, lu, interval) == nj;
  }

  lemma PostTileKeepsLastUpdates(q: Queue, lu: LastUpdates, p0: Pushed, lu0: LastUpdates, agent: AgentId, handle: HandleId,
                                 playerTile: TilePosition, changed: map<TilePosition, ChangeType>, interval: nat,
                                 done: set<TilePosition>, t: TilePosition, before: (Job, Job) -> bool)
    requires t in changed
    requires IsPending(q.pushed, agent, t) <==> IsPending(p0, agent, t)
    requires lu == Seeded(lu0, agent, UpdateTiles(p0, agent, changed, done))
    ensures PostTile(q, lu, agent, handle, playerTile, t, changed[t], interval, before).1
         == Seeded(lu0, agent, UpdateTiles(p0, agent, changed, done + {t}))
  {
    var U := UpdateTiles(p0, agent, changed, done);
    var U2 := UpdateTiles(p0, agent, changed, done + {t});
    PostStep(p0, lu0, agent, handle, playerTile, changed, interval, done, t);
    assert LastUpdateOf(lu, agent, t) == LastUpdateOf(lu0, agent, t);
    SeededStep(lu0, agent, U, t);
    if IsPending(p0, agent, t) || changed[t] != Update {
      assert U2 == U;
    } else {
      assert U2 == U + {t};
    }
  }

  /** post's loop over the changed tiles, on the queue and debounce table it updates. */
  method PostTiles(q0: Queue, lu0: LastUpdates, agent: AgentId, handle: HandleId, playerTile: TilePosition,
                   changed: map<TilePosition, ChangeType>, interval: nat, before: (Job, Job) -> bool)
    returns (q: Queue, lu: LastUpdates)
    requires TotalPreorder(before) && QueueValid(q0, before) && BoundedTries(q0.jobs)
    ensures PostedSoFar(q, lu, q0, lu0, agent, handle, playerTile, changed, interval, changed.Keys, before)
  {
    q, lu := q0, lu0;
    var todo := changed.Keys;
    ghost var done: set<TilePosition> := {};
    assert (set u | u in done :: (agent, u)) == {};
    assert UpdateTiles(q0.pushed, agent, changed, done) == {};
    while todo != {}
      invariant todo + done == changed.Keys && todo !! done
      invariant PostedSoFar(q, lu, q0, lu0, agent, handle, playerTile, changed, interval, done, before)
      decreases todo
    {
      var t :| t in todo;
      PostTileKeeps(q, lu, q0, lu0, agent, handle, playerTile, changed, interval, done, t, before);
      var step := PostTile(q, lu, agent, handle, playerTile, t, changed[t], interval, before);
      q, lu := step.0, step.1;
      todo := todo - {t};
      done := done + {t};
    }
  }

  /** Adding one tile to the tiles post has gone through. */
  lemma PostStep(p: Pushed, lu: LastUpdates, agent: AgentId, handle: HandleId, playerTile: TilePosition,
                 changed: map<TilePosition, ChangeType>, interval: nat, done: set<TilePosition>, t: TilePosition)
    requires t in changed
    ensures !IsPending(p, agent, t) ==>
      PostedJobs(p, lu, agent, handle, playerTile, changed, interval, done + {t})
      == PostedJobs(p, lu, agent, handle, playerTile, changed, interval, done)
       + {NewJob(agent, handle, t, changed[t], playerTile, lu, interval)}
    ensures IsPending(p, agent, t) ==>
      PostedJobs(p, lu, agent, handle, playerTile, changed, interval, done + {t})
      == PostedJobs(p, lu, agent, handle, playerTile, changed, interval, done)
    ensures UpdateTiles(p, agent, changed, done + {t})
         == UpdateTiles(p, agent, changed, done) + (if changed[t] == Update && !IsPending(p, agent, t) then {t} else {})
    ensures (set u | u in done + {t} :: (agent, u)) == (set u | u in done :: (agent, u)) + {(agent, t)}
  {
  }

  /**
   * What post promises about each job it creates: a fresh try count, the two
   * Manhattan distances, and a process time that is the epoch except for
   * update jobs, which wait out the debounce interval after the last update.
   */
  lemma PostedJobFacts(p: Pushed, lu: LastUpdates, agent: AgentId, handle: HandleId, playerTile: TilePosition,
                       changed: map<TilePosition, ChangeType>, interval: nat, j: Job)
    requires j in PostedJobs(p, lu, agent, handle, playerTile, changed, interval, changed.Keys)
    ensures j.tile in changed && !IsPending(p, agent, j.tile)
    ensures j.agent == agent && j.handle == handle && j.tryNumber == 0 && j.changeType == changed[j.tile]
    ensures j.distanceToPlayer == ManhattanDistance(j.tile, playerTile)
    ensures j.distanceToOrigin == ManhattanDistance(j.tile, Origin)
    ensures j.changeType == Update ==> j.processTime == LastUpdateOf(lu, agent, j.tile) + interval
    ensures j.changeType != Update ==> j.processTime == 0
  {
  }

  // ---------------------------------------------------------------------
  // What one getNextJob call does to the scheduler's tables.

  /** mThreadsQueues[t] read without inserting: t's queue, or an empty one. */
  function QueueOf(qs: map<ThreadId, Queue>, t: ThreadId): Queue
  {
    if t in qs then qs[t] else EmptyQueue
  }

  /** The returned job as a sequence of zero or one jobs. */
  function Taken(job: Option<Job>): seq<Job>
  {
    if job.Some? then [job.value] else []
  }

  /** j's tile is owned by another thread, and j is pending in that thread's queue. */
  ghost predicate HandedOver(qs: map<ThreadId, Queue>, locks: LockTable, tid: ThreadId, j: Job)
  {
    var owner := Owner(locks, j.agent, j.tile);
    owner.Some? && owner.value != tid && KeyOf(j) in PushedSet(QueueOf(qs, owner.value).pushed)
  }

  /** q1 is q0 with at most some of the handed jobs added. */
  ghost predicate QueueGained(q0: Queue, q1: Queue, handed: seq<Job>)
  {
    PushedSet(q0.pushed) <= PushedSet(q1.pushed)
    && JobSet(q0.jobs) <= JobSet(q1.jobs) <= JobSet(q0.jobs) + JobSet(handed)
  }

  /** q1 is what is left of q0 after its first n jobs were popped. */
  ghost predicate PoppedFrom(q0: Queue, q1: Queue, n: nat)
  {
    n <= |q0.jobs| && q1.jobs == q0.jobs[n..]
    && PushedSet(q1.pushed) == PushedSet(q0.pushed) - KeySet(q0.jobs[..n])
  }

  /** q1 is q0 after a push of j that may have been ignored. */
  ghost predicate GainedOne(q0: Queue, q1: Queue, j: Job)
  {
    PushedSet(q1.pushed) == PushedSet(q0.pushed) + {KeyOf(j)}
    && JobSet(q0.jobs) <= JobSet(q1.jobs) <= JobSet(q0.jobs) + {j}
  }

  /**
   * getNextJob took the first fromOwn jobs of the caller's own queue and then,
   * only once that was empty, the first fromShared jobs of the shared queue.
   * Every job it took was returned or handed over to the thread owning its
   * tile, where it is pending; no other thread's queue lost anything or gained
   * anything but handed jobs; the debounce table holds getJob's stamps for the
   * jobs taken from the shared queue; and the lock table gained at most the
   * caller's claim on the returned job's tile.
   */
  ghost predicate GotNextJob(threads: nat, tid: ThreadId, now: Time,
                             shared0: Queue, qs0: map<ThreadId, Queue>, lu0: LastUpdates, locks0: LockTable,
                             shared1: Queue, qs1: map<ThreadId, Queue>, lu1: LastUpdates, locks1: LockTable,
                             job: Option<Job>, handed: seq<Job>, fromOwn: nat, fromShared: nat)
  {
    && tid in qs1
    && TakenSoFar(now, shared0, QueueOf(qs0, tid), lu0, shared1, qs1[tid], lu1, handed + Taken(job), fromOwn, fromShared)
    && HandOffsSoFar(tid, qs0, qs1, locks1, handed)
    && locks1 == (if job.Some? && threads > 1 then ClaimTile(locks0, job.value.agent, job.value.tile, tid).table else locks0)
  }

  /**
   * taken is the first fromOwn jobs of the caller's own queue followed, only
   * once that was empty, by the first fromShared jobs of the shared queue,
   * each popped from its queue; the debounce table carries the stamps of the
   * shared ones.
   */
  ghost predicate TakenSoFar(now: Time, shared0: Queue, own0: Queue, lu0: LastUpdates,
                             shared1: Queue, own1: Queue, lu1: LastUpdates,
                             taken: seq<Job>, fromOwn: nat, fromShared: nat)
  {
    && PoppedFrom(shared0, shared1, fromShared)
    && PoppedFrom(own0, own1, fromOwn)
    && (fromShared > 0 ==> fromOwn == |own0.jobs|)
    && taken == own0.jobs[..fromOwn] + shared0.jobs[..fromShared]
    && lu1 == Stamped(lu0, shared0.jobs[..fromShared], now)
  }

  /**
   * Each handed job is pending with the thread owning its tile, and every other
   * thread's queue kept what it had and gained at most handed jobs.
   */
  ghost predicate HandOffsSoFar(tid: ThreadId, qs0: map<ThreadId, Queue>, qs1: map<ThreadId, Queue>,
                                locks: LockTable, handed: seq<Job>)
  {
    && (forall i :: 0 <= i < |handed| ==> HandedOver(qs1, locks, tid, handed[i]))
    && (forall t :: t in qs0 ==> t in qs1)
    && (forall t :: t != tid ==> QueueGained(QueueOf(qs0, t), QueueOf(qs1, t), handed))
  }

  /** Before the first take: nothing taken, nothing handed, the caller's queue perhaps created empty. */
  lemma StartedTracking(tid: ThreadId, now: Time, shared0: Queue, qs0: map<ThreadId, Queue>, lu0: LastUpdates,
                        qs1: map<ThreadId, Queue>, locks: LockTable)
    requires tid in qs1 && (tid in qs0 ==> qs1 == qs0) && (tid !in qs0 ==> qs1 == qs0[tid := EmptyQueue])
    ensures qs1[tid] == QueueOf(qs0, tid)
    ensures TakenSoFar(now, shared0, QueueOf(qs0, tid), lu0, shared0, qs1[tid], lu0, [], 0, 0)
    ensures HandOffsSoFar(tid, qs0, qs1, locks, [])
  {
    assert shared0.jobs[..0] == [] && QueueOf(qs0, tid).jobs[..0] == [];
    assert KeySet([]) == {};
    forall t | t != tid ensures QueueOf(qs1, t) == QueueOf(qs0, t) {
    }
  }

  /** One more pop of the top: the job popped is q0.jobs[n]. */
  lemma PoppedStep(q0: Queue, q1: Queue, q2: Queue, n: nat)
    requires PoppedFrom(q0, q1, n) && q1.jobs != []
    requires q2.jobs == q1.jobs[1..] && PushedSet(q2.pushed) == PushedSet(q1.pushed) - {KeyOf(q1.jobs[0])}
    ensures n < |q0.jobs| && q1.jobs[0] == q0.jobs[n]
    ensures PoppedFrom(q0, q2, n + 1)
    ensures q0.jobs[..n + 1] == q0.jobs[..n] + [q0.jobs[n]]
  {
    assert q0.jobs[..n + 1] == q0.jobs[..n] + [q0.jobs[n]];
    assert KeySet(q0.jobs[..n + 1]) == KeySet(q0.jobs[..n]) + {KeyOf(q0.jobs[n])};
  }

  /** Taking the top of the caller's own queue extends what was taken by it. */
  lemma TakeOwnStep(now: Time, shared0: Queue, own0: Queue, lu0: LastUpdates,
                    shared1: Queue, own1: Queue, lu1: LastUpdates,
                    taken: seq<Job>, fromOwn: nat, fromShared: nat, own2: Queue)
    requires TakenSoFar(now, shared0, own0, lu0, shared1, own1, lu1, taken, fromOwn, fromShared)
    requires own1.jobs != []
    requires own2.jobs == own1.jobs[1..] && PushedSet(own2.pushed) == PushedSet(own1.pushed) - {KeyOf(own1.jobs[0])}
    ensures TakenSoFar(now, shared0, own0, lu0, shared1, own2, lu1, taken + [own1.jobs[0]], fromOwn + 1, fromShared)
  {
    PoppedStep(own0, own1, own2, fromOwn);
    assert fromShared == 0;
    assert shared0.jobs[..0] == [];
  }

  /** With the caller's own queue empty, taking the top of the shared queue extends what was taken by it. */
  lemma TakeSharedStep(now: Time, shared0: Queue, own0: Queue, lu0: LastUpdates,
                       shared1: Queue, own1: Queue, lu1: LastUpdates,
                       taken: seq<Job>, fromOwn: nat, fromShared: nat, shared2: Queue)
    requires TakenSoFar(now, shared0, own0, lu0, shared1, own1, lu1, taken, fromOwn, fromShared)
    requires own1.jobs == [] && shared1.jobs != []
    requires shared2.jobs == shared1.jobs[1..] && PushedSet(shared2.pushed) == PushedSet(shared1.pushed) - {KeyOf(shared1.jobs[0])}
    ensures var j := shared1.jobs[0];
      TakenSoFar(now, shared0, own0, lu0, shared2, own1,
                 if j.changeType == Update then lu1[j.agent := RowOf(lu1, j.agent)[j.tile := now]] else lu1,
                 taken + [j], fromOwn, fromShared + 1)
  {
    var j := shared1.jobs[0];
    var prefix := shared0.jobs[..fromShared];
    assert fromOwn == |own0.jobs|;
    PoppedStep(shared0, shared1, shared2, fromShared);
    StampedSnoc(lu0, prefix, j, now);
    assert taken + [j] == own0.jobs[..fromOwn] + shared0.jobs[..fromShared + 1];
  }

  /** A push that may be ignored gains at most the pushed job. */
  lemma PushIfNewGainsOne(q: Queue, j: Job, before: (Job, Job) -> bool)
    ensures GainedOne(q, PushIfNew(q, j, before), j)
  {
  }

  /** Replacing the caller's own queue keeps what is known of the hand-offs. */
  lemma OwnQueueStep(tid: ThreadId, qs0: map<ThreadId, Queue>, qs: map<ThreadId, Queue>, qs': map<ThreadId, Queue>,
                     locks: LockTable, handed: seq<Job>, own: Queue)
    requires tid in qs && qs' == qs[tid := own]
    requires HandOffsSoFar(tid, qs0, qs, locks, handed)
    ensures HandOffsSoFar(tid, qs0, qs', locks, handed)
  {
    forall t | t != tid ensures QueueOf(qs', t) == QueueOf(qs, t) {
    }
  }

  /** Handing j over to its tile's owner extends what is known of the hand-offs with j. */
  lemma HandOffStep(tid: ThreadId, qs0: map<ThreadId, Queue>, qs: map<ThreadId, Queue>, qs': map<ThreadId, Queue>,
                    locks: LockTable, handed: seq<Job>, j: Job, owner: ThreadId, q: Queue)
    requires owner != tid && Owner(locks, j.agent, j.tile) == Some(owner)
    requires qs' == qs[owner := q] && GainedOne(QueueOf(qs, owner), q, j)
    requires HandOffsSoFar(tid, qs0, qs, locks, handed)
    ensures HandOffsSoFar(tid, qs0, qs', locks, handed + [j])
  {
    var h := handed + [j];
    assert JobSet(h) == JobSet(handed) + {j} by {
      forall x ensures x in JobSet(h) <==> x in JobSet(handed) + {j} {
        assert x in h <==> x in handed || x == j;
      }
    }
    forall t | t != tid ensures QueueGained(QueueOf(qs0, t), QueueOf(qs', t), h) {
      assert QueueGained(QueueOf(qs0, t), QueueOf(qs, t), handed);
    }
    forall i | 0 <= i < |h| ensures HandedOver(qs', locks, tid, h[i]) {
      if i < |handed| {
        assert h[i] == handed[i];
        assert HandedOver(qs, locks, tid, handed[i]);
      }
    }
  }

  /** getNextJob returning nothing: the loop's facts are GotNextJob with no claim. */
  lemma ReturnedNone(threads: nat, tid: ThreadId, now: Time,
                     shared0: Queue, qs0: map<ThreadId, Queue>, lu0: LastUpdates, locks0: LockTable,
                     shared1: Queue, qs1: map<ThreadId, Queue>, lu1: LastUpdates,
                     handed: seq<Job>, fromOwn: nat, fromShared: nat)
    requires tid in qs1
    requires TakenSoFar(now, shared0, QueueOf(qs0, tid), lu0, shared1, qs1[tid], lu1, handed, fromOwn, fromShared)
    requires HandOffsSoFar(tid, qs0, qs1, locks0, handed)
    ensures GotNextJob(threads, tid, now, shared0, qs0, lu0, locks0, shared1, qs1, lu1, locks0,
                       None, handed, fromOwn, fromShared)
  {
    assert handed + Taken(None) == handed;
  }

  /**
   * getNextJob returning j once the caller's claim on its tile succeeded: the
   * tiles of the handed jobs are owned by other threads, so they are not j's
   * and keep their owners.
   */
  lemma ReturnedSome(threads: nat, tid: ThreadId, now: Time,
                     shared0: Queue, qs0: map<ThreadId, Queue>, lu0: LastUpdates, locks0: LockTable,
                     shared1: Queue, qs1: map<ThreadId, Queue>, lu1: LastUpdates, locks1: LockTable,
                     j: Job, handed: seq<Job>, fromOwn: nat, fromShared: nat)
    requires tid in qs1
    requires TakenSoFar(now, shared0, QueueOf(qs0, tid), lu0, shared1, qs1[tid], lu1, handed + [j], fromOwn, fromShared)
    requires HandOffsSoFar(tid, qs0, qs1, locks0, handed)
    requires locks1 == (if threads > 1 then ClaimTile(locks0, j.agent, j.tile, tid).table else locks0)
    requires threads > 1 ==> ClaimTile(locks0, j.agent, j.tile, tid).owner == tid
    ensures GotNextJob(threads, tid, now, shared0, qs0, lu0, locks0, shared1, qs1, lu1, locks1,
                       Some(j), handed, fromOwn, fromShared)
  {
    assert handed + Taken(Some(j)) == handed + [j];
    forall i | 0 <= i < |handed| ensures HandedOver(qs1, locks1, tid, handed[i]) {
      var h := handed[i];
      assert HandedOver(qs1, locks0, tid, h);
      if threads > 1 {
        assert (h.agent, h.tile) != (j.agent, j.tile);
      }
    }
  }

  /**
   * Where getNextJob's jobs come from: the jobs that left the caller's queue and
   * the shared queue are exactly the returned job and the handed ones, so the
   * returned job was queued for the caller or shared, and no job is lost.
   */
  lemma GotNextJobAccounts(threads: nat, tid: ThreadId, now: Time,
                           shared0: Queue, qs0: map<ThreadId, Queue>, lu0: LastUpdates, locks0: LockTable,
                           shared1: Queue, qs1: map<ThreadId, Queue>, lu1: LastUpdates, locks1: LockTable,
                           job: Option<Job>, handed: seq<Job>, fromOwn: nat, fromShared: nat)
    requires GotNextJob(threads, tid, now, shared0, qs0, lu0, locks0, shared1, qs1, lu1, locks1,
                        job, handed, fromOwn, fromShared)
    ensures JobSet(QueueOf(qs0, tid).jobs[..fromOwn]) + JobSet(shared0.jobs[..fromShared])
            == JobSet(handed) + JobSet(Taken(job))
    ensures job.Some? ==> job.value in JobSet(QueueOf(qs0, tid).jobs) + JobSet(shared0.jobs)
    ensures forall i :: 0 <= i < |handed| ==> handed[i] in JobSet(QueueOf(qs0, tid).jobs) + JobSet(shared0.jobs)
  {
    var own := QueueOf(qs0, tid).jobs[..fromOwn];
    var sh := shared0.jobs[..fromShared];
    assert own + sh == handed + Taken(job);
    forall x ensures x in JobSet(own) + JobSet(sh) <==> x in JobSet(handed) + JobSet(Taken(job)) {
      assert x in own + sh <==> x in handed + Taken(job);
    }
    if job.Some? {
      assert job.value == (handed + Taken(job))[|handed|];
      assert job.value in own + sh;
    }
    forall i | 0 <= i < |handed| ensures handed[i] in JobSet(QueueOf(qs0, tid).jobs) + JobSet(shared0.jobs) {
      assert handed[i] == (handed + Taken(job))[i];
      assert handed[i] in own + sh;
    }
  }

  // ---------------------------------------------------------------------

  class Updater {
    /** mAsyncNavMeshUpdaterThreads */
    const threads: nat
    /** mMinUpdateInterval */
    const minUpdateInterval: nat
    /** The priority order of the job queues (its comparator is a parameter of the model). */
    const before: (Job, Job) -> bool

    var playerTile: TilePosition
    /** mJobs and mPushed */
    var shared: Queue
    /** mThreadsQueues */
    var threadQueues: map<ThreadId, Queue>
    var lastUpdates: LastUpdates
    /** mProcessingTiles */
    var processingTiles: LockTable
    var shouldStop: bool
    /** The latest steady-clock reading taken by the scheduler; the clock never goes back. */
    ghost var clock: Time

    /** The shared queue is sorted, its pending sets match its jobs, and no job is over its retries. */
    ghost predicate SharedValid()
      reads this`shared
    {
      QueueValid(shared, before) && BoundedTries(shared.jobs)
    }

    /** The same for every thread queue; jobs handed to a thread were already due. */
    ghost predicate ThreadQueuesValid()
      reads this`threadQueues, this`clock
    {
      forall t :: t in threadQueues ==>
        QueueValid(threadQueues[t], before) && BoundedTries(threadQueues[t].jobs)
        && AllDue(threadQueues[t].jobs, clock)
    }

    /** Locks are only taken with more than one thread, and no agent has an empty row. */
    ghost predicate LocksValid()
      reads this`processingTiles
    {
      NoEmptyRows(processingTiles) && (threads <= 1 ==> processingTiles == map[])
    }

    ghost predicate Valid()
      reads this
    {
      TotalPreorder(before) && SharedValid() && ThreadQueuesValid() && LocksValid()
    }

    /** The condition wait() blocks on: no queued job anywhere and no tile locked. */
    ghost predicate Quiescent()
      reads this
    {
      shared.jobs == [] && TotalJobs(threadQueues) == 0 && processingTiles == map[]
    }

    /** The scheduler as constructed, before any worker runs (thread start-up is not modelled). */
    constructor (threads: nat, minUpdateInterval: nat, before: (Job, Job) -> bool)
      requires TotalPreorder(before)
      ensures Valid() && Quiescent()
      ensures this.threads == threads && this.minUpdateInterval == minUpdateInterval && this.before == before
      ensures shared == EmptyQueue && threadQueues == map[] && lastUpdates == map[]
      ensures !shouldStop && playerTile == TilePosition(0, 0)
    {
      this.threads := threads;
      this.minUpdateInterval := minUpdateInterval;
      this.before := before;
      playerTile := TilePosition(0, 0);
      shared := EmptyQueue;
      threadQueues := map[];
      lastUpdates := map[];
      processingTiles := map[];
      shouldStop := false;
      clock := 0;
    }

    /** With the invariant, a quiescent scheduler has nothing pending in any queue. */
    lemma QuiescentNothingPending()
      requires Valid() && Quiescent()
      ensures shared.pushed == map[]
      ensures forall t :: t in threadQueues ==> threadQueues[t].jobs == [] && threadQueues[t].pushed == map[]
    {
      EmptyJobsNothingPending(shared, before);
      TotalJobsZero(threadQueues);
      forall t | t in threadQueues
        ensures threadQueues[t].jobs == [] && threadQueues[t].pushed == map[]
      {
        EmptyJobsNothingPending(threadQueues[t], before);
      }
    }

    /**
     * post: records the player tile, then queues one job for every changed
     * tile that is not already pending for the agent.
     */
    method Post(agent: AgentId, handle: HandleId, newPlayerTile: TilePosition,
                changedTiles: map<TilePosition, ChangeType>)
      requires Valid()
      modifies this`playerTile, this`shared, this`lastUpdates
      ensures Valid()
      ensures playerTile == newPlayerTile
      ensures changedTiles == map[] ==> shared == old(shared) && lastUpdates == old(lastUpdates)
      ensures PushedSet(shared.pushed)
           == PushedSet(old(shared.pushed)) + (set t | t in changedTiles :: (agent, t))
      ensures JobSet(shared.jobs)
           == JobSet(old(shared.jobs))
            + PostedJobs(old(shared.pushed), old(lastUpdates), agent, handle, newPlayerTile,
                         changedTiles, minUpdateInterval, changedTiles.Keys)
      ensures lastUpdates
           == Seeded(old(lastUpdates), agent, UpdateTiles(old(shared.pushed), agent, changedTiles, changedTiles.Keys))
    {
      playerTile := newPlayerTile;
      if changedTiles == map[] {
        assert UpdateTiles(shared.pushed, agent, changedTiles, changedTiles.Keys) == {};
        assert PostedJobs(shared.pushed, lastUpdates, agent, handle, newPlayerTile,
                          changedTiles, minUpdateInterval, changedTiles.Keys) == {};
        assert (set t | t in changedTiles :: (agent, t)) == {};
        return;
      }
      var q, lu := PostTiles(shared, lastUpdates, agent, handle, newPlayerTile, changedTiles, minUpdateInterval, before);
      shared, lastUpdates := q, lu;
    }

    /**
     * getJob: takes the top job of q only if its process time has come, erases it
     * from q's pending sets and, for update jobs of the shared queue, stamps the
     * debounce table with now.
     */
    method GetJob(q: Queue, changeLastUpdate: bool, now: Time) returns (job: Option<Job>, r: Queue)
      requires TotalPreorder(before) && QueueValid(q, before) && q.jobs != []
      modifies this`lastUpdates
      ensures QueueValid(r, before)
      ensures q.jobs[0].processTime > now ==> job == None && r == q && lastUpdates == old(lastUpdates)
      ensures q.jobs[0].processTime <= now ==> job == Some(q.jobs[0]) && r == PopTop(q, before)
      ensures q.jobs[0].processTime <= now && changeLastUpdate && q.jobs[0].changeType == Update
        ==> lastUpdates == old(lastUpdates)[q.jobs[0].agent := RowOf(old(lastUpdates), q.jobs[0].agent)[q.jobs[0].tile := now]]
      ensures !(q.jobs[0].processTime <= now && changeLastUpdate && q.jobs[0].changeType == Update)
        ==> lastUpdates == old(lastUpdates)
    {
      var top := q.jobs[0];
      if top.processTime > now {
        return None, q;
      }
      if changeLastUpdate && top.changeType == Update {
        lastUpdates := lastUpdates[top.agent := RowOf(lastUpdates, top.agent)[top.tile := now]];
      }
      r := PopTop(q, before);
      job := Some(top);
    }

    /** lockTile: with at most one thread the caller owns every tile and the table is not touched. */
    method LockTile(agent: AgentId, tile: TilePosition, tid: ThreadId) returns (owner: ThreadId)
      requires Valid()
      modifies this`processingTiles
      ensures Valid()
      ensures threads <= 1 ==> owner == tid && processingTiles == old(processingTiles)
      ensures threads > 1 ==> Claim(owner, processingTiles) == ClaimTile(old(processingTiles), agent, tile, tid)
    {
      if threads <= 1 {
        return tid;
      }
      if agent !in processingTiles {
        processingTiles := processingTiles[agent := map[tile := tid]];
        assert tile in processingTiles[agent];
        return tid;
      }
      if tile !in processingTiles[agent] {
        var row: map<TilePosition, ThreadId> := processingTiles[agent][tile := tid];
        assert tile in row;
        processingTiles := processingTiles[agent := row];
        return tid;
      }
      owner := processingTiles[agent][tile];
    }

    /** unlockTile: a no-op with at most one thread or when the tile is not locked. */
    method UnlockTile(agent: AgentId, tile: TilePosition)
      requires Valid()
      modifies this`processingTiles
      ensures Valid()
      ensures threads <= 1 ==> processingTiles == old(processingTiles)
      ensures threads > 1 ==> processingTiles == ReleaseTile(old(processingTiles), agent, tile)
    {
      if threads <= 1 {
        return;
      }
      if agent !in processingTiles {
        return;
      }
      if tile !in processingTiles[agent] {
        return;
      }
      var row := processingTiles[agent] - {tile};
      if row == map[] {
        processingTiles := processingTiles - {agent};
      } else {
        processingTiles := processingTiles[agent := row];
      }
    }

    /** repost: a failed job goes back to the shared queue with one more try, unless dropped. */
    method Repost(job: Job)
      requires Valid()
      modifies this`shared
      ensures Valid()
      ensures shouldStop || job.tryNumber > MaxRetriedTryNumber ==> shared == old(shared)
      ensures !shouldStop && job.tryNumber <= MaxRetriedTryNumber
        ==> shared == PushIfNew(old(shared), job.(tryNumber := job.tryNumber + 1), before)
      ensures shared == Reposted(old(shared), job, shouldStop, before)
    {
      if shouldStop || job.tryNumber > MaxRetriedTryNumber {
        return;
      }
      var retry := job.(tryNumber := job.tryNumber + 1);
      PushKeepsBounds(shared, retry, before, clock);
      shared := PushIfNew(shared, retry, before);
    }

    /** postThreadJob: hands a job to the owning thread's queue unless already pending there. */
    method PostThreadJob(job: Job, owner: ThreadId)
      requires Valid()
      requires job.processTime <= clock && job.tryNumber <= MaxRetriedTryNumber + 1
      modifies this`threadQueues
      ensures Valid()
      ensures threadQueues == old(threadQueues)[owner := PushIfNew(QueueOf(old(threadQueues), owner), job, before)]
    {
      var q := QueueOf(threadQueues, owner);
      EmptyQueueValid(before);
      PushKeepsBounds(q, job, before, clock);
      var q' := PushIfNew(q, job, before);
      threadQueues := threadQueues[owner := q'];
    }

    /** A later steady-clock reading: every job handed to a thread stays due. */
    method AdvanceClock(now: Time)
      requires Valid() && clock <= now
      modifies this`clock
      ensures Valid() && clock == now
    {
      forall t | t in threadQueues ensures AllDue(threadQueues[t].jobs, now) {
        assert AllDue(threadQueues[t].jobs, clock);
      }
      clock := now;
    }

    /** mThreadsQueues[threadId]: the thread's queue, created empty on first use. */
    method EnsureThreadQueue(tid: ThreadId)
      requires Valid()
      modifies this`threadQueues
      ensures Valid() && tid in threadQueues
      ensures old(tid in threadQueues) ==> threadQueues == old(threadQueues)
      ensures old(tid !in threadQueues) ==> threadQueues == old(threadQueues)[tid := EmptyQueue]
    {
      if tid !in threadQueues {
        EmptyQueueValid(before);
        threadQueues := threadQueues[tid := EmptyQueue];
      }
    }

    /** There is work for thread tid at time now (the predicate getNextJob waits for). */
    predicate HasJob(tid: ThreadId, now: Time)
      reads this
    {
      (shared.jobs != [] && shared.jobs[0].processTime <= now)
      || (tid in threadQueues && threadQueues[tid].jobs != [])
    }

    /**
     * getNextJob: takes jobs, from the thread's own queue first, until one is
     * claimed by the calling thread; jobs owned by other threads are handed
     * over. Returns nothing when no job is eligible (the 10 ms wait is not
     * modelled). The ghost results say which jobs were taken and handed over.
     */
    method GetNextJob(tid: ThreadId, now: Time)
      returns (job: Option<Job>, ghost handed: seq<Job>, ghost fromOwn: nat, ghost fromShared: nat)
      requires Valid() && clock <= now
      modifies this`shared, this`threadQueues, this`lastUpdates, this`processingTiles, this`clock
      ensures Valid() && clock == now
      ensures GotNextJob(threads, tid, now, old(shared), old(threadQueues), old(lastUpdates), old(processingTiles),
                         shared, threadQueues, lastUpdates, processingTiles, job, handed, fromOwn, fromShared)
      ensures job.None? ==> !HasJob(tid, now)
      ensures job.Some? ==> job.value.processTime <= now && job.value.tryNumber <= MaxRetriedTryNumber + 1
      ensures job.Some? && threads > 1 ==> Owner(processingTiles, job.value.agent, job.value.tile) == Some(tid)
    {
      ghost var shared0, qs0, lu0, locks0 := shared, threadQueues, lastUpdates, processingTiles;
      ghost var own0 := QueueOf(qs0, tid);
      AdvanceClock(now);
      EnsureThreadQueue(tid);
      handed, fromOwn, fromShared := [], 0, 0;
      StartedTracking(tid, now, shared0, qs0, lu0, threadQueues, locks0);
      while true
        invariant Valid() && clock == now && tid in threadQueues && processingTiles == locks0
        invariant TakenSoFar(now, shared0, own0, lu0, shared, threadQueues[tid], lastUpdates, handed, fromOwn, fromShared)
        invariant HandOffsSoFar(tid, qs0, threadQueues, locks0, handed)
        decreases |shared.jobs| + |threadQueues[tid].jobs|
      {
        if !HasJob(tid, now) {
          ReturnedNone(threads, tid, now, shared0, qs0, lu0, locks0, shared, threadQueues, lastUpdates,
                       handed, fromOwn, fromShared);
          return None, handed, fromOwn, fromShared;
        }
        var j: Job, claimed: bool;
        j, claimed, fromOwn, fromShared := TakeNext(tid, now, shared0, own0, lu0, qs0, locks0, handed, fromOwn, fromShared);
        if claimed {
          ReturnedSome(threads, tid, now, shared0, qs0, lu0, locks0, shared, threadQueues, lastUpdates, processingTiles,
                       j, handed, fromOwn, fromShared);
          return Some(j), handed, fromOwn, fromShared;
        }
        handed := handed + [j];
      }
    }

    /**
     * One round of getNextJob's loop: take a job, then claim its tile or hand
     * the job over; the ghost record of what was taken and handed is extended
     * accordingly.
     */
    method TakeNext(tid: ThreadId, now: Time, ghost shared0: Queue, ghost own0: Queue, ghost lu0: LastUpdates,
                    ghost qs0: map<ThreadId, Queue>, ghost locks0: LockTable,
                    ghost handed: seq<Job>, ghost fromOwn: nat, ghost fromShared: nat)
      returns (j: Job, claimed: bool, ghost fromOwn': nat, ghost fromShared': nat)
      requires Valid() && clock == now && tid in threadQueues && HasJob(tid, now) && processingTiles == locks0
      requires TakenSoFar(now, shared0, own0, lu0, shared, threadQueues[tid], lastUpdates, handed, fromOwn, fromShared)
      requires HandOffsSoFar(tid, qs0, threadQueues, locks0, handed)
      modifies this`shared, this`threadQueues, this`lastUpdates, this`processingTiles
      ensures Valid() && tid in threadQueues
      ensures |shared.jobs| + |threadQueues[tid].jobs| < old(|shared.jobs| + |threadQueues[tid].jobs|)
      ensures j.processTime <= now && j.tryNumber <= MaxRetriedTryNumber + 1
      ensures TakenSoFar(now, shared0, own0, lu0, shared, threadQueues[tid], lastUpdates, handed + [j], fromOwn', fromShared')
      ensures claimed ==>
        processingTiles == (if threads > 1 then ClaimTile(locks0, j.agent, j.tile, tid).table else locks0)
        && (threads > 1 ==> ClaimTile(locks0, j.agent, j.tile, tid).owner == tid)
        && HandOffsSoFar(tid, qs0, threadQueues, locks0, handed)
      ensures !claimed ==> processingTiles == locks0 && HandOffsSoFar(tid, qs0, threadQueues, locks0, handed + [j])
    {
      j, fromOwn', fromShared' := TakeTracked(tid, now, shared0, own0, lu0, qs0, locks0, handed, fromOwn, fromShared);
      claimed := ClaimOrHandOver(j, tid, qs0, handed);
    }

    /**
     * The claim of one round of getNextJob's loop: lock the job's tile for the
     * caller, or hand the job over when another thread owns the tile.
     */
    method ClaimOrHandOver(j: Job, tid: ThreadId, ghost qs0: map<ThreadId, Queue>, ghost handed: seq<Job>)
      returns (claimed: bool)
      requires Valid() && j.processTime <= clock && j.tryNumber <= MaxRetriedTryNumber + 1 && tid in threadQueues
      requires HandOffsSoFar(tid, qs0, threadQueues, processingTiles, handed)
      modifies this`threadQueues, this`processingTiles
      ensures Valid() && tid in threadQueues && threadQueues[tid] == old(threadQueues[tid])
      ensures claimed ==>
        processingTiles == (if threads > 1 then ClaimTile(old(processingTiles), j.agent, j.tile, tid).table else old(processingTiles))
        && (threads > 1 ==> ClaimTile(old(processingTiles), j.agent, j.tile, tid).owner == tid)
        && threadQueues == old(threadQueues)
      ensures !claimed ==> processingTiles == old(processingTiles) && HandOffsSoFar(tid, qs0, threadQueues, processingTiles, handed + [j])
    {
      var owner := LockTile(j.agent, j.tile, tid);
      claimed := owner == tid;
      if !claimed {
        HandOver(j, owner, tid, qs0, handed);
      }
    }

    /** The take of one round of getNextJob's loop, with the ghost record of what was taken extended by the job. */
    method TakeTracked(tid: ThreadId, now: Time, ghost shared0: Queue, ghost own0: Queue, ghost lu0: LastUpdates,
                       ghost qs0: map<ThreadId, Queue>, ghost locks: LockTable,
                       ghost handed: seq<Job>, ghost fromOwn: nat, ghost fromShared: nat)
      returns (j: Job, ghost fromOwn': nat, ghost fromShared': nat)
      requires Valid() && clock == now && tid in threadQueues && HasJob(tid, now)
      requires TakenSoFar(now, shared0, own0, lu0, shared, threadQueues[tid], lastUpdates, handed, fromOwn, fromShared)
      requires HandOffsSoFar(tid, qs0, threadQueues, locks, handed)
      modifies this`shared, this`threadQueues, this`lastUpdates
      ensures Valid() && tid in threadQueues
      ensures |shared.jobs| + |threadQueues[tid].jobs| < old(|shared.jobs| + |threadQueues[tid].jobs|)
      ensures j.processTime <= now && j.tryNumber <= MaxRetriedTryNumber + 1
      ensures TakenSoFar(now, shared0, own0, lu0, shared, threadQueues[tid], lastUpdates, handed + [j], fromOwn', fromShared')
      ensures HandOffsSoFar(tid, qs0, threadQueues, locks, handed)
    {
      ghost var s, qs, lu := shared, threadQueues, lastUpdates;
      j := TakeJob(tid, now);
      if qs[tid].jobs != [] {
        TakeOwnStep(now, shared0, own0, lu0, s, qs[tid], lu, handed, fromOwn, fromShared, threadQueues[tid]);
        OwnQueueStep(tid, qs0, qs, threadQueues, locks, handed, threadQueues[tid]);
        fromOwn', fromShared' := fromOwn + 1, fromShared;
      } else {
        TakeSharedStep(now, shared0, own0, lu0, s, qs[tid], lu, handed, fromOwn, fromShared, shared);
        fromOwn', fromShared' := fromOwn, fromShared + 1;
      }
    }

    /** getNextJob's hand-off of a job whose tile another thread owns, with the ghost record extended by it. */
    method HandOver(j: Job, owner: ThreadId, tid: ThreadId, ghost qs0: map<ThreadId, Queue>, ghost handed: seq<Job>)
      requires Valid() && j.processTime <= clock && j.tryNumber <= MaxRetriedTryNumber + 1
      requires owner != tid && Owner(processingTiles, j.agent, j.tile) == Some(owner) && tid in threadQueues
      requires HandOffsSoFar(tid, qs0, threadQueues, processingTiles, handed)
      modifies this`threadQueues
      ensures Valid() && tid in threadQueues && threadQueues[tid] == old(threadQueues[tid])
      ensures HandOffsSoFar(tid, qs0, threadQueues, processingTiles, handed + [j])
    {
      ghost var qs := threadQueues;
      PostThreadJob(j, owner);
      PushIfNewGainsOne(QueueOf(qs, owner), j, before);
      HandOffStep(tid, qs0, qs, threadQueues, processingTiles, handed, j, owner, threadQueues[owner]);
    }

    /**
     * The job getNextJob takes once one is eligible: the top of the thread's own
     * queue when that is not empty, otherwise the top of the shared queue, which
     * is due. Both getJob calls then succeed.
     */
    method TakeJob(tid: ThreadId, now: Time) returns (job: Job)
      requires Valid() && clock == now && tid in threadQueues && HasJob(tid, now)
      modifies this`shared, this`threadQueues, this`lastUpdates
      ensures Valid() && tid in threadQueues
      ensures |shared.jobs| + |threadQueues[tid].jobs| + 1 == old(|shared.jobs| + |threadQueues[tid].jobs|)
      ensures job.processTime <= clock && job.tryNumber <= MaxRetriedTryNumber + 1
      ensures old(threadQueues[tid].jobs) != [] ==>
        job == old(threadQueues[tid].jobs[0]) && shared == old(shared) && lastUpdates == old(lastUpdates)
        && threadQueues == old(threadQueues)[tid := PopTop(old(threadQueues[tid]), before)]
      ensures old(threadQueues[tid].jobs) == [] ==>
        job == old(shared.jobs[0]) && shared == PopTop(old(shared), before) && threadQueues == old(threadQueues)
        && lastUpdates == (if job.changeType == Update then old(lastUpdates)[job.agent := RowOf(old(lastUpdates), job.agent)[job.tile := now]]
                           else old(lastUpdates))
    {
      var own := threadQueues[tid];
      var taken: Option<Job>;
      if own.jobs == [] {
        assert shared.jobs[0] in shared.jobs;
        TailKeepsBounds(shared.jobs, clock);
        taken, shared := GetJob(shared, true, now);
      } else {
        assert own.jobs[0] in own.jobs;
        TailKeepsBounds(own.jobs, clock);
        var rest;
        taken, rest := GetJob(own, false, now);
        threadQueues := threadQueues[tid := rest];
      }
      job := taken.value;
    }

    /**
     * cleanupLastUpdates: erases every debounce entry older than the interval
     * and every agent left without entries.
     */
    method CleanupLastUpdates(now: Time)
      requires Valid() && clock <= now
      modifies this`lastUpdates, this`clock
      ensures Valid() && clock == now
      ensures lastUpdates == Cleaned(old(lastUpdates), now, minUpdateInterval)
    {
      AdvanceClock(now);
      var lu := lastUpdates;
      ghost var goal := Cleaned(lastUpdates, now, minUpdateInterval);
      var agents := lu.Keys;
      while agents != {}
        invariant agents <= lastUpdates.Keys && lu.Keys <= lastUpdates.Keys
        invariant forall a :: a in agents ==> a in lu && lu[a] == lastUpdates[a]
        invariant forall a :: a in lu && a !in agents ==> a in goal && lu[a] == goal[a]
        invariant forall a :: a in goal && a !in agents ==> a in lu
        modifies {}
        decreases agents
      {
        var a :| a in agents;
        var row := CleanupRow(lu[a], now, minUpdateInterval);
        if row == map[] {
          lu := lu - {a};
        } else {
          lu := lu[a := row];
        }
        agents := agents - {a};
      }
      assert lu == goal;
      lastUpdates := lu;
    }

    /** The first step of the destructor: workers stop reposting and leave their loops. */
    method RequestStop()
      requires Valid()
      modifies this`shouldStop
      ensures Valid() && shouldStop
    {
      shouldStop := true;
    }

    /**
     * What process() does with a job after processJob reported outcome: unlock
     * its tile and repost it when the bake failed; an exception skips both.
     */
    method FinishJob(job: Job, outcome: BakeOutcome)
      requires Valid()
      modifies this`shared, this`processingTiles
      ensures Valid()
      ensures outcome == Threw ==> shared == old(shared) && processingTiles == old(processingTiles)
      ensures outcome != Threw ==>
        processingTiles == (if threads > 1 then ReleaseTile(old(processingTiles), job.agent, job.tile) else old(processingTiles))
        && Owner(processingTiles, job.agent, job.tile) == None
      ensures IsProcessed(outcome) ==> shared == old(shared)
      ensures outcome == BakeFailed ==> shared == Reposted(old(shared), job, shouldStop, before)
    {
      if outcome != Threw {
        UnlockTile(job.agent, job.tile);
        if outcome == BakeFailed {
          Repost(job);
        }
      }
    }

    /**
     * One iteration of a worker's process loop: take a job, bake it (the
     * outcome is a parameter), unlock its tile, and repost it if the bake
     * failed; with no job, clean up the debounce table. A bake that throws
     * skips both the unlock and the repost. The ghost results name the state
     * right after getNextJob. getNextJob reads the steady clock as `now`;
     * cleanupLastUpdates takes its own, later reading `cleanupNow`.
     */
    method ProcessStep(tid: ThreadId, now: Time, cleanupNow: Time, bake: Job -> BakeOutcome)
      returns (job: Option<Job>, ghost handed: seq<Job>, ghost fromOwn: nat, ghost fromShared: nat,
               ghost midShared: Queue, ghost midQueues: map<ThreadId, Queue>,
               ghost midLastUpdates: LastUpdates, ghost midLocks: LockTable)
      requires Valid() && clock <= now <= cleanupNow
      modifies this`shared, this`threadQueues, this`lastUpdates, this`processingTiles, this`clock
      ensures Valid()
      ensures old(shouldStop) ==>
        (job == None && shared == old(shared) && threadQueues == old(threadQueues)
         && lastUpdates == old(lastUpdates) && processingTiles == old(processingTiles))
      ensures !old(shouldStop) ==> clock == (if job.None? then cleanupNow else now)
      ensures !old(shouldStop) ==>
        GotNextJob(threads, tid, now, old(shared), old(threadQueues), old(lastUpdates), old(processingTiles),
                   midShared, midQueues, midLastUpdates, midLocks, job, handed, fromOwn, fromShared)
      ensures job.None? && !old(shouldStop) ==>
        shared == midShared && threadQueues == midQueues && processingTiles == midLocks
        && lastUpdates == Cleaned(midLastUpdates, cleanupNow, minUpdateInterval)
      ensures job.None? && !old(shouldStop)
        ==> forall a, t :: a in lastUpdates && t in lastUpdates[a] ==> cleanupNow - lastUpdates[a][t] <= minUpdateInterval
      ensures job.Some? ==> threadQueues == midQueues && lastUpdates == midLastUpdates
      ensures job.Some? && bake(job.value) == Threw ==> shared == midShared && processingTiles == midLocks
      ensures job.Some? && bake(job.value) == Threw && threads > 1
        ==> Owner(processingTiles, job.value.agent, job.value.tile) == Some(tid)
      ensures job.Some? && bake(job.value) != Threw ==>
        processingTiles == (if threads > 1 then ReleaseTile(midLocks, job.value.agent, job.value.tile) else midLocks)
        && Owner(processingTiles, job.value.agent, job.value.tile) == None
      ensures job.Some? && IsProcessed(bake(job.value)) ==> shared == midShared
      ensures job.Some? && bake(job.value) == BakeFailed ==> shared == Reposted(midShared, job.value, shouldStop, before)
    {
      midShared, midQueues, midLastUpdates, midLocks := shared, threadQueues, lastUpdates, processingTiles;
      if shouldStop {
        return None, [], 0, 0, midShared, midQueues, midLastUpdates, midLocks;
      }
      job, handed, fromOwn, fromShared := GetNextJob(tid, now);
      midShared, midQueues, midLastUpdates, midLocks := shared, threadQueues, lastUpdates, processingTiles;
      if job.Some? {
        FinishJob(job.value, bake(job.value));
      } else {
        CleanupLastUpdates(cleanupNow);
        CleanedKeepsExactlyFresh(midLastUpdates, cleanupNow, minUpdateInterval);
      }
    }
  }
}
