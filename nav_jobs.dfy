// Value-level part of the navmesh tile-update scheduler: tiles, change types,
// jobs, the pending-tile sets ("pushed") and the priority queue of jobs.

module NavJobs {

  /** Integer grid coordinate of a navmesh tile. */
  datatype TilePosition = TilePosition(x: int, y: int)

  /** The kind of change posted for a tile. */
  datatype ChangeType = Remove | Add | Update

  /** Stands for an agent's half extents, which key every per-agent table. */
  type AgentId = nat

  /** Stands for the weak reference to the shared navmesh cache item. */
  type HandleId = nat

  /** A steady-clock time point; 0 is the clock's epoch (a default time_point). */
  type Time = int

  /** The (agent, tile) pair that the pending sets and the lock table are keyed by. */
  type Key = (AgentId, TilePosition)

  datatype Job = Job(
    agent: AgentId,
    handle: HandleId,
    tile: TilePosition,
    tryNumber: nat,
    changeType: ChangeType,
    distanceToPlayer: int,
    distanceToOrigin: int,
    processTime: Time)

  function KeyOf(j: Job): Key { (j.agent, j.tile) }

  function Abs(x: int): (r: int)
    ensures r >= 0 && (r == x || r == -x)
  {
    if x < 0 then -x else x
  }

  /** getManhattanDistance: |dx| + |dy|. */
  function ManhattanDistance(a: TilePosition, b: TilePosition): (d: int)
    ensures d >= 0
    ensures d == 0 <==> a == b
  {
    Abs(a.x - b.x) + Abs(a.y - b.y)
  }

  const Origin := TilePosition(0, 0)

  lemma ManhattanSymmetric(a: TilePosition, b: TilePosition)
    ensures ManhattanDistance(a, b) == ManhattanDistance(b, a)
  {
  }

  // ---------------------------------------------------------------------
  // The ordering of the priority queue. Its comparator is not part of this
  // model, so it is a parameter: `before(a, b)` means a may be served no later
  // than b. It must be a total preorder.

  ghost predicate TotalPreorder(before: (Job, Job) -> bool)
  {
    && (forall a: Job, b: Job :: before(a, b) || before(b, a))
    && (forall a: Job, b: Job, c: Job :: before(a, b) && before(b, c) ==> before(a, c))
  }

  ghost predicate Sorted(s: seq<Job>, before: (Job, Job) -> bool)
  {
    forall i, k :: 0 <= i < k < |s| ==> before(s[i], s[k])
  }

  /** No two queued jobs share an (agent, tile) pair. */
  predicate UniqueKeys(s: seq<Job>)
  {
    forall i, k :: 0 <= i < k < |s| ==> KeyOf(s[i]) != KeyOf(s[k])
  }

  function KeySet(s: seq<Job>): set<Key>
  {
    set j | j in s :: KeyOf(j)
  }

  function JobSet(s: seq<Job>): set<Job>
  {
    set j | j in s
  }

  /**
   * Priority-queue push: inserts j after every job that must be served no
   * later than it, so that the head stays a job that is served first.
   */
  function InsertJob(s: seq<Job>, j: Job, before: (Job, Job) -> bool): (r: seq<Job>)
    ensures |r| == |s| + 1
    ensures multiset(r) == multiset(s) + multiset{j}
    ensures TotalPreorder(before) && Sorted(s, before) ==> Sorted(r, before)
  {
    if s == [] then [j]
    else if before(j, s[0]) && !before(s[0], j) then [j] + s
    else
      var rest := InsertJob(s[1..], j, before);
      assert s == [s[0]] + s[1..];
      assert forall x :: x in rest ==> x in s[1..] || x == j by {
        forall x | x in rest ensures x in s[1..] || x == j {
          assert x in multiset(rest);
        }
      }
      var r := [s[0]] + rest;
      assert TotalPreorder(before) && Sorted(s, before) ==> Sorted(r, before) by {
        if TotalPreorder(before) && Sorted(s, before) {
          SortedTail(s, before);
          forall x | x in rest ensures before(s[0], x) {
            if x != j {
              var m :| 0 <= m < |s[1..]| && s[1..][m] == x;
              assert s[m + 1] == x;
            }
          }
          SortedCons(s[0], rest, before);
        }
      }
      r
  }

  lemma SortedTail(s: seq<Job>, before: (Job, Job) -> bool)
    requires s != [] && Sorted(s, before)
    ensures Sorted(s[1..], before)
  {
    forall i, k | 0 <= i < k < |s[1..]| ensures before(s[1..][i], s[1..][k]) {
      assert s[1..][i] == s[i + 1] && s[1..][k] == s[k + 1];
    }
  }

  lemma SortedCons(x: Job, s: seq<Job>, before: (Job, Job) -> bool)
    requires Sorted(s, before) && forall y :: y in s ==> before(x, y)
    ensures Sorted([x] + s, before)
  {
    var r := [x] + s;
    forall i, k | 0 <= i < k < |r| ensures before(r[i], r[k]) {
      assert r[k] == s[k - 1];
      if i > 0 {
        assert r[i] == s[i - 1];
      }
    }
  }

  lemma MembersOfInsert(s: seq<Job>, j: Job, before: (Job, Job) -> bool, x: Job)
    ensures x in InsertJob(s, j, before) <==> x in s || x == j
  {
    var r := InsertJob(s, j, before);
    assert x in r <==> x in multiset(r);
    assert x in s <==> x in multiset(s);
  }

  lemma {:induction false} InsertKeepsKeysUnique(s: seq<Job>, j: Job, before: (Job, Job) -> bool)
    requires UniqueKeys(s)
    requires KeyOf(j) !in KeySet(s)
    ensures UniqueKeys(InsertJob(s, j, before))
    ensures KeySet(InsertJob(s, j, before)) == KeySet(s) + {KeyOf(j)}
  {
    var r := InsertJob(s, j, before);
    if s == [] {
    } else if before(j, s[0]) && !before(s[0], j) {
      assert r == [j] + s;
      forall i, k | 0 <= i < k < |r| ensures KeyOf(r[i]) != KeyOf(r[k]) {
        if i == 0 {
          assert r[k] == s[k - 1];
        } else {
          assert r[i] == s[i - 1] && r[k] == s[k - 1];
        }
      }
    } else {
      var rest := InsertJob(s[1..], j, before);
      assert r == [s[0]] + rest;
      TailKeys(s);
      InsertKeepsKeysUnique(s[1..], j, before);
      assert KeyOf(s[0]) !in KeySet(rest);
      UniqueCons(s[0], rest);
    }
    KeySetOfInsert(s, j, before);
  }

  lemma UniqueCons(x: Job, s: seq<Job>)
    requires UniqueKeys(s) && KeyOf(x) !in KeySet(s)
    ensures UniqueKeys([x] + s)
  {
    var r := [x] + s;
    forall i, k | 0 <= i < k < |r| ensures KeyOf(r[i]) != KeyOf(r[k]) {
      assert r[k] == s[k - 1];
      if i > 0 {
        assert r[i] == s[i - 1];
      } else {
        assert s[k - 1] in s;
      }
    }
  }

  lemma KeySetOfInsert(s: seq<Job>, j: Job, before: (Job, Job) -> bool)
    ensures KeySet(InsertJob(s, j, before)) == KeySet(s) + {KeyOf(j)}
  {
    var r := InsertJob(s, j, before);
    forall key ensures key in KeySet(r) <==> key in KeySet(s) + {KeyOf(j)} {
      if key in KeySet(r) {
        var x :| x in r && KeyOf(x) == key;
        MembersOfInsert(s, j, before, x);
      }
      if key in KeySet(s) {
        var x :| x in s && KeyOf(x) == key;
        MembersOfInsert(s, j, before, x);
      }
      if key == KeyOf(j) {
        MembersOfInsert(s, j, before, j);
      }
    }
  }

  /** Dropping the head of a queue with unique keys removes exactly the head's key. */
  lemma {:induction false} TailKeys(s: seq<Job>)
    requires s != [] && UniqueKeys(s)
    ensures UniqueKeys(s[1..])
    ensures KeySet(s[1..]) == KeySet(s) - {KeyOf(s[0])}
  {
    forall i, k | 0 <= i < k < |s[1..]| ensures KeyOf(s[1..][i]) != KeyOf(s[1..][k]) {
      assert s[1..][i] == s[i + 1] && s[1..][k] == s[k + 1];
    }
    forall key ensures key in KeySet(s[1..]) <==> key in KeySet(s) - {KeyOf(s[0])} {
      if key in KeySet(s[1..]) {
        var x :| x in s[1..] && KeyOf(x) == key;
        var m :| 0 <= m < |s[1..]| && s[1..][m] == x;
        assert s[m + 1] == x;
      }
      if key in KeySet(s) && key != KeyOf(s[0]) {
        var x :| x in s && KeyOf(x) == key;
        var m :| 0 <= m < |s| && s[m] == x;
        assert m != 0;
        assert s[1..][m - 1] == x;
      }
    }
  }

  // ---------------------------------------------------------------------
  // Pending sets: agent -> tiles having a queued job (mPushed).

  type Pushed = map<AgentId, set<TilePosition>>

  predicate IsPending(p: Pushed, a: AgentId, t: TilePosition)
  {
    a in p && t in p[a]
  }

  function PushedSet(p: Pushed): set<Key>
  {
    set a, t | a in p && t in p[a] :: (a, t)
  }

  /** Agents are erased once their last tile is taken, so no entry is empty. */
  predicate NoEmptyEntries(p: Pushed)
  {
    forall a :: a in p ==> p[a] != {}
  }

  /** mPushed[a].insert(t): the entry for a is created if absent. */
  function AddPending(p: Pushed, a: AgentId, t: TilePosition): (r: Pushed)
    ensures PushedSet(r) == PushedSet(p) + {(a, t)}
    ensures NoEmptyEntries(p) ==> NoEmptyEntries(r)
    ensures forall b :: b != a ==> (b in r <==> b in p) && (b in p ==> r[b] == p[b])
  {
    var r := p[a := (if a in p then p[a] else {}) + {t}];
    assert PushedSet(r) == PushedSet(p) + {(a, t)} by {
      forall key ensures key in PushedSet(r) <==> key in PushedSet(p) + {(a, t)} {
        if key in PushedSet(r) {
          var b, u :| b in r && u in r[b] && key == (b, u);
        }
        if key in PushedSet(p) {
          var b, u :| b in p && u in p[b] && key == (b, u);
          assert u in r[b];
        }
      }
    }
    r
  }

  /** The erase in getJob: drops t from a's set and erases a when the set becomes empty. */
  function RemovePending(p: Pushed, a: AgentId, t: TilePosition): (r: Pushed)
    requires a in p
    ensures PushedSet(r) == PushedSet(p) - {(a, t)}
    ensures NoEmptyEntries(p) ==> NoEmptyEntries(r)
    ensures a in r <==> p[a] - {t} != {}
    ensures forall b :: b != a ==> (b in r <==> b in p) && (b in p ==> r[b] == p[b])
  {
    var rest := p[a] - {t};
    var r := if rest == {} then p - {a} else p[a := rest];
    assert PushedSet(r) == PushedSet(p) - {(a, t)} by {
      forall key ensures key in PushedSet(r) <==> key in PushedSet(p) - {(a, t)} {
        if key in PushedSet(r) {
          var b, u :| b in r && u in r[b] && key == (b, u);
        }
        if key in PushedSet(p) - {(a, t)} {
          var b, u :| b in p && u in p[b] && key == (b, u);
          if b == a {
            assert u in rest;
          }
          assert b in r && u in r[b];
        }
      }
    }
    r
  }

  lemma PendingMeansInPushedSet(p: Pushed, a: AgentId, t: TilePosition)
    ensures IsPending(p, a, t) <==> (a, t) in PushedSet(p)
  {
  }

  /** A pending map whose pairs are all gone and whose entries are never empty is empty. */
  lemma {:induction false} NoPairsMeansEmpty(p: Pushed)
    requires NoEmptyEntries(p) && PushedSet(p) == {}
    ensures p == map[]
  {
    if p != map[] {
      NonEmptyHasPair(p);
    }
  }

  lemma NonEmptyHasPair(p: Pushed)
    requires NoEmptyEntries(p) && p != map[]
    ensures PushedSet(p) != {}
  {
    var a :| a in p;
    var t :| t in p[a];
    assert (a, t) in PushedSet(p);
  }

  // ---------------------------------------------------------------------
  // A queue as the scheduler keeps it: the jobs and the pending sets beside them.

  datatype Queue = Queue(jobs: seq<Job>, pushed: Pushed)

  const EmptyQueue := Queue([], map[])

  /**
   * The queue invariant: jobs are in priority order, one job per (agent, tile),
   * and the pending sets hold exactly the pairs that have a queued job.
   */
  ghost predicate QueueValid(q: Queue, before: (Job, Job) -> bool)
  {
    && Sorted(q.jobs, before)
    && UniqueKeys(q.jobs)
    && KeySet(q.jobs) == PushedSet(q.pushed)
    && NoEmptyEntries(q.pushed)
  }

  lemma EmptyQueueValid(before: (Job, Job) -> bool)
    ensures QueueValid(EmptyQueue, before)
  {
  }

  /**
   * The push in post, repost and postThreadJob: the job is queued iff its tile
   * was not already pending, and the queue stays valid.
   */
  function PushIfNew(q: Queue, j: Job, before: (Job, Job) -> bool): (r: Queue)
    ensures PushedSet(r.pushed) == PushedSet(q.pushed) + {KeyOf(j)}
    ensures IsPending(q.pushed, j.agent, j.tile) ==> r.jobs == q.jobs
    ensures !IsPending(q.pushed, j.agent, j.tile) ==> multiset(r.jobs) == multiset(q.jobs) + multiset{j}
    ensures !IsPending(q.pushed, j.agent, j.tile) ==> JobSet(r.jobs) == JobSet(q.jobs) + {j}
    ensures TotalPreorder(before) && QueueValid(q, before) ==> QueueValid(r, before)
  {
    var p := AddPending(q.pushed, j.agent, j.tile);
    if IsPending(q.pushed, j.agent, j.tile) then
      assert PushedSet(p) == PushedSet(q.pushed);
      Queue(q.jobs, p)
    else
      var r := Queue(InsertJob(q.jobs, j, before), p);
      assert JobSet(r.jobs) == JobSet(q.jobs) + {j} by {
        forall x ensures x in JobSet(r.jobs) <==> x in JobSet(q.jobs) + {j} {
          MembersOfInsert(q.jobs, j, before, x);
        }
      }
      assert TotalPreorder(before) && QueueValid(q, before) ==> QueueValid(r, before) by {
        if TotalPreorder(before) && QueueValid(q, before) {
          assert KeyOf(j) !in KeySet(q.jobs);
          InsertKeepsKeysUnique(q.jobs, j, before);
        }
      }
      r
  }

  /** Pop of the top job together with the erase from the pending sets (getJob). */
  function PopTop(q: Queue, before: (Job, Job) -> bool): (r: Queue)
    requires q.jobs != []
    requires QueueValid(q, before)
    ensures r.jobs == q.jobs[1..]
    ensures QueueValid(r, before)
    ensures PushedSet(r.pushed) == PushedSet(q.pushed) - {KeyOf(q.jobs[0])}
  {
    var top := q.jobs[0];
    assert top in q.jobs;
    assert KeyOf(top) in PushedSet(q.pushed);
    TailKeys(q.jobs);
    Queue(q.jobs[1..], RemovePending(q.pushed, top.agent, top.tile))
  }

  /** The head of a sorted queue is served no later than any queued job. */
  lemma TopIsFirst(q: Queue, before: (Job, Job) -> bool, j: Job)
    requires QueueValid(q, before) && q.jobs != [] && j in q.jobs
    requires TotalPreorder(before)
    ensures before(q.jobs[0], j)
  {
    var k :| 0 <= k < |q.jobs| && q.jobs[k] == j;
  }

  /** A valid queue with no jobs has no pending tiles. */
  lemma EmptyJobsNothingPending(q: Queue, before: (Job, Job) -> bool)
    requires QueueValid(q, before) && q.jobs == []
    ensures q.pushed == map[]
  {
    NoPairsMeansEmpty(q.pushed);
  }

  // ---------------------------------------------------------------------
  // Thread queues and their total size (getTotalThreadJobsUnsafe).

  type ThreadId = nat

  ghost function TotalJobs(qs: map<ThreadId, Queue>): nat
  {
    if qs == map[] then 0
    else
      var t :| t in qs;
      |qs[t].jobs| + TotalJobs(qs - {t})
  }

  lemma {:induction false} TotalJobsZero(qs: map<ThreadId, Queue>)
    ensures TotalJobs(qs) == 0 <==> forall t :: t in qs ==> qs[t].jobs == []
  {
    if qs != map[] {
      var t :| t in qs && TotalJobs(qs) == |qs[t].jobs| + TotalJobs(qs - {t});
      TotalJobsZero(qs - {t});
      assert forall u :: u in qs && u != t ==> u in qs - {t};
    }
  }
}
