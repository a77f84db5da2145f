/** Recovery: what one maintenance pass guarantees, how a queued job reaches a worker, and what the
    code does not guarantee when the reaper's snapshot is stale. */
module JobRecovery {
  import opened Wrappers
  import opened JobStates
  import opened JobProtocol
  import opened JobInvariant
  import opened JobSafety
  import opened JobRuns

  // ---- maintenance ------------------------------------------------------------------------

  /** The reaper's loop over its list of rows. */
  function ReapAll(s: System, jobs: seq<JobId>): System
    decreases jobs
  {
    if jobs == [] then s else ReapAll(ReapStep(s, jobs[0]), jobs[1..])
  }

  predicate ListsExpired(s: System, jobs: seq<JobId>) {
    forall j :: j in s.db.rows && Expired(s.db.rows[j], s.now) ==> j in jobs
  }

  /** What reaping `job` leaves: its row no longer expired, every other row as it was. */
  lemma ReapOnce(s: System, job: JobId)
    requires Inv(s)
    ensures
      var s' := ReapStep(s, job);
      && s'.now == s.now && s'.db.rows.Keys == s.db.rows.Keys
      && (job in s.db.rows ==> !Expired(s'.db.rows[job], s.now))
      && (forall j :: j in s.db.rows && j != job ==> s'.db.rows[j] == s.db.rows[j])
      && (job in s.db.rows ==> (SettledState(s'.db.rows[job].state) <==> SettledState(s.db.rows[job].state)))
  {
    if job in s.db.rows && Expired(s.db.rows[job], s.now) {
      var db1 := Move(s.db, job, FailedRetryable, None, s.now);
      assert Transition(s.db, job, s.db.rows[job].state, FailedRetryable, None, s.now) == (db1, Done);
    }
  }

  lemma {:induction false} ReapAllReaps(s: System, jobs: seq<JobId>)
    requires Inv(s)
    ensures
      var s' := ReapAll(s, jobs);
      && Inv(s') && s'.now == s.now && s'.db.rows.Keys == s.db.rows.Keys
      && (forall j :: j in s.db.rows && Expired(s'.db.rows[j], s.now) ==> Expired(s.db.rows[j], s.now) && j !in jobs)
      && (forall j :: j in s.db.rows ==> (SettledState(s'.db.rows[j].state) <==> SettledState(s.db.rows[j].state)))
    decreases jobs
  {
    if jobs != [] {
      var s1 := ReapStep(s, jobs[0]);
      ReapKeeps(s, jobs[0]);
      ReapOnce(s, jobs[0]);
      ReapAllReaps(s1, jobs[1..]);
      var s' := ReapAll(s, jobs);
      forall j | j in s.db.rows && Expired(s'.db.rows[j], s.now)
        ensures Expired(s.db.rows[j], s.now) && j !in jobs
      {
        assert Expired(s1.db.rows[j], s.now) && j !in jobs[1..];
      }
    }
  }

  predicate Safe(s: System, minAge: int, row: Row, job: JobId) {
    || row.state in TERMINAL
    || (row.state == Queued && (job in s.queue || s.now - minAge <= row.updated))
    || (row.state in IN_FLIGHT && row.lease.Some? && s.now <= row.lease.value)
  }

  /** One maintenance pass secures exactly the jobs that rest where a job can rest: each of them is
      finished, in the queue, too recently queued to be judged, or in flight under an unexpired lease.
      Reconciling again at once would enqueue nothing. */
  lemma MaintenanceSecures(s: System, jobs: seq<JobId>, ids: seq<JobId>, minAge: int)
    requires Inv(s)
    requires ListsExpired(s, jobs) && ListsMissing(ReapAll(s, jobs), minAge, ids)
    ensures
      var s' := ReconcileStep(ReapAll(s, jobs), minAge, ids);
      && Inv(s') && s'.db.rows.Keys == s.db.rows.Keys
      && (forall j :: j in s.db.rows ==> (Safe(s', minAge, s'.db.rows[j], j) <==> SettledState(s.db.rows[j].state)))
      && ListsMissing(s', minAge, [])
  {
    ReapAllReaps(s, jobs);
    var s1 := ReapAll(s, jobs);
    var s' := ReconcileStep(s1, minAge, ids);
    TransportKeeps(s1, s');
    forall j | j in s.db.rows ensures Safe(s', minAge, s'.db.rows[j], j) <==> SettledState(s.db.rows[j].state) {
      assert JobOk(s1.db, j);
      if s1.db.rows[j].state == Queued { assert IsMissing(s1, minAge, j) ==> j in ids; }
    }
    forall j | j in s'.db.rows ensures !IsMissing(s', minAge, j) {
      assert IsMissing(s1, minAge, j) ==> j in ids;
    }
  }

  // ---- delivery ---------------------------------------------------------------------------

  function Round(w: WorkerId): seq<Action> {
    [Reserve(w), Take(w), Finish(w), Ack(w)]
  }

  lemma ServeSteps(s: System, w: WorkerId)
    requires Inv(s) && w in s.live && s.live[w].Reserved?
    ensures
      var k := s.live[w].job;
      var s' := Next(Next(Next(s, Take(w)), Finish(w)), Ack(w));
      && w in s'.live && s'.live[w] == Idle && s'.queue == s.queue
      && (forall j :: j in s.db.rows && j != k ==> j in s'.db.rows && s'.db.rows[j] == s.db.rows[j])
  {
  }

  /** One round of an idle worker uses up the right end of the queue and touches no other job. */
  lemma RoundServes(s: System, w: WorkerId)
    requires Inv(s) && w in s.live && s.live[w] == Idle && s.queue != []
    ensures
      var k := s.queue[|s.queue| - 1];
      var s' := Exec(s, Round(w));
      && Inv(s') && w in s'.live && s'.live[w] == Idle
      && s'.queue == s.queue[..|s.queue| - 1]
      && (forall j :: j in s.db.rows && j != k ==> j in s'.db.rows && s'.db.rows[j] == s.db.rows[j])
  {
    ExecKeeps(s, Round(w));
    var s1 := Next(s, Reserve(w));
    NextKeeps(s, Reserve(w));
    ServeSteps(s1, w);
    ExecFour(s, Reserve(w), Take(w), Finish(w), Ack(w));
  }

  // ---- the order of the queue -------------------------------------------------------------

  /** `q'` is `q` with entries that will be served later. */
  ghost predicate Behind(q: seq<JobId>, q': seq<JobId>) {
    exists later :: q' == later + q
  }

  lemma {:induction false} PushedBehind(q: seq<JobId>, ids: seq<JobId>)
    ensures Behind(q, PushAll(q, ids))
    decreases ids
  {
    if ids == [] {
      assert q == [] + q;
    } else {
      PushedBehind([ids[0]] + q, ids[1..]);
      var later :| PushAll(q, ids) == later + ([ids[0]] + q);
      assert PushAll(q, ids) == (later + [ids[0]]) + q;
    }
  }

  /** No step but a flush of the transport puts anything before what waits: a reservation takes the entry
      that has waited longest, and whatever is enqueued, retried, reconciled, delivered again or released
      by a restarted worker waits behind. */
  lemma NoOvertaking(s: System, a: Action)
    requires !a.Flush?
    ensures
      var q' := Next(s, a).queue;
      || Behind(s.queue, q')
      || (a.Reserve? && s.queue != [] && q' == s.queue[..|s.queue| - 1]
          && Next(s, a).live[a.w] == Reserved(s.queue[|s.queue| - 1]))
  {
    var q, q' := s.queue, Next(s, a).queue;
    if a.Reconcile? {
      PushedBehind(q, a.ids);
      assert q == [] + q;
    } else if a.Start? {
      assert q' == ListOf(s.processing, a.w) + q || q' == [] + q;
    } else {
      assert a.Reserve? || q' == [] + q || exists j: JobId :: q' == [j] + q;
    }
  }

  /** A queued job in the transport reaches the first worker that keeps serving: after as many
      rounds as there are entries to the right of it, the worker runs it. */
  lemma {:induction false} QueuedJobReachesWorker(s: System, w: WorkerId, i: nat) returns (acts: seq<Action>)
    requires Inv(s) && w in s.live && s.live[w] == Idle
    requires i < |s.queue| && InState(s.db, s.queue[i], Queued)
    requires forall k :: i < k < |s.queue| ==> s.queue[k] != s.queue[i]
    ensures Holds(Exec(s, acts), w, s.queue[i])
    decreases |s.queue|
  {
    if i == |s.queue| - 1 {
      acts := [Reserve(w), Take(w)];
      assert acts[1..] == [Take(w)];
      var s1 := Next(s, Reserve(w));
      assert Exec(s, acts) == Exec(s1, [Take(w)]) == Next(s1, Take(w));
    } else {
      RoundServes(s, w);
      var s1 := Exec(s, Round(w));
      var rest := QueuedJobReachesWorker(s1, w, i);
      acts := Round(w) + rest;
      ExecConcat(s, Round(w), rest);
    }
  }

  // ---- what is not guaranteed -------------------------------------------------------------

  /** The reaper's iteration on a row read earlier: its compare-and-set looks at the state only. */
  function StaleReapStep(s: System, job: JobId, snap: Row): System {
    var (db1, again) := ReapRow(s.db, job, snap.state, snap.attempts, snap.maxAttempts, s.now);
    s.(db := db1, queue := if again then Enqueued(s.queue, job) else s.queue)
  }

  lemma LostHolder(s: System, s': System, w: WorkerId, job: JobId)
    requires Inv(s) && Holds(s, w, job) && s'.live == s.live
    requires job in s'.db.rows && s'.db.rows[job].state !in IN_FLIGHT
    ensures !Inv(s')
  {
    assert HolderOk(s, w);
    assert !HolderOk(s', w);
  }

  predicate ReadingStillTrue(s: System, job: JobId, snap: Row)
    requires job in s.db.rows
  {
    snap.attempts < snap.maxAttempts ==> s.db.rows[job].attempts < Cap(snap.maxAttempts)
  }

  /** When a stale reap hits, exactly two things keep it harmless: no live worker holds the job, and
      the attempts read earlier do not promise a retry the job no longer has. */
  lemma StaleReapSafeIff(s: System, job: JobId, snap: Row)
    requires Inv(s) && job in s.db.rows && snap.maxAttempts == s.db.rows[job].maxAttempts
    requires snap.state in IN_FLIGHT && s.db.rows[job].state == snap.state
    ensures Inv(StaleReapStep(s, job, snap)) <==> (forall w :: !Holds(s, w, job)) && ReadingStillTrue(s, job, snap)
  {
    var s' := StaleReapStep(s, job, snap);
    StaleReapMoves(s, job, snap);
    if Inv(s') {
      assert JobOk(s'.db, job);
      forall w ensures !Holds(s, w, job) {
        if Holds(s, w, job) { LostHolder(s, s', w, job); }
      }
    }
    if (forall w :: !Holds(s, w, job)) && ReadingStillTrue(s, job, snap) { StaleReapKeeps(s, job, snap); }
  }

  lemma StaleReapMoves(s: System, job: JobId, snap: Row)
    requires InState(s.db, job, snap.state) && snap.state in IN_FLIGHT
    ensures
      var db1 := Move(s.db, job, FailedRetryable, None, s.now);
      var dst := if snap.attempts < snap.maxAttempts then Queued else FailedTerminal;
      StaleReapStep(s, job, snap).db == Move(db1, job, dst, None, s.now)
  {
  }

  lemma StaleReapKeeps(s: System, job: JobId, snap: Row)
    requires Inv(s) && InState(s.db, job, snap.state) && snap.state in IN_FLIGHT
    requires snap.maxAttempts == s.db.rows[job].maxAttempts
    requires (forall w :: !Holds(s, w, job)) && ReadingStillTrue(s, job, snap)
    ensures Inv(StaleReapStep(s, job, snap))
  {
    var s' := StaleReapStep(s, job, snap);
    var db1 := Move(s.db, job, FailedRetryable, None, s.now);
    StaleReapMoves(s, job, snap);
    MoveKeeps(s.db, job, FailedRetryable, None, s.now);
    MoveKeeps(db1, job, s'.db.rows[job].state, None, s.now);
    forall v | v in s'.live ensures HolderOk(s', v) {
      assert HolderOk(s, v) && !Holds(s, v, job);
      HolderKeeps(s, s', v);
    }
  }

  /** A system with job 0 only, seen apart from its log. */
  predicate Sees(s: System, row: Row, now: int, queue: seq<JobId>, live: map<WorkerId, Phase>, known: set<WorkerId>) {
    && s.db.rows == map[0 := row] && s.leaseS == 10
    && s.now == now && s.queue == queue && s.live == live && s.processing.Keys == known
  }

  function Claimed(row: Row, w: WorkerId, now: int): Row {
    row.(state := Parsing, worker := Some(w), attempts := row.attempts + 1, lease := Some(now + 10), updated := now)
  }

  lemma Starts(s: System, row: Row, live: map<WorkerId, Phase>, known: set<WorkerId>, w: WorkerId)
    requires Sees(s, row, s.now, [0], live, known) && w !in live && w !in known
    ensures Sees(Next(s, Start(w)), row, s.now, [0], live[w := Idle], known + {w}) && Next(s, Start(w)).now == s.now
  {
  }

  lemma Reserves(s: System, row: Row, live: map<WorkerId, Phase>, known: set<WorkerId>, w: WorkerId)
    requires Sees(s, row, s.now, [0], live[w := Idle], known) && w in known
    ensures Sees(Next(s, Reserve(w)), row, s.now, [], live[w := Reserved(0)], known) && Next(s, Reserve(w)).now == s.now
  {
    var s' := Next(s, Reserve(w));
    assert s'.processing.Keys == known;
    assert s'.live == live[w := Reserved(0)];
  }

  lemma Takes(s: System, row: Row, live: map<WorkerId, Phase>, known: set<WorkerId>, w: WorkerId)
    requires Sees(s, row, s.now, [], live[w := Reserved(0)], known)
    requires row.state == Queued && row.kind == Process
    ensures Sees(Next(s, Take(w)), Claimed(row, w, s.now), s.now, [], live[w := Running(0, Parsing, 0)], known)
  {
  }

  lemma NewWorkerClaims(s: System, row: Row, live: map<WorkerId, Phase>, known: set<WorkerId>, w: WorkerId)
    returns (s': System)
    requires Sees(s, row, s.now, [0], live, known) && row.state == Queued && row.kind == Process
    requires w !in live && w !in known
    ensures s' == Exec(s, [Start(w), Reserve(w), Take(w)])
    ensures Sees(s', Claimed(row, w, s.now), s.now, [], live[w := Running(0, Parsing, 0)], known + {w})
  {
    var s1 := Next(s, Start(w));
    Starts(s, row, live, known, w);
    var s2 := Next(s1, Reserve(w));
    Reserves(s1, row, live, known + {w}, w);
    s' := Next(s2, Take(w));
    Takes(s2, row, live, known + {w}, w);
    ExecThree(s, Start(w), Reserve(w), Take(w));
  }

  lemma FirstSubmission(s: System) returns (s': System)
    requires s == System(Db(map[], []), [], map[], 0, 10, map[])
    ensures s' == Exec(s, [Submit(0, Process, 7, 3)])
    ensures Sees(s', Row(Process, 7, Queued, 0, 3, None, None, 0), 0, [0], map[], {})
  {
    s' := SubmitStep(s, 0, Process, 7, 3);
    assert Exec(s, [Submit(0, Process, 7, 3)]) == s';
  }

  lemma DiesAndExpires(s: System, row: Row) returns (s': System)
    requires Sees(s, row, 0, [], map[1 := Running(0, Parsing, 0)], {1})
    ensures s' == Exec(s, [Die(1), Tick(11)])
    ensures Sees(s', row, 11, [], map[], {1})
  {
    var s1 := Next(s, Die(1));
    assert s1.live == map[];
    s' := TickStep(s1, 11);
    assert [Die(1), Tick(11)][1..] == [Tick(11)];
    assert Exec(s1, [Tick(11)]) == s';
  }

  lemma ReaperRequeues(s: System, snap: Row, row: Row, live: map<WorkerId, Phase>, known: set<WorkerId>)
    returns (s': System)
    requires Sees(s, row, s.now, [], live, known)
    requires row.state == snap.state == Parsing && snap.attempts < snap.maxAttempts
    ensures s' == StaleReapStep(s, 0, snap)
    ensures Sees(s', row.(state := Queued, updated := s.now), s.now, [0], live, known)
    ensures snap == row && Expired(row, s.now) ==> s' == Exec(s, [Reap(0)])
  {
    StaleReapMoves(s, 0, snap);
    s' := StaleReapStep(s, 0, snap);
    if snap == row && Expired(row, s.now) {
      assert Next(s, Reap(0)) == s';
      assert Exec(s, [Reap(0)]) == Next(s, Reap(0));
    }
  }

  /** A concrete run: worker 1 dies with job 0, one reaper reads the expired row, another reaps it,
      worker 2 claims the job afresh, and then the first reaper's compare-and-set hits worker 2's
      row. Worker 3 claims the job as well: two live workers run it. */
  lemma StaleReaperTwoExecutors() returns (early: seq<Action>, between: seq<Action>, late: seq<Action>)
    ensures
      var s0 := System(Db(map[], []), [], map[], 0, 10, map[]);
      var read := Exec(s0, early);
      var stale := Exec(read, between);
      && Initial(s0)
      && 0 in read.db.rows && Expired(read.db.rows[0], read.now)
      && (var s := Exec(StaleReapStep(stale, 0, read.db.rows[0]), late);
          Holds(s, 2, 0) && Holds(s, 3, 0))
  {
    var s0 := System(Db(map[], []), [], map[], 0, 10, map[]);
    var lost := Row(Process, 7, Parsing, 1, 3, Some(1), Some(10), 0);
    var read, stale;
    early, read := RunToExpiry(s0);
    between, stale := RunToReclaim(read);
    var held := Row(Process, 7, Parsing, 2, 3, Some(2), Some(21), 11);
    var live := map[2 := Running(0, Parsing, 0)];
    var s4 := ReaperRequeues(stale, lost, held, live, {1, 2});
    late := [Start(3), Reserve(3), Take(3)];
    var s5 := NewWorkerClaims(s4, held.(state := Queued), live, {1, 2}, 3);
  }

  lemma RunToExpiry(s0: System) returns (acts: seq<Action>, s: System)
    requires s0 == System(Db(map[], []), [], map[], 0, 10, map[])
    ensures s == Exec(s0, acts)
    ensures Sees(s, Row(Process, 7, Parsing, 1, 3, Some(1), Some(10), 0), 11, [], map[], {1})
  {
    var s1 := FirstSubmission(s0);
    var s2 := NewWorkerClaims(s1, Row(Process, 7, Queued, 0, 3, None, None, 0), map[], {}, 1);
    assert map[][1 := Running(0, Parsing, 0)] == map[1 := Running(0, Parsing, 0)];
    s := DiesAndExpires(s2, Row(Process, 7, Parsing, 1, 3, Some(1), Some(10), 0));
    var first := [Submit(0, Process, 7, 3)] + [Start(1), Reserve(1), Take(1)];
    acts := first + [Die(1), Tick(11)];
    ExecConcat(s0, [Submit(0, Process, 7, 3)], [Start(1), Reserve(1), Take(1)]);
    ExecConcat(s0, first, [Die(1), Tick(11)]);
  }

  lemma RunToReclaim(s0: System) returns (acts: seq<Action>, s: System)
    requires Sees(s0, Row(Process, 7, Parsing, 1, 3, Some(1), Some(10), 0), 11, [], map[], {1})
    ensures s == Exec(s0, acts)
    ensures
      var row := Row(Process, 7, Parsing, 2, 3, Some(2), Some(21), 11);
      Sees(s, row, 11, [], map[2 := Running(0, Parsing, 0)], {1, 2})
  {
    var lost := Row(Process, 7, Parsing, 1, 3, Some(1), Some(10), 0);
    var s1 := ReaperRequeues(s0, lost, lost, map[], {1});
    s := NewWorkerClaims(s1, lost.(state := Queued, updated := 11), map[], {1}, 2);
    assert map[][2 := Running(0, Parsing, 0)] == map[2 := Running(0, Parsing, 0)];
    assert {1} + {2} == {1, 2};
    acts := [Reap(0)] + [Start(2), Reserve(2), Take(2)];
    ExecConcat(s0, [Reap(0)], [Start(2), Reserve(2), Take(2)]);
  }
}
