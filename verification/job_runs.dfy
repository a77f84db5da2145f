/** What holds of every run of the job protocol: exclusion, the log as a replay of the table,
    termination, and the fate of terminal jobs. */
module JobRuns {
  import opened Wrappers
  import opened JobStates
  import opened JobProtocol
  import opened JobInvariant
  import opened JobSafety

  ghost predicate Reachable(s: System, s0: System, acts: seq<Action>) {
    Initial(s0) && s == Exec(s0, acts)
  }

  lemma {:induction false} ExecKeeps(s: System, acts: seq<Action>)
    requires Inv(s)
    ensures Inv(Exec(s, acts))
    decreases acts
  {
    if acts != [] {
      NextKeeps(s, acts[0]);
      ExecKeeps(Next(s, acts[0]), acts[1..]);
    }
  }

  lemma ReachableInv(s: System, s0: System, acts: seq<Action>)
    requires Reachable(s, s0, acts)
    ensures Inv(s)
  {
    ExecKeeps(s0, acts);
  }

  lemma {:induction false} ExecConcat(s: System, a: seq<Action>, b: seq<Action>)
    ensures Exec(s, a + b) == Exec(Exec(s, a), b)
    decreases a
  {
    if a == [] {
      assert a + b == b;
    } else {
      assert (a + b)[1..] == a[1..] + b;
      ExecConcat(Next(s, a[0]), a[1..], b);
    }
  }

  lemma ExecSnoc(s: System, acts: seq<Action>, a: Action)
    ensures Exec(s, acts + [a]) == Next(Exec(s, acts), a)
  {
    ExecConcat(s, acts, [a]);
    assert Exec(Exec(s, acts), [a]) == Next(Exec(s, acts), a);
  }

  lemma ExecTwo(s: System, a: Action, b: Action)
    ensures Exec(s, [a, b]) == Next(Next(s, a), b)
  {
    ExecSnoc(s, [a], b);
    assert [a] + [b] == [a, b] && Exec(s, [a]) == Next(s, a);
  }

  lemma ExecThree(s: System, a: Action, b: Action, c: Action)
    ensures Exec(s, [a, b, c]) == Next(Next(Next(s, a), b), c)
  {
    var s1 := Next(s, a);
    var s2 := Next(s1, b);
    assert [a, b, c][1..] == [b, c] && [b, c][1..] == [c];
    assert Exec(s2, [c]) == Next(s2, c);
    assert Exec(s1, [b, c]) == Exec(s2, [c]);
  }

  lemma ExecFour(s: System, a: Action, b: Action, c: Action, d: Action)
    ensures Exec(s, [a, b, c, d]) == Next(Next(Next(Next(s, a), b), c), d)
  {
    assert [a, b, c, d][1..] == [b, c, d] && [b, c, d][1..] == [c, d] && [c, d][1..] == [d];
    var s1 := Next(s, a);
    var s2 := Next(s1, b);
    var s3 := Next(s2, c);
    assert Exec(s3, [d]) == Next(s3, d);
    assert Exec(s2, [c, d]) == Exec(s3, [d]);
    assert Exec(s1, [b, c, d]) == Exec(s2, [c, d]);
  }

  // ---- lease exclusion --------------------------------------------------------------------

  /** In every reachable state a live worker's job is in flight under that worker's name and an
      unexpired lease, its local state is the row's, and nobody else runs the job. */
  lemma LeaseExclusion(s: System, s0: System, acts: seq<Action>, w: WorkerId, job: JobId)
    requires Reachable(s, s0, acts) && Holds(s, w, job)
    ensures job in s.db.rows && s.db.rows[job].state in IN_FLIGHT
    ensures s.db.rows[job].worker == Some(w) && s.live[w].cur == s.db.rows[job].state
    ensures !Expired(s.db.rows[job], s.now)
    ensures forall v :: Holds(s, v, job) ==> v == w
  {
    ReachableInv(s, s0, acts);
    assert HolderOk(s, w);
    forall v | Holds(s, v, job) ensures v == w { Exclusive(s, v, w, job); }
  }

  datatype Cas = Cas(job: JobId, src: JobState, dst: JobState)

  /** The compare-and-set a live worker's own action issues first. */
  function CasOf(s: System, a: Action): Option<Cas> {
    match a
    case Report(w) =>
      if w in s.live && s.live[w].Running? && s.live[w].cur != Training && s.live[w].reported < 3
        && STAGES[s.live[w].reported] != s.live[w].cur
      then Some(Cas(s.live[w].job, s.live[w].cur, STAGES[s.live[w].reported])) else None
    case Finish(w) =>
      if w in s.live && s.live[w].Running? && (s.live[w].reported == 0 || s.live[w].reported == 3)
      then Some(Cas(s.live[w].job, s.live[w].cur, Completed)) else None
    case Fail(w, code) =>
      if w in s.live && s.live[w].Running? && s.live[w].cur != Training
      then Some(Cas(s.live[w].job, s.live[w].cur, OutcomeState(code))) else None
    case Raise(w) =>
      if w in s.live && s.live[w].Running? && s.live[w].job in s.db.rows
      then Some(Cas(s.live[w].job, s.db.rows[s.live[w].job].state, FailedTerminal)) else None
    case _ => None
  }

  /** No compare-and-set of a holder misses, and none raises `IllegalTransition`. */
  lemma HolderCasHits(s: System, s0: System, acts: seq<Action>, a: Action, who: Option<WorkerId>)
    requires Reachable(s, s0, acts) && CasOf(s, a).Some?
    ensures
      var c := CasOf(s, a).value;
      Transition(s.db, c.job, c.src, c.dst, who, s.now).1 == Done
  {
    ReachableInv(s, s0, acts);
    assert HolderOk(s, a.w);
    if a.Fail? { FailureTargets(a.code, s.live[a.w].cur); }
  }

  /** The compare-and-set is what the step does: one event for it, followed after a retryable failure by
      the return to the queue or the end; the row gets the new state and nothing else changes it. */
  ghost predicate TakesEffect(s: System, s': System, who: Option<WorkerId>, c: Cas) {
    && c.job in s.db.rows
    && var row := s.db.rows[c.job];
       var retried := c.dst == FailedRetryable;
       var last := if !retried then c.dst else if row.attempts < row.maxAttempts then Queued else FailedTerminal;
       && s'.db.rows == s.db.rows[c.job := row.(state := last, updated := s.now)]
       && s'.db.log == s.db.log + [Moved(c.job, c.dst, row.attempts, who, false)]
                       + (if retried then [Moved(c.job, last, row.attempts, None, false)] else [])
       && s'.queue == (if last == Queued then [c.job] + s.queue else s.queue)
       && s'.processing == s.processing && s'.now == s.now
  }

  lemma PlainEffect(s: System, a: Action)
    requires (a.Report? || a.Finish? || a.Raise?) && CasOf(s, a).Some?
    requires var c := CasOf(s, a).value; InState(s.db, c.job, c.src) && Allowed(c.src, c.dst) && c.src !in TERMINAL
    ensures TakesEffect(s, Next(s, a), Some(a.w), CasOf(s, a).value)
    ensures
      var c := CasOf(s, a).value;
      Next(s, a).live
      == s.live[a.w := if a.Report? then Running(c.job, c.dst, s.live[a.w].reported + 1) else Leaving(c.job)]
  {
  }

  lemma FailEffect(s: System, w: WorkerId, code: ErrorCode)
    requires CasOf(s, Fail(w, code)).Some?
    requires
      var c := CasOf(s, Fail(w, code)).value;
      InState(s.db, c.job, c.src) && Allowed(c.src, c.dst) && c.dst in FAIL
    ensures TakesEffect(s, Next(s, Fail(w, code)), Some(w), CasOf(s, Fail(w, code)).value)
    ensures Next(s, Fail(w, code)).live == s.live[w := Leaving(CasOf(s, Fail(w, code)).value.job)]
  {
    var c := CasOf(s, Fail(w, code)).value;
    var db1 := Move(s.db, c.job, c.dst, Some(w), s.now);
    assert db1.rows[c.job].attempts == s.db.rows[c.job].attempts;
    if c.dst == FailedRetryable {
      var row := db1.rows[c.job];
      var last := if row.attempts < row.maxAttempts then Queued else FailedTerminal;
      assert AfterRetryable(db1, c.job, row.attempts, row.maxAttempts, s.now).0 == Move(db1, c.job, last, None, s.now);
    }
  }

  /** Whatever a holder's action is meant to write, it writes: a finished job is completed, a raised one
      failed for good, a refused one goes where its code leads, a reported stage becomes the state. */
  lemma CasTakesEffect(s: System, s0: System, acts: seq<Action>, a: Action)
    requires Reachable(s, s0, acts) && CasOf(s, a).Some?
    ensures TakesEffect(s, Next(s, a), Some(a.w), CasOf(s, a).value)
    ensures a.Finish? ==> CasOf(s, a).value.dst == Completed
    ensures a.Raise? ==> CasOf(s, a).value.dst == FailedTerminal
  {
    ReachableInv(s, s0, acts);
    assert HolderOk(s, a.w);
    HolderCasHits(s, s0, acts, a, None);
    if a.Fail? {
      FailureTargets(a.code, s.live[a.w].cur);
      FailEffect(s, a.w, a.code);
    } else {
      PlainEffect(s, a);
    }
  }

  /** The reaper moves a job exactly if it is in flight with a lease that has run out, and then as a worker
      moves one after a retryable failure, under nobody's name. */
  lemma ReapTakesEffect(s: System, job: JobId)
    ensures
      if && job in s.db.rows
         && s.db.rows[job].state in {Parsing, Normalizing, Extracting, ValidatingOutputs, Training}
         && s.db.rows[job].lease.Some? && s.db.rows[job].lease.value < s.now
      then
        && TakesEffect(s, Next(s, Reap(job)), None, Cas(job, s.db.rows[job].state, FailedRetryable))
        && Next(s, Reap(job)).live == s.live
      else Next(s, Reap(job)) == s
  {
    if job in s.db.rows && Expired(s.db.rows[job], s.now) {
      var row := s.db.rows[job];
      var db1 := Move(s.db, job, FailedRetryable, None, s.now);
      var last := if row.attempts < row.maxAttempts then Queued else FailedTerminal;
      assert AfterRetryable(db1, job, row.attempts, row.maxAttempts, s.now).0 == Move(db1, job, last, None, s.now);
    }
  }

  /** The holder's heartbeat finds its row, so renewing keeps time from being held up: after one
      heartbeat of every live worker the clock may advance by a whole lease. */
  lemma {:induction false} HeartbeatsLetTimePass(s: System, ws: seq<WorkerId>)
    requires Inv(s) && forall w :: w in s.live ==> w in ws || LeasedAt(s, w, s.now + s.leaseS)
    ensures
      var s' := Exec(s, seq(|ws|, i requires 0 <= i < |ws| => Beat(ws[i])));
      TickStep(s', s.leaseS).now == s.now + s.leaseS
    decreases ws
  {
    var acts := seq(|ws|, i requires 0 <= i < |ws| => Beat(ws[i]));
    if ws != [] {
      var s1 := Next(s, Beat(ws[0]));
      NextKeeps(s, Beat(ws[0]));
      forall w | w in s1.live ensures w in ws[1..] || LeasedAt(s1, w, s1.now + s1.leaseS) {
        assert HolderOk(s, w);
        if w !in ws[1..] {
          if w != ws[0] { assert w in ws || LeasedAt(s, w, s.now + s.leaseS); }
        }
      }
      HeartbeatsLetTimePass(s1, ws[1..]);
      assert acts[1..] == seq(|ws[1..]|, i requires 0 <= i < |ws[1..]| => Beat(ws[1..][i]));
    }
  }

  // ---- the event log ----------------------------------------------------------------------

  function Claims(h: seq<Change>): nat {
    if h == [] then 0 else Claims(h[..|h| - 1]) + (if h[|h| - 1].claimed then 1 else 0)
  }

  function QueueEntries(h: seq<Change>): nat {
    if h == [] then 0 else QueueEntries(h[..|h| - 1]) + (if h[|h| - 1].state == Queued then 1 else 0)
  }

  /** Along a lawful history the attempt number counts the claims, and every entry to `queued` but
      a last, unclaimed one has been claimed exactly once. */
  lemma {:induction false} LawfulCounts(h: seq<Change>)
    requires Lawful(h)
    ensures h[|h| - 1].attempt == Claims(h)
    ensures QueueEntries(h) == Claims(h) + (if h[|h| - 1].state == Queued then 1 else 0)
  {
    var n := |h| - 1;
    if n == 0 {
      assert h[..0] == [];
    } else {
      var g := h[..n];
      forall i | 0 < i < |g| ensures LinkAt(g, i) { assert LinkAt(h, i); }
      LawfulCounts(g);
      assert LinkAt(h, n);
    }
  }

  /** The log alone determines state and attempts of every job, under every interleaving and
      however often a job id was delivered. */
  lemma LogReplay(s: System, s0: System, acts: seq<Action>, job: JobId)
    requires Reachable(s, s0, acts) && job in s.db.rows
    ensures
      var h := Moves(s.db.log, job);
      var row := s.db.rows[job];
      && Lawful(h)
      && row.state == h[|h| - 1].state
      && row.attempts == Claims(h)
      && Claims(h) <= QueueEntries(h) <= Claims(h) + 1
      && (QueueEntries(h) == Claims(h) + 1 <==> row.state == Queued)
    ensures forall i, k :: 0 <= i < k < |s.db.log| && s.db.log[i].job == s.db.log[k].job
              ==> s.db.log[i].attempt <= s.db.log[k].attempt
  {
    ReachableInv(s, s0, acts);
    assert JobOk(s.db, job);
    LawfulCounts(Moves(s.db.log, job));
    forall i, k | 0 <= i < k < |s.db.log| && s.db.log[i].job == s.db.log[k].job
      ensures s.db.log[i].attempt <= s.db.log[k].attempt
    {
      assert OrderedPair(s.db.log, i, k);
    }
  }

  // ---- termination ------------------------------------------------------------------------

  /** From `db` to `db'` job `j` pays for every new state change with its potential. */
  ghost predicate Pays(db: Db, db': Db, j: JobId) {
    j in db.rows ==>
      && j in db'.rows && db'.rows[j].maxAttempts == db.rows[j].maxAttempts
      && |Moves(db'.log, j)| + Potential(db'.rows[j]) <= |Moves(db.log, j)| + Potential(db.rows[j])
  }

  ghost predicate Advances(db: Db, db': Db) {
    db.log <= db'.log && forall j {:trigger Pays(db, db', j)} :: Pays(db, db', j)
  }

  lemma AdvancesTransitive(db0: Db, db1: Db, db2: Db)
    requires Advances(db0, db1) && Advances(db1, db2)
    ensures Advances(db0, db2)
  {
    forall j ensures Pays(db0, db2, j) { assert Pays(db0, db1, j) && Pays(db1, db2, j); }
  }

  lemma MoveAdvances(db: Db, job: JobId, dst: JobState, who: Option<WorkerId>, now: int)
    requires DbOk(db) && job in db.rows && Issued(db.rows[job], dst)
    ensures Advances(db, Move(db, job, dst, who, now)) && DbOk(Move(db, job, dst, who, now))
  {
    MoveKeeps(db, job, dst, who, now);
  }

  /** The two moves of a retryable failure. */
  lemma RetryAdvances(db: Db, job: JobId, who: Option<WorkerId>, now: int)
    requires DbOk(db) && job in db.rows && db.rows[job].state in IN_FLIGHT
    ensures
      var db1 := Move(db, job, FailedRetryable, who, now);
      Advances(db, AfterRetryable(db1, job, db.rows[job].attempts, db.rows[job].maxAttempts, now).0)
  {
    var db1 := Move(db, job, FailedRetryable, who, now);
    MoveAdvances(db, job, FailedRetryable, who, now);
    AfterRetryableKeeps(db1, job, now);
    assert JobOk(db1, job);
    var r := AfterRetryable(db1, job, db.rows[job].attempts, db.rows[job].maxAttempts, now);
    MoveAdvances(db1, job, if r.1 then Queued else FailedTerminal, None, now);
    AdvancesTransitive(db, db1, r.0);
  }

  lemma SubmitAdvances(s: System, id: JobId, kind: Kind, key: nat, maxAttempts: int)
    requires Inv(s)
    ensures Advances(s.db, SubmitStep(s, id, kind, key, maxAttempts).db)
  {
    var s' := SubmitStep(s, id, kind, key, maxAttempts);
    if s' != s {
      var db1 := Insert(s.db, id, kind, key, maxAttempts, s.now);
      InsertKeeps(s.db, id, kind, key, maxAttempts, s.now);
      MoveAdvances(db1, id, Validated, None, s.now);
      var db2 := Move(db1, id, Validated, None, s.now);
      MoveAdvances(db2, id, Queued, None, s.now);
      AdvancesTransitive(s.db, db1, db2);
      AdvancesTransitive(s.db, db2, s'.db);
    }
  }

  lemma SubmitCutAdvances(s: System, id: JobId, kind: Kind, key: nat, maxAttempts: int, writes: nat)
    requires Inv(s)
    ensures Advances(s.db, SubmitCutStep(s, id, kind, key, maxAttempts, writes).db)
  {
    var s' := SubmitCutStep(s, id, kind, key, maxAttempts, writes);
    if s' != s {
      var db1 := Insert(s.db, id, kind, key, maxAttempts, s.now);
      InsertKeeps(s.db, id, kind, key, maxAttempts, s.now);
      MoveAdvances(db1, id, Validated, None, s.now);
      var db2 := Move(db1, id, Validated, None, s.now);
      MoveAdvances(db2, id, Queued, None, s.now);
      AdvancesTransitive(s.db, db1, db2);
      if writes > 2 { AdvancesTransitive(s.db, db2, s'.db); }
    }
  }

  lemma RetryCutAdvances(s: System, w: WorkerId, writes: nat)
    requires Inv(s)
    ensures Advances(s.db, RetryCutStep(s, w, writes).db)
  {
    if w in s.live && s.live[w].Running? && s.live[w].cur != Training {
      assert HolderOk(s, w);
      MoveAdvances(s.db, s.live[w].job, FailedRetryable, Some(w), s.now);
      RetryAdvances(s.db, s.live[w].job, Some(w), s.now);
    }
  }

  lemma ReapCutAdvances(s: System, job: JobId, writes: nat)
    requires Inv(s)
    ensures Advances(s.db, ReapCutStep(s, job, writes).db)
  {
    if job in s.db.rows && Expired(s.db.rows[job], s.now) {
      MoveAdvances(s.db, job, FailedRetryable, None, s.now);
      RetryAdvances(s.db, job, None, s.now);
    }
  }

  lemma WorkerStepAdvances(s: System, a: Action)
    requires Inv(s) && (a.Report? || a.Finish? || a.Fail? || a.Raise?)
    ensures Advances(s.db, Next(s, a).db)
  {
    var w := a.w;
    if w in s.live && s.live[w].Running? {
      var Running(job, cur, n) := s.live[w];
      assert HolderOk(s, w);
      match a
      case Report(_) => if cur != Training && n < 3 { MoveAdvances(s.db, job, STAGES[n], Some(w), s.now); }
      case Finish(_) => if n == 0 || n == 3 { MoveAdvances(s.db, job, Completed, Some(w), s.now); }
      case Raise(_) => MoveAdvances(s.db, job, FailedTerminal, Some(w), s.now);
      case Fail(_, code) =>
        FailureTargets(code, cur);
        if OutcomeState(code) == FailedRetryable {
          RetryAdvances(s.db, job, Some(w), s.now);
        } else if cur != Training {
          MoveAdvances(s.db, job, OutcomeState(code), Some(w), s.now);
        }
    }
  }

  lemma ClaimAdvances(s: System, w: WorkerId)
    requires Inv(s)
    ensures Advances(s.db, Next(s, Take(w)).db)
  {
    if w in s.live && s.live[w].Reserved? && InState(s.db, s.live[w].job, Queued) {
      ClaimKeeps(s.db, s.live[w].job, w, s.leaseS, s.now);
    }
  }

  lemma NoteAdvances(s: System, w: WorkerId, stage: nat)
    requires Inv(s)
    ensures Advances(s.db, Next(s, Note(w, stage)).db)
  {
    if w in s.live && s.live[w].Running? { NoteKeeps(s.db, s.live[w].job, stage, w); }
  }

  lemma ReapAdvances(s: System, job: JobId)
    requires Inv(s)
    ensures Advances(s.db, Next(s, Reap(job)).db)
  {
    if job in s.db.rows && Expired(s.db.rows[job], s.now) { RetryAdvances(s.db, job, None, s.now); }
  }

  /** Steps without a state change. */
  predicate Quiet(a: Action) {
    a.Beat? || a.Reserve? || a.Ack? || a.Die? || a.Start? || a.Reconcile? || a.Flush? || a.Deliver? || a.Tick?
  }

  lemma QuietAdvances(s: System, a: Action)
    requires Quiet(a)
    ensures Advances(s.db, Next(s, a).db)
  {
  }

  /** Every step pays: each state change the code issues lowers the job's potential, which never
      rises. The cycles of `TRANSITIONS` are therefore walked finitely often. */
  lemma NextAdvances(s: System, a: Action)
    requires Inv(s)
    ensures Advances(s.db, Next(s, a).db)
  {
    match a
    case Submit(id, kind, key, maxAttempts) => SubmitAdvances(s, id, kind, key, maxAttempts);
    case SubmitCut(id, kind, key, maxAttempts, writes) => SubmitCutAdvances(s, id, kind, key, maxAttempts, writes);
    case RetryCut(w, writes) => RetryCutAdvances(s, w, writes);
    case ReapCut(job, writes) => ReapCutAdvances(s, job, writes);
    case Take(w) => ClaimAdvances(s, w);
    case Note(w, stage) => NoteAdvances(s, w, stage);
    case Report(w) => WorkerStepAdvances(s, a);
    case Finish(w) => WorkerStepAdvances(s, a);
    case Fail(w, code) => WorkerStepAdvances(s, a);
    case Raise(w) => WorkerStepAdvances(s, a);
    case Reap(job) => ReapAdvances(s, job);
    case _ => QuietAdvances(s, a);
  }

  lemma {:induction false} ExecAdvances(s: System, acts: seq<Action>)
    requires Inv(s)
    ensures Advances(s.db, Exec(s, acts).db)
    decreases acts
  {
    if acts != [] {
      var s1 := Next(s, acts[0]);
      NextKeeps(s, acts[0]);
      NextAdvances(s, acts[0]);
      ExecAdvances(s1, acts[1..]);
      AdvancesTransitive(s.db, s1.db, Exec(s, acts).db);
    }
  }

  /** However long the run, a job makes at most `max_attempts` attempts (one, if the limit is below
      one) and at most six state changes an attempt plus the three of its submission. */
  lemma JobsTerminate(s: System, s0: System, acts: seq<Action>, job: JobId)
    requires Reachable(s, s0, acts) && job in s.db.rows
    ensures s.db.rows[job].attempts <= Cap(s.db.rows[job].maxAttempts)
    ensures 0 <= Potential(s.db.rows[job])
    ensures |Moves(s.db.log, job)| + Potential(s.db.rows[job]) <= 6 * Cap(s.db.rows[job].maxAttempts) + 3
  {
    ReachableInv(s, s0, acts);
    assert JobOk(s.db, job);
  }

  predicate WithinLimit(s: System, job: JobId) {
    job in s.db.rows ==> s.db.rows[job].attempts <= s.db.rows[job].maxAttempts
  }

  /** A limit below one is not kept: whoever takes a queued job with such a limit attempts it. */
  lemma TakeBreaksLimit(s: System, w: WorkerId, job: JobId)
    requires w in s.live && s.live[w] == Reserved(job) && InState(s.db, job, Queued)
    ensures Next(s, Take(w)).db.rows[job].attempts == s.db.rows[job].attempts + 1
    ensures Next(s, Take(w)).db.rows[job].maxAttempts == s.db.rows[job].maxAttempts
    ensures s.db.rows[job].maxAttempts < 1 ==> !WithinLimit(Next(s, Take(w)), job)
  {
  }

  /** `max_attempts` bounds the attempts of a submitted job in every continuation exactly when it is at
      least one. */
  lemma AttemptLimitIff(s: System, s0: System, before: seq<Action>, id: JobId, kind: Kind, key: nat, maxAttempts: int)
    requires Reachable(s, s0, before) && Fresh(s, id, kind, key)
    ensures
      var s1 := Next(s, Submit(id, kind, key, maxAttempts));
      (forall acts :: WithinLimit(Exec(s1, acts), id)) <==> maxAttempts >= 1
  {
    var s1 := Next(s, Submit(id, kind, key, maxAttempts));
    ReachableInv(s, s0, before);
    NextKeeps(s, Submit(id, kind, key, maxAttempts));
    if maxAttempts >= 1 {
      forall acts ensures WithinLimit(Exec(s1, acts), id) {
        ExecKeeps(s1, acts);
        ExecAdvances(s1, acts);
        assert Pays(s1.db, Exec(s1, acts).db, id) && JobOk(Exec(s1, acts).db, id);
      }
    } else {
      var acts := ReachClaim(s1, id);
      assert !WithinLimit(Exec(s1, acts), id);
    }
  }

  /** A new worker reserves the only job the transport holds. */
  lemma LoneDelivery(s: System, job: JobId, w: WorkerId)
    requires w !in s.live
    ensures
      var s' := Next(Next(Next(Next(s, Flush), Deliver(job)), Start(w)), Reserve(w));
      s'.db == s.db && w in s'.live && s'.live[w] == Reserved(job)
  {
    var s1 := Next(Next(s, Flush), Deliver(job));
    assert s1.queue == [job] && s1.processing == map[];
    var s2 := Next(s1, Start(w));
    assert s2.queue == [job] && s2.live[w] == Idle;
  }

  /** A queued job can always be claimed. */
  lemma ReachClaim(s: System, job: JobId) returns (acts: seq<Action>)
    requires InState(s.db, job, Queued)
    ensures job in Exec(s, acts).db.rows
    ensures Exec(s, acts).db.rows[job].attempts == s.db.rows[job].attempts + 1
    ensures Exec(s, acts).db.rows[job].maxAttempts == s.db.rows[job].maxAttempts
  {
    var w := UnusedWorker(s.live.Keys);
    LoneDelivery(s, job, w);
    ExecFour(s, Flush, Deliver(job), Start(w), Reserve(w));
    var waiting := Exec(s, [Flush, Deliver(job), Start(w), Reserve(w)]);
    TakeBreaksLimit(waiting, w, job);
    acts := [Flush, Deliver(job), Start(w), Reserve(w)] + [Take(w)];
    ExecSnoc(s, [Flush, Deliver(job), Start(w), Reserve(w)], Take(w));
  }

  lemma {:induction false} UnusedWorker(ws: set<WorkerId>) returns (w: WorkerId)
    ensures forall v :: v in ws ==> v < w
  {
    if ws == {} {
      w := 0;
    } else {
      var v :| v in ws;
      var u := UnusedWorker(ws - {v});
      w := if u > v then u else v + 1;
      assert forall x :: x in ws ==> x == v || x in ws - {v};
    }
  }

  lemma {:induction false} MovesPrefix(log: seq<Event>, log': seq<Event>, job: JobId)
    requires log <= log'
    ensures Moves(log, job) <= Moves(log', job)
    decreases |log'|
  {
    if |log| < |log'| {
      MovesPrefix(log, log'[..|log'| - 1], job);
    } else {
      assert log == log';
    }
  }

  /** A terminal job keeps its state, its attempts and its history for ever. */
  lemma TerminalForEver(s: System, s0: System, acts: seq<Action>, more: seq<Action>, job: JobId)
    requires Reachable(s, s0, acts) && job in s.db.rows && s.db.rows[job].state in TERMINAL
    ensures
      var s' := Exec(s, more);
      && job in s'.db.rows
      && s'.db.rows[job].state == s.db.rows[job].state
      && s'.db.rows[job].attempts == s.db.rows[job].attempts
      && Moves(s'.db.log, job) == Moves(s.db.log, job)
  {
    ReachableInv(s, s0, acts);
    ExecAdvances(s, more);
    ExecKeeps(s, more);
    TerminalRests(s.db, Exec(s, more).db, job);
  }

  /** A terminal job has no potential left to pay for a change. */
  lemma TerminalRests(db: Db, db': Db, job: JobId)
    requires DbOk(db) && DbOk(db') && Advances(db, db') && job in db.rows && db.rows[job].state in TERMINAL
    ensures job in db'.rows && db'.rows[job].state == db.rows[job].state
    ensures db'.rows[job].attempts == db.rows[job].attempts && Moves(db'.log, job) == Moves(db.log, job)
  {
    assert Pays(db, db', job);
    assert JobOk(db, job) && JobOk(db', job);
    MovesPrefix(db.log, db'.log, job);
    assert |Moves(db'.log, job)| == |Moves(db.log, job)|;
  }

  // ---- idempotent submission --------------------------------------------------------------

  /** The columns that identify a job are never rewritten, and no row but a submission's is new. */
  ghost predicate SameJobs(db: Db, db': Db) {
    && db'.rows.Keys == db.rows.Keys
    && forall j :: j in db.rows ==> db'.rows[j].kind == db.rows[j].kind && db'.rows[j].key == db.rows[j].key
  }

  lemma TransitionKeepsJobs(db: Db, job: JobId, src: JobState, dst: JobState, who: Option<WorkerId>, now: int)
    ensures SameJobs(db, Transition(db, job, src, dst, who, now).0)
  {
  }

  lemma AfterRetryableKeepsJobs(db: Db, job: JobId, attempts: nat, maxAttempts: int, now: int)
    ensures SameJobs(db, AfterRetryable(db, job, attempts, maxAttempts, now).0)
  {
  }

  lemma HandlerKeepsJobs(s: System, w: WorkerId, job: JobId)
    ensures SameJobs(s.db, Handler(s, w, job).db)
  {
    if job in s.db.rows {
      TransitionKeepsJobs(s.db, job, s.db.rows[job].state, FailedTerminal, Some(w), s.now);
    }
  }

  lemma ReportKeepsJobs(s: System, w: WorkerId)
    ensures SameJobs(s.db, ReportStep(s, w).db)
  {
    if w in s.live && s.live[w].Running? && s.live[w].reported < 3 {
      var Running(job, cur, n) := s.live[w];
      TransitionKeepsJobs(s.db, job, cur, STAGES[n], Some(w), s.now);
      HandlerKeepsJobs(s, w, job);
    }
  }

  lemma FinishKeepsJobs(s: System, w: WorkerId)
    ensures SameJobs(s.db, FinishStep(s, w).db)
  {
    if w in s.live && s.live[w].Running? {
      var Running(job, cur, _) := s.live[w];
      TransitionKeepsJobs(s.db, job, cur, Completed, Some(w), s.now);
      HandlerKeepsJobs(s, w, job);
    }
  }

  lemma RaiseKeepsJobs(s: System, w: WorkerId)
    ensures SameJobs(s.db, RaiseStep(s, w).db)
  {
    if w in s.live && s.live[w].Running? { HandlerKeepsJobs(s, w, s.live[w].job); }
  }

  lemma FailKeepsJobs(s: System, w: WorkerId, code: ErrorCode)
    ensures SameJobs(s.db, FailStep(s, w, code).db)
  {
    if w in s.live && s.live[w].Running? {
      var Running(job, cur, n) := s.live[w];
      var (db1, r) := Transition(s.db, job, cur, OutcomeState(code), Some(w), s.now);
      TransitionKeepsJobs(s.db, job, cur, OutcomeState(code), Some(w), s.now);
      HandlerKeepsJobs(s, w, job);
      if job in db1.rows {
        AfterRetryableKeepsJobs(db1, job, db1.rows[job].attempts, db1.rows[job].maxAttempts, s.now);
      }
    }
  }

  lemma ReapKeepsJobs(s: System, job: JobId)
    ensures SameJobs(s.db, ReapStep(s, job).db)
  {
    if job in s.db.rows {
      var row := s.db.rows[job];
      var db1 := Transition(s.db, job, row.state, FailedRetryable, None, s.now).0;
      TransitionKeepsJobs(s.db, job, row.state, FailedRetryable, None, s.now);
      AfterRetryableKeepsJobs(db1, job, row.attempts, row.maxAttempts, s.now);
    }
  }

  lemma OthersKeepJobs(s: System, a: Action)
    requires !(a.Report? || a.Finish? || a.Raise? || a.Fail? || a.Reap? || a.Submit?)
    requires !(a.SubmitCut? || a.RetryCut? || a.ReapCut?)
    ensures SameJobs(s.db, Next(s, a).db)
  {
  }

  lemma RetryCutKeepsJobs(s: System, w: WorkerId, writes: nat)
    ensures SameJobs(s.db, RetryCutStep(s, w, writes).db)
  {
    if w in s.live && s.live[w].Running? {
      var job := s.live[w].job;
      var (db1, r) := Transition(s.db, job, s.live[w].cur, FailedRetryable, Some(w), s.now);
      TransitionKeepsJobs(s.db, job, s.live[w].cur, FailedRetryable, Some(w), s.now);
      if job in db1.rows {
        AfterRetryableKeepsJobs(db1, job, db1.rows[job].attempts, db1.rows[job].maxAttempts, s.now);
      }
    }
  }

  lemma ReapCutKeepsJobs(s: System, job: JobId, writes: nat)
    ensures SameJobs(s.db, ReapCutStep(s, job, writes).db)
  {
    if job in s.db.rows {
      var row := s.db.rows[job];
      TransitionKeepsJobs(s.db, job, row.state, FailedRetryable, None, s.now);
      AfterRetryableKeepsJobs(Transition(s.db, job, row.state, FailedRetryable, None, s.now).0, job,
                              row.attempts, row.maxAttempts, s.now);
    }
  }

  lemma NextKeepsJobs(s: System, a: Action)
    requires !a.Submit? && !a.SubmitCut?
    ensures SameJobs(s.db, Next(s, a).db)
  {
    match a
    case Report(w) => ReportKeepsJobs(s, w);
    case Finish(w) => FinishKeepsJobs(s, w);
    case Raise(w) => RaiseKeepsJobs(s, w);
    case Fail(w, code) => FailKeepsJobs(s, w, code);
    case RetryCut(w, writes) => RetryCutKeepsJobs(s, w, writes);
    case ReapCut(job, writes) => ReapCutKeepsJobs(s, job, writes);
    case Reap(job) => ReapKeepsJobs(s, job);
    case _ => OthersKeepJobs(s, a);
  }

  ghost predicate UniqueKeys(db: Db) {
    forall i, j :: i in db.rows && j in db.rows && SubmittedAs(db.rows[i], db.rows[j].kind, db.rows[j].key) ==> i == j
  }

  lemma {:induction false} KeysStayUnique(s: System, acts: seq<Action>)
    requires UniqueKeys(s.db)
    ensures UniqueKeys(Exec(s, acts).db)
    decreases acts
  {
    if acts != [] {
      if !acts[0].Submit? && !acts[0].SubmitCut? { NextKeepsJobs(s, acts[0]); }
      KeysStayUnique(Next(s, acts[0]), acts[1..]);
    }
  }

  predicate Has(s: System, j: JobId, kind: Kind, key: nat) {
    j in s.db.rows && SubmittedAs(s.db.rows[j], kind, key)
  }

  lemma {:induction false} HasPersists(s: System, acts: seq<Action>, j: JobId, kind: Kind, key: nat)
    requires Has(s, j, kind, key)
    ensures Has(Exec(s, acts), j, kind, key)
    decreases acts
  {
    if acts != [] {
      if !acts[0].Submit? && !acts[0].SubmitCut? { NextKeepsJobs(s, acts[0]); }
      HasPersists(Next(s, acts[0]), acts[1..], j, kind, key);
    }
  }

  /** The second half of a submission whose lookup found a job or not: the insert, which the unique
      constraint turns into nothing if the key has come up meanwhile. */
  function InsertHalf(s: System, found: bool, id: JobId, kind: Kind, key: nat, maxAttempts: int): System {
    if found then s else SubmitStep(s, id, kind, key, maxAttempts)
  }

  /** However much happens between a submission's lookup and its insert, other submissions of the key
      included, the two act like one step at the time of the insert. */
  lemma RacesActAtomically(s: System, acts: seq<Action>, id: JobId, kind: Kind, key: nat, maxAttempts: int)
    ensures
      var s' := Exec(s, acts);
      InsertHalf(s', exists j :: Has(s, j, kind, key), id, kind, key, maxAttempts)
        == Next(s', Submit(id, kind, key, maxAttempts))
  {
    if j :| Has(s, j, kind, key) {
      HasPersists(s, acts, j, kind, key);
      assert Has(Exec(s, acts), j, kind, key);
    }
  }

  /** In every reachable state a submission under a fresh id leaves exactly one job for its key, and
      submitting the key again, under whatever id and limit, changes nothing. */
  lemma SubmissionIsIdempotent(s: System, s0: System, acts: seq<Action>, id: JobId, kind: Kind, key: nat,
                               maxAttempts: int, again: JobId, otherMax: int)
    requires Reachable(s, s0, acts) && id !in s.db.rows
    ensures
      var s1 := Next(s, Submit(id, kind, key, maxAttempts));
      && (exists j :: Has(s1, j, kind, key))
      && (forall i, j :: Has(s1, i, kind, key) && Has(s1, j, kind, key) ==> i == j)
      && Next(s1, Submit(again, kind, key, otherMax)) == s1
  {
    KeysStayUnique(s0, acts);
    KeysStayUnique(s, [Submit(id, kind, key, maxAttempts)]);
    var s1 := Next(s, Submit(id, kind, key, maxAttempts));
    assert Exec(s, [Submit(id, kind, key, maxAttempts)]) == s1;
    if forall j :: !Has(s, j, kind, key) {
      forall j | j in s.db.rows ensures !SubmittedAs(s.db.rows[j], kind, key) { assert !Has(s, j, kind, key); }
      assert Has(s1, id, kind, key);
    } else {
      var j :| Has(s, j, kind, key);
      assert s1 == s;
    }
  }
}
