/** The durable job protocol as a transition system: one table of jobs with its event log, the
    queue transport, and any number of workers that may stop between any two steps
    (cad2ml/jobs/db.py, cad2ml/jobs/service.py, cad2ml/jobs/queue.py, apps/worker/main.py). */
module JobProtocol {
  import opened Wrappers
  import opened JobStates

  type JobId = nat
  type WorkerId = nat

  datatype Kind = Process | Train

  /** A row of the `jobs` table: the columns the protocol reads or writes. */
  datatype Row = Row(
    kind: Kind, key: nat, state: JobState, attempts: nat, maxAttempts: int,
    worker: Option<WorkerId>, lease: Option<int>, updated: int)

  /** A row of the `job_events` table: a state change, or a `stage:` note. */
  datatype Event =
    | Moved(job: JobId, state: JobState, attempt: nat, who: Option<WorkerId>, claimed: bool)
    | Noted(job: JobId, stage: nat, attempt: nat, who: Option<WorkerId>)

  datatype Db = Db(rows: map<JobId, Row>, log: seq<Event>)

  // ---- database operations ----------------------------------------------------------------

  datatype CasResult = Done | NotInSource | Illegal

  /** The effect of a compare-and-set that hits. `who` goes into the event only: the row keeps its
      worker and its lease. */
  function Move(db: Db, job: JobId, dst: JobState, who: Option<WorkerId>, now: int): Db
    requires job in db.rows
  {
    var row := db.rows[job];
    Db(db.rows[job := row.(state := dst, updated := now)],
       db.log + [Moved(job, dst, row.attempts, who, false)])
  }

  predicate InState(db: Db, job: JobId, s: JobState) {
    job in db.rows && db.rows[job].state == s
  }

  function Transition(db: Db, job: JobId, src: JobState, dst: JobState, who: Option<WorkerId>, now: int)
    : (Db, CasResult)
  {
    if !Allowed(src, dst) then (db, Illegal)
    else if InState(db, job, src) then (Move(db, job, dst, who, now), Done)
    else (db, NotInSource)
  }

  function Insert(db: Db, job: JobId, kind: Kind, key: nat, maxAttempts: int, now: int): Db {
    Db(db.rows[job := Row(kind, key, Received, 0, maxAttempts, None, None, now)],
       db.log + [Moved(job, Received, 0, None, false)])
  }

  function ClaimRow(db: Db, job: JobId, w: WorkerId, first: JobState, leaseS: nat, now: int): Db
    requires job in db.rows
  {
    var row := db.rows[job];
    Db(db.rows[job := row.(state := first, worker := Some(w), attempts := row.attempts + 1,
                           lease := Some(now + leaseS), updated := now)],
       db.log + [Moved(job, first, row.attempts + 1, Some(w), true)])
  }

  function Renew(db: Db, job: JobId, w: WorkerId, leaseS: nat, now: int): Db {
    if job in db.rows && db.rows[job].worker == Some(w)
    then db.(rows := db.rows[job := db.rows[job].(lease := Some(now + leaseS))])
    else db
  }

  function AddNote(db: Db, job: JobId, stage: nat, w: WorkerId): Db {
    if job in db.rows then db.(log := db.log + [Noted(job, stage, db.rows[job].attempts, Some(w))]) else db
  }

  /** `failed_retryable`, then back to the queue while `attempts` (as the caller read it) is below
      the limit, else terminal. The Boolean tells whether the job must be enqueued. */
  function AfterRetryable(db: Db, job: JobId, attempts: nat, maxAttempts: int, now: int): (Db, bool) {
    if attempts < maxAttempts
    then (Transition(db, job, FailedRetryable, Queued, None, now).0, true)
    else (Transition(db, job, FailedRetryable, FailedTerminal, None, now).0, false)
  }

  predicate Expired(row: Row, now: int) {
    row.state in IN_FLIGHT && row.lease.Some? && row.lease.value < now
  }

  /** One iteration of the reaper's loop, on the values `state`, `attempts` and `maxAttempts` of
      its snapshot. */
  function ReapRow(db: Db, job: JobId, state: JobState, attempts: nat, maxAttempts: int, now: int): (Db, bool) {
    var (db1, r) := Transition(db, job, state, FailedRetryable, None, now);
    if r == Done then AfterRetryable(db1, job, attempts, maxAttempts, now) else (db1, false)
  }

  // ---- the transport ----------------------------------------------------------------------

  function Enqueued(queue: seq<JobId>, job: JobId): seq<JobId> {
    [job] + queue
  }

  function ListOf(processing: map<WorkerId, seq<JobId>>, w: WorkerId): seq<JobId> {
    if w in processing then processing[w] else []
  }

  /** LREM with count 0: every occurrence goes. */
  function Without(s: seq<JobId>, job: JobId): (r: seq<JobId>)
    ensures job !in r
    ensures forall x :: x in r <==> x in s && x != job
  {
    if s == [] then []
    else if s[0] == job then Without(s[1..], job)
    else [s[0]] + Without(s[1..], job)
  }

  /** LPUSH one after the other: the last one pushed ends up leftmost. */
  function PushAll(queue: seq<JobId>, ids: seq<JobId>): (r: seq<JobId>)
    ensures forall x :: x in r <==> x in queue || x in ids
    decreases ids
  {
    if ids == [] then queue else PushAll(Enqueued(queue, ids[0]), ids[1..])
  }

  // ---- workers ----------------------------------------------------------------------------

  /** Where a live worker stands in `run` and `handle`. `cur` is the worker's own copy of the
      state, `reported` counts the pipeline stages its progress callback has seen. */
  datatype Phase =
    | Idle
    | Reserved(job: JobId)
    | Running(job: JobId, cur: JobState, reported: nat)
    | Leaving(job: JobId)

  const STAGES: seq<JobState> := [Normalizing, Extracting, ValidatingOutputs]

  function FirstState(kind: Kind): JobState {
    if kind == Train then Training else Parsing
  }

  datatype System = System(
    db: Db, queue: seq<JobId>, processing: map<WorkerId, seq<JobId>>,
    now: int, leaseS: nat, live: map<WorkerId, Phase>)

  predicate Holds(s: System, w: WorkerId, job: JobId) {
    w in s.live && s.live[w].Running? && s.live[w].job == job
  }

  // ---- steps ------------------------------------------------------------------------------

  /** `SubmitCut`, `RetryCut` and `ReapCut` are steps whose process stops after so many database writes:
      a submission makes three, a retryable failure and a reap two, and an enqueue follows the last. */
  datatype Action =
    | Submit(id: JobId, kind: Kind, key: nat, maxAttempts: int)
    | SubmitCut(id: JobId, kind: Kind, key: nat, maxAttempts: int, writes: nat)
    | Reserve(w: WorkerId)
    | Take(w: WorkerId)
    | Beat(w: WorkerId)
    | Note(w: WorkerId, stage: nat)
    | Report(w: WorkerId)
    | Finish(w: WorkerId)
    | Fail(w: WorkerId, code: ErrorCode)
    | RetryCut(w: WorkerId, writes: nat)
    | Raise(w: WorkerId)
    | Ack(w: WorkerId)
    | Die(w: WorkerId)
    | Start(w: WorkerId)
    | Reap(job: JobId)
    | ReapCut(job: JobId, writes: nat)
    | Reconcile(minAge: int, ids: seq<JobId>)
    | Flush
    | Deliver(job: JobId)
    | Tick(d: nat)

  /** One step. An action whose turn it is not leaves the system as it is. */
  function Next(s: System, a: Action): System {
    match a
    case Submit(id, kind, key, maxAttempts) => SubmitStep(s, id, kind, key, maxAttempts)
    case SubmitCut(id, kind, key, maxAttempts, writes) => SubmitCutStep(s, id, kind, key, maxAttempts, writes)
    case Reserve(w) => ReserveStep(s, w)
    case Take(w) => TakeStep(s, w)
    case Beat(w) => BeatStep(s, w)
    case Note(w, stage) => NoteStep(s, w, stage)
    case Report(w) => ReportStep(s, w)
    case Finish(w) => FinishStep(s, w)
    case Fail(w, code) => FailStep(s, w, code)
    case RetryCut(w, writes) => RetryCutStep(s, w, writes)
    case Raise(w) => RaiseStep(s, w)
    case Ack(w) => AckStep(s, w)
    case Die(w) => s.(live := s.live - {w})
    case Start(w) => StartStep(s, w)
    case Reap(job) => ReapStep(s, job)
    case ReapCut(job, writes) => ReapCutStep(s, job, writes)
    case Reconcile(minAge, ids) => ReconcileStep(s, minAge, ids)
    case Flush => s.(queue := [], processing := map[])
    case Deliver(job) => s.(queue := Enqueued(s.queue, job))
    case Tick(d) => TickStep(s, d)
  }

  function Exec(s: System, acts: seq<Action>): System
    decreases acts
  {
    if acts == [] then s else Exec(Next(s, acts[0]), acts[1..])
  }

  predicate SubmittedAs(row: Row, kind: Kind, key: nat) {
    row.kind == kind && row.key == key
  }

  /** Nobody has submitted the key, and the id is new. */
  predicate Fresh(s: System, id: JobId, kind: Kind, key: nat) {
    id !in s.db.rows && forall j :: j in s.db.rows ==> !SubmittedAs(s.db.rows[j], kind, key)
  }

  /** `submit_job`: the existing job for the key, or a new row taken to `queued` and enqueued. */
  function SubmitStep(s: System, id: JobId, kind: Kind, key: nat, maxAttempts: int): System {
    if !Fresh(s, id, kind, key) then s
    else
      var db1 := Insert(s.db, id, kind, key, maxAttempts, s.now);
      var db2 := Transition(db1, id, Received, Validated, None, s.now).0;
      var db3 := Transition(db2, id, Validated, Queued, None, s.now).0;
      s.(db := db3, queue := Enqueued(s.queue, id))
  }

  /** A submission whose process stops after its first writes. */
  function SubmitCutStep(s: System, id: JobId, kind: Kind, key: nat, maxAttempts: int, writes: nat): System {
    if !Fresh(s, id, kind, key) || writes == 0 then s
    else
      var db1 := Insert(s.db, id, kind, key, maxAttempts, s.now);
      if writes == 1 then s.(db := db1)
      else
        var db2 := Transition(db1, id, Received, Validated, None, s.now).0;
        if writes == 2 then s.(db := db2)
        else s.(db := Transition(db2, id, Validated, Queued, None, s.now).0)
  }

  /** BLMOVE from the right end of the queue to the left end of the worker's list. */
  function ReserveStep(s: System, w: WorkerId): System {
    if w in s.live && s.live[w] == Idle && s.queue != [] then
      var job := s.queue[|s.queue| - 1];
      s.(queue := s.queue[..|s.queue| - 1],
         processing := s.processing[w := [job] + ListOf(s.processing, w)],
         live := s.live[w := Reserved(job)])
    else s
  }

  function Acked(s: System, w: WorkerId, job: JobId): System {
    s.(processing := s.processing[w := Without(ListOf(s.processing, w), job)], live := s.live[w := Idle])
  }

  /** `handle` up to the claim: a compare-and-set from `queued`; losers acknowledge and skip. */
  function TakeStep(s: System, w: WorkerId): System {
    if !(w in s.live && s.live[w].Reserved?) then s
    else
      var job := s.live[w].job;
      if InState(s.db, job, Queued) then
        var first := FirstState(s.db.rows[job].kind);
        s.(db := ClaimRow(s.db, job, w, first, s.leaseS, s.now), live := s.live[w := Running(job, first, 0)])
      else Acked(s, w, job)
  }

  function BeatStep(s: System, w: WorkerId): System {
    if w in s.live && (s.live[w].Running? || s.live[w].Leaving?)
    then s.(db := Renew(s.db, s.live[w].job, w, s.leaseS, s.now))
    else s
  }

  function NoteStep(s: System, w: WorkerId, stage: nat): System {
    if w in s.live && s.live[w].Running? && s.live[w].cur != Training
    then s.(db := AddNote(s.db, s.live[w].job, stage, w))
    else s
  }

  /** The exception handler of `handle`: whatever non-terminal state the row is in becomes
      `failed_terminal`. */
  function Handler(s: System, w: WorkerId, job: JobId): System {
    if job in s.db.rows && s.db.rows[job].state !in TERMINAL
    then s.(db := Transition(s.db, job, s.db.rows[job].state, FailedTerminal, Some(w), s.now).0,
            live := s.live[w := Leaving(job)])
    else s.(live := s.live[w := Leaving(job)])
  }

  /** The progress callback on the next stage of the pipeline. */
  function ReportStep(s: System, w: WorkerId): System {
    if !(w in s.live && s.live[w].Running? && s.live[w].cur != Training && s.live[w].reported < 3) then s
    else
      var Running(job, cur, n) := s.live[w];
      if STAGES[n] == cur then s.(live := s.live[w := Running(job, cur, n + 1)])
      else
        var (db1, r) := Transition(s.db, job, cur, STAGES[n], Some(w), s.now);
        match r
        case Done => s.(db := db1, live := s.live[w := Running(job, STAGES[n], n + 1)])
        case NotInSource => s.(live := s.live[w := Running(job, cur, n + 1)])
        case Illegal => Handler(s, w, job)
  }

  /** The pipeline returned a completed manifest: an existing one before any stage was reported,
      or a new one after all three. A training run reports no stage. */
  function FinishStep(s: System, w: WorkerId): System {
    if !(w in s.live && s.live[w].Running? && (s.live[w].reported == 0 || s.live[w].reported == 3)) then s
    else
      var Running(job, cur, _) := s.live[w];
      var (db1, r) := Transition(s.db, job, cur, Completed, Some(w), s.now);
      if r == Illegal then Handler(s, w, job)
      else s.(db := db1, live := s.live[w := Leaving(job)])
  }

  /** The pipeline returned a manifest with a rejection code. */
  function FailStep(s: System, w: WorkerId, code: ErrorCode): System {
    if !(w in s.live && s.live[w].Running? && s.live[w].cur != Training) then s
    else
      var Running(job, cur, _) := s.live[w];
      var target := OutcomeState(code);
      var (db1, r) := Transition(s.db, job, cur, target, Some(w), s.now);
      if r == Illegal then Handler(s, w, job)
      else if r == Done && target == FailedRetryable then
        var row := db1.rows[job];
        var (db2, again) := AfterRetryable(db1, job, row.attempts, row.maxAttempts, s.now);
        s.(db := db2, queue := if again then Enqueued(s.queue, job) else s.queue, live := s.live[w := Leaving(job)])
      else s.(db := db1, live := s.live[w := Leaving(job)])
  }

  /** A retryable failure whose worker stops after its first writes. */
  function RetryCutStep(s: System, w: WorkerId, writes: nat): System {
    if !(w in s.live && s.live[w].Running? && s.live[w].cur != Training) then s
    else
      var job := s.live[w].job;
      var (db1, r) := Transition(s.db, job, s.live[w].cur, FailedRetryable, Some(w), s.now);
      var db' :=
        if writes == 0 || r != Done then s.db
        else if writes == 1 then db1
        else AfterRetryable(db1, job, db1.rows[job].attempts, db1.rows[job].maxAttempts, s.now).0;
      s.(db := db', live := s.live - {w})
  }

  /** Any other exception inside the job, a failed training run included. */
  function RaiseStep(s: System, w: WorkerId): System {
    if w in s.live && s.live[w].Running? then Handler(s, w, s.live[w].job) else s
  }

  function AckStep(s: System, w: WorkerId): System {
    if w in s.live && s.live[w].Leaving? then Acked(s, w, s.live[w].job) else s
  }

  /** A (re)started worker first moves what its list still holds back to the queue. */
  function StartStep(s: System, w: WorkerId): System {
    if w in s.live then s
    else s.(queue := ListOf(s.processing, w) + s.queue, processing := s.processing[w := []], live := s.live[w := Idle])
  }

  /** The reaper on one job, its read, its compare-and-set and its requeue taken as one step. */
  function ReapStep(s: System, job: JobId): System {
    if job in s.db.rows && Expired(s.db.rows[job], s.now) then
      var row := s.db.rows[job];
      var (db1, again) := ReapRow(s.db, job, row.state, row.attempts, row.maxAttempts, s.now);
      s.(db := db1, queue := if again then Enqueued(s.queue, job) else s.queue)
    else s
  }

  /** The reap of one job, stopped after its first writes. */
  function ReapCutStep(s: System, job: JobId, writes: nat): System {
    if job in s.db.rows && Expired(s.db.rows[job], s.now) && writes > 0 then
      var row := s.db.rows[job];
      if writes == 1 then s.(db := Transition(s.db, job, row.state, FailedRetryable, None, s.now).0)
      else s.(db := ReapRow(s.db, job, row.state, row.attempts, row.maxAttempts, s.now).0)
    else s
  }

  /** `reconcile_queue` finds this job missing from the transport. */
  predicate IsMissing(s: System, minAge: int, job: JobId) {
    InState(s.db, job, Queued) && s.db.rows[job].updated < s.now - minAge && job !in s.queue
  }

  /** `ids` is the list of missing jobs, in whatever order the database returned them. */
  predicate ListsMissing(s: System, minAge: int, ids: seq<JobId>) {
    && (forall j :: j in ids ==> IsMissing(s, minAge, j))
    && (forall j :: j in s.db.rows && IsMissing(s, minAge, j) ==> j in ids)
  }

  function ReconcileStep(s: System, minAge: int, ids: seq<JobId>): System {
    if ListsMissing(s, minAge, ids) then s.(queue := PushAll(s.queue, ids)) else s
  }

  /** The job of `w`, if it runs one, is still leased at time `t`. */
  predicate LeasedAt(s: System, w: WorkerId, t: int) {
    (w in s.live && s.live[w].Running? && s.live[w].job in s.db.rows && s.db.rows[s.live[w].job].lease.Some?)
    ==> t <= s.db.rows[s.live[w].job].lease.value
  }

  /** Time passes, but never beyond the lease of a live worker's job: live workers renew in time. */
  function TickStep(s: System, d: nat): System {
    if forall w :: w in s.live ==> LeasedAt(s, w, s.now + d) then s.(now := s.now + d) else s
  }
}
