/** What every step of the job protocol keeps, and what follows for every run. */
module JobInvariant {
  import opened Wrappers
  import opened JobStates
  import opened JobProtocol

  // ---- the event log of one job -----------------------------------------------------------

  datatype Change = Change(state: JobState, attempt: nat, claimed: bool)

  /** The state change an event records for `job`, if any. */
  function ChangeOf(e: Event, job: JobId): seq<Change> {
    if e.Moved? && e.job == job then [Change(e.state, e.attempt, e.claimed)] else []
  }

  /** The state changes of `job`, oldest first. */
  function Moves(log: seq<Event>, job: JobId): seq<Change> {
    if log == [] then [] else Moves(log[..|log| - 1], job) + ChangeOf(log[|log| - 1], job)
  }

  predicate Follows(a: Change, b: Change) {
    && Allowed(a.state, b.state)
    && (b.claimed <==> a.state == Queued)
    && b.attempt == a.attempt + (if b.claimed then 1 else 0)
  }

  /** A path in `TRANSITIONS` from `received`, counting its claims. */
  predicate Lawful(h: seq<Change>) {
    && h != []
    && h[0] == Change(Received, 0, false)
    && forall i {:trigger LinkAt(h, i)} :: 0 < i < |h| ==> LinkAt(h, i)
  }

  predicate LinkAt(h: seq<Change>, i: int)
    requires 0 < i < |h|
  {
    Follows(h[i - 1], h[i])
  }

  /** Attempt numbers of one job never fall along the log. */
  predicate AttemptsSorted(log: seq<Event>) {
    forall i, k {:trigger OrderedPair(log, i, k)} :: 0 <= i < k < |log| ==> OrderedPair(log, i, k)
  }

  predicate OrderedPair(log: seq<Event>, i: int, k: int)
    requires 0 <= i < k < |log|
  {
    log[i].job == log[k].job ==> log[i].attempt <= log[k].attempt
  }

  // ---- the invariant ----------------------------------------------------------------------

  /** `max_attempts`, read as at least one: a job is always claimed once. */
  function Cap(maxAttempts: int): nat {
    if maxAttempts < 1 then 1 else maxAttempts
  }

  /** How many more state changes a job can still go through. */
  function Potential(row: Row): int {
    if row.state in TERMINAL then 0 else 6 * (Cap(row.maxAttempts) - row.attempts) + Rank(row.state)
  }

  predicate RowOk(row: Row) {
    && row.attempts <= Cap(row.maxAttempts)
    && (row.state in {Received, Validated} ==> row.attempts == 0)
    && (row.state == Queued ==> row.attempts < Cap(row.maxAttempts))
    && (row.state in IN_FLIGHT ==> row.lease.Some? && row.worker.Some? && row.attempts >= 1)
    && (row.state == Training ==> row.kind == Train)
    && (row.state in {Parsing, Normalizing, Extracting, ValidatingOutputs} ==> row.kind == Process)
  }

  predicate HistoryOk(log: seq<Event>, job: JobId, row: Row) {
    var h := Moves(log, job);
    && Lawful(h)
    && h[|h| - 1].state == row.state && h[|h| - 1].attempt == row.attempts
    && |h| + Potential(row) <= 6 * Cap(row.maxAttempts) + 3
  }

  predicate EntryOk(db: Db, e: Event) {
    e.job in db.rows && e.attempt <= db.rows[e.job].attempts
  }

  predicate JobOk(db: Db, j: JobId) {
    j in db.rows ==> RowOk(db.rows[j]) && HistoryOk(db.log, j, db.rows[j])
  }

  predicate DbOk(db: Db) {
    && (forall j {:trigger JobOk(db, j)} :: j in db.rows ==> JobOk(db, j))
    && (forall i {:trigger EntryOk(db, db.log[i])} :: 0 <= i < |db.log| ==> EntryOk(db, db.log[i]))
    && AttemptsSorted(db.log)
  }

  /** The worker-local state after `n` stages. */
  function CurAfter(kind: Kind, n: nat): JobState
    requires n <= 3
  {
    if n == 0 then FirstState(kind) else STAGES[n - 1]
  }

  predicate HolderOk(s: System, w: WorkerId)
    requires w in s.live
  {
    s.live[w].Running? ==>
      var Running(job, cur, n) := s.live[w];
      && job in s.db.rows
      && s.db.rows[job].state == cur
      && s.db.rows[job].worker == Some(w)
      && s.db.rows[job].lease.Some? && s.now <= s.db.rows[job].lease.value
      && n <= 3 && cur == CurAfter(s.db.rows[job].kind, n)
      && (s.db.rows[job].kind == Train ==> n == 0)
  }

  /** Where a job can rest: not in `received`, `validated` or `failed_retryable`. */
  predicate SettledState(st: JobState) {
    st == Queued || st in IN_FLIGHT || st in TERMINAL
  }

  ghost predicate Inv(s: System) {
    && DbOk(s.db)
    && (forall w {:trigger HolderOk(s, w)} :: w in s.live ==> HolderOk(s, w))
  }

  predicate Initial(s: System) {
    s.db == Db(map[], []) && s.queue == [] && s.processing == map[] && s.live == map[]
  }

  // ---- what the database operations keep --------------------------------------------------

  /** The moves the code issues: legal, not out of `queued`, and back to `queued` only while an
      attempt is left. */
  predicate Issued(row: Row, dst: JobState) {
    && Allowed(row.state, dst)
    && row.state != Queued
    && (dst == Queued ==> row.attempts < Cap(row.maxAttempts))
  }

  lemma LawfulSnoc(h: seq<Change>, e: Change)
    requires Lawful(h) && Follows(h[|h| - 1], e)
    ensures Lawful(h + [e])
  {
    var g := h + [e];
    forall i | 0 < i < |g| ensures LinkAt(g, i) {
      if i < |h| { assert LinkAt(h, i); }
    }
  }

  lemma SortedSnoc(db: Db, e: Event)
    requires DbOk(db) && (e.job in db.rows ==> db.rows[e.job].attempts <= e.attempt)
    ensures AttemptsSorted(db.log + [e])
  {
    var g := db.log + [e];
    forall i, k | 0 <= i < k < |g| ensures OrderedPair(g, i, k) {
      assert EntryOk(db, db.log[i]);
      if k < |db.log| { assert OrderedPair(db.log, i, k); }
    }
  }

  lemma OtherHistoryKeeps(log: seq<Event>, e: Event, j: JobId, row: Row)
    requires HistoryOk(log, j, row) && e.job != j
    ensures HistoryOk(log + [e], j, row)
  {
    assert Moves(log + [e], j) == Moves(log, j);
  }

  lemma EntriesKeep(db: Db, job: JobId, row: Row, e: Event)
    requires DbOk(db) && e.job == job && e.attempt == row.attempts
    requires job in db.rows ==> db.rows[job].attempts <= row.attempts
    ensures
      var db' := Db(db.rows[job := row], db.log + [e]);
      forall i :: 0 <= i < |db'.log| ==> EntryOk(db', db'.log[i])
  {
    var db' := Db(db.rows[job := row], db.log + [e]);
    forall i | 0 <= i < |db'.log| ensures EntryOk(db', db'.log[i]) {
      if i < |db.log| { assert EntryOk(db, db.log[i]); }
    }
  }

  /** Appending one event for `job`, whose row becomes `row`. */
  lemma AppendKeeps(db: Db, job: JobId, row: Row, e: Event)
    requires DbOk(db) && e.job == job && e.attempt == row.attempts
    requires job in db.rows ==> db.rows[job].attempts <= row.attempts
    requires RowOk(row) && HistoryOk(db.log + [e], job, row)
    ensures DbOk(Db(db.rows[job := row], db.log + [e]))
  {
    var db' := Db(db.rows[job := row], db.log + [e]);
    forall j | j in db'.rows ensures JobOk(db', j) {
      if j != job {
        assert JobOk(db, j);
        OtherHistoryKeeps(db.log, e, j, db.rows[j]);
      }
    }
    EntriesKeep(db, job, row, e);
    SortedSnoc(db, e);
  }

  lemma MoveKeeps(db: Db, job: JobId, dst: JobState, who: Option<WorkerId>, now: int)
    requires DbOk(db) && job in db.rows && Issued(db.rows[job], dst)
    ensures DbOk(Move(db, job, dst, who, now))
    ensures Potential(Move(db, job, dst, who, now).rows[job]) < Potential(db.rows[job])
    ensures |Moves(Move(db, job, dst, who, now).log, job)| == |Moves(db.log, job)| + 1
  {
    assert JobOk(db, job);
    var row := db.rows[job];
    var row' := row.(state := dst, updated := now);
    var e := Moved(job, dst, row.attempts, who, false);
    MoveLowers(row, dst, now);
    LawfulSnoc(Moves(db.log, job), Change(dst, row.attempts, false));
    AppendKeeps(db, job, row', e);
  }

  lemma MoveLowers(row: Row, dst: JobState, now: int)
    requires RowOk(row) && Issued(row, dst)
    ensures RowOk(row.(state := dst, updated := now))
    ensures Potential(row.(state := dst, updated := now)) < Potential(row)
  {
  }

  lemma InsertKeeps(db: Db, job: JobId, kind: Kind, key: nat, maxAttempts: int, now: int)
    requires DbOk(db) && job !in db.rows
    ensures DbOk(Insert(db, job, kind, key, maxAttempts, now))
    ensures |Moves(Insert(db, job, kind, key, maxAttempts, now).log, job)| == 1
  {
    var e := Moved(job, Received, 0, None, false);
    var row := Row(kind, key, Received, 0, maxAttempts, None, None, now);
    NoMoves(db, db.log, job);
    assert Moves(db.log + [e], job) == [Change(Received, 0, false)];
    assert HistoryOk(db.log + [e], job, row);
    AppendKeeps(db, job, row, e);
  }

  /** A job without a row has no history. */
  lemma NoMoves(db: Db, log: seq<Event>, job: JobId)
    requires job !in db.rows && forall i :: 0 <= i < |log| ==> EntryOk(db, log[i])
    ensures Moves(log, job) == []
  {
  }

  /** The history that goes with a claimed row. */
  lemma ClaimedHistory(log: seq<Event>, job: JobId, row: Row, row': Row, e: Event)
    requires RowOk(row) && HistoryOk(log, job, row) && row.state == Queued
    requires row' == row.(state := FirstState(row.kind), attempts := row.attempts + 1, worker := row'.worker,
                          lease := row'.lease, updated := row'.updated)
    requires e == Moved(job, FirstState(row.kind), row.attempts + 1, row'.worker, true)
    ensures HistoryOk(log + [e], job, row') && Potential(row') < Potential(row)
    ensures |Moves(log + [e], job)| == |Moves(log, job)| + 1
  {
    var change := Change(FirstState(row.kind), row.attempts + 1, true);
    LawfulSnoc(Moves(log, job), change);
    assert Moves(log + [e], job) == Moves(log, job) + [change];
  }

  lemma ClaimKeeps(db: Db, job: JobId, w: WorkerId, leaseS: nat, now: int)
    requires DbOk(db) && InState(db, job, Queued)
    ensures
      var db' := ClaimRow(db, job, w, FirstState(db.rows[job].kind), leaseS, now);
      && DbOk(db') && Potential(db'.rows[job]) < Potential(db.rows[job])
      && |Moves(db'.log, job)| == |Moves(db.log, job)| + 1
  {
    assert JobOk(db, job);
    var row := db.rows[job];
    var row' := ClaimRow(db, job, w, FirstState(row.kind), leaseS, now).rows[job];
    var e := Moved(job, FirstState(row.kind), row.attempts + 1, Some(w), true);
    ClaimedHistory(db.log, job, row, row', e);
    AppendKeeps(db, job, row', e);
  }

  lemma NoteKeeps(db: Db, job: JobId, stage: nat, w: WorkerId)
    requires DbOk(db)
    ensures DbOk(AddNote(db, job, stage, w)) && AddNote(db, job, stage, w).rows == db.rows
    ensures forall j :: Moves(AddNote(db, job, stage, w).log, j) == Moves(db.log, j)
  {
    if job in db.rows {
      assert JobOk(db, job);
      var e := Noted(job, stage, db.rows[job].attempts, Some(w));
      forall j ensures Moves(db.log + [e], j) == Moves(db.log, j) {}
      AppendKeeps(db, job, db.rows[job], e);
      assert db.rows[job := db.rows[job]] == db.rows;
    }
  }

  lemma RenewKeeps(db: Db, job: JobId, w: WorkerId, leaseS: nat, now: int)
    requires DbOk(db)
    ensures DbOk(Renew(db, job, w, leaseS, now))
  {
    var db' := Renew(db, job, w, leaseS, now);
    forall j | j in db'.rows ensures JobOk(db', j) { assert JobOk(db, j); }
    forall i | 0 <= i < |db'.log| ensures EntryOk(db', db'.log[i]) { assert EntryOk(db, db.log[i]); }
  }

  /** `failed_retryable` with a current reading of `attempts` always settles. */
  lemma AfterRetryableKeeps(db: Db, job: JobId, now: int)
    requires DbOk(db) && InState(db, job, FailedRetryable)
    ensures
      var row := db.rows[job];
      var r := AfterRetryable(db, job, row.attempts, row.maxAttempts, now);
      var dst := if r.1 then Queued else FailedTerminal;
      && DbOk(r.0)
      && r.0 == Move(db, job, dst, None, now)
      && Potential(r.0.rows[job]) < Potential(row)
      && |Moves(r.0.log, job)| == |Moves(db.log, job)| + 1
  {
    var row := db.rows[job];
    assert JobOk(db, job);
    var dst := if row.attempts < row.maxAttempts then Queued else FailedTerminal;
    MoveKeeps(db, job, dst, None, now);
  }
}
