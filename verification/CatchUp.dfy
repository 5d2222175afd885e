/** The catch-up run: start, tallies, finish, cancel, and the narrower
    `retry_failed`, each as one transaction over the tables. */
module CatchUp {

  import opened Options
  import opened Outcomes
  import opened Database
  import opened Presence
  import opened Sums

  const MIN_CADENCE_SECONDS := 60
  const MAX_IDLE_DRAINS := 2

  /** The settings a catch-up and its drain read. `writesEveryItem` is the two
      config-level terms of the metadata gate: a field verb, or parental labels. */
  datatype Settings = Settings(
    schedulerEnabled: bool,
    pendingMinutes: nat,
    budget: nat,
    operationsEnabled: bool,
    writeTo: set<Server>,
    writesEveryItem: bool,
    badgesEnabled: bool,
    uploadTo: set<Server>)

  /** One request to start, with what the world answered: `libraries` is `None`
      when the server could not list them. */
  datatype Request = Request(
    server: Server,
    known: bool,
    healthy: Option<bool>,
    libraries: Option<set<string>>,
    cadence: Option<int>,
    now: int,
    runId: RunId)

  datatype Refusal = NotConfigured | SchedulerOff | NotReachable | CannotList | InFlight

  predicate WritesMetadata(s: Settings, server: Server) {
    s.operationsEnabled && server in s.writeTo
  }

  predicate UploadsArtwork(s: Settings, server: Server) {
    s.badgesEnabled && server in s.uploadTo
  }

  predicate HasSomethingToWrite(s: Settings, i: Item) {
    s.writesEveryItem || i.hasFacts || i.hasOverrides
  }

  predicate Deliverable(r: Render) {
    r.rendered && !r.background
  }

  // ------------------------------------------------------------------ marking

  function Armed(r: Row, now: int, run: RunId): Row {
    r.(status := Pending,
       previous := if r.runId.Some? && r.status == Pending then r.previous else Some(r.status),
       attemptedAt := Some(now), nextAttemptAt := Some(now), attempts := 0, runId := Some(run))
  }

  function Created(now: int, run: RunId): Row {
    Row(Pending, 0, Some(now), Some(now), None, None, Some(run), None)
  }

  /** The half of the delivery this key belongs to is switched on. */
  predicate Delivering(s: Settings, server: Server, table: Table) {
    match table
    case Metadata => WritesMetadata(s, server)
    case Artwork => UploadsArtwork(s, server)
  }

  /** The server carries the key's library, and there is something to send it. */
  predicate Wanted(db: Db, s: Settings, server: Server, present: set<string>, k: Key) {
    && k.server == server && OwnerExists(db, k) && Library(db, k) in present
    && match k.table
       case Metadata => HasSomethingToWrite(s, db.items[k.owner])
       case Artwork => Deliverable(db.renders[k.owner])
  }

  /** The row does not say that the server has what it should. */
  predicate Behind(db: Db, k: Key, r: Row)
    requires OwnerExists(db, k)
  {
    match k.table
    case Metadata => r.status !in {Absent, Skipped}
    case Artwork =>
      || Unsettled(r.status)
      || (r.status == Uploaded && r.fingerprint != db.renders[k.owner].badge)
  }

  /** The update of one table, at one key. */
  function ArmedAt(db: Db, s: Settings, server: Server, present: set<string>, now: int, run: RunId, k: Key, stored: Option<Row>): Option<Row> {
    if stored.Some? && Wanted(db, s, server, present, k) && Behind(db, k, stored.value)
    then Some(Armed(stored.value, now, run))
    else stored
  }

  /** The insert of one table, at one key: a row that is there conflicts and stays. */
  function InsertedAt(db: Db, s: Settings, server: Server, present: set<string>, now: int, run: RunId, k: Key, stored: Option<Row>): Option<Row> {
    if stored.None? && Wanted(db, s, server, present, k) then Some(Created(now, run)) else stored
  }

  /** What marking leaves at one key: a row that was behind is armed, a missing
      one is created, and one that is as it should be stays. */
  function MarkedRow(db: Db, s: Settings, server: Server, present: set<string>, now: int, run: RunId, k: Key): Option<Row> {
    var stored := Find(db.rows, k);
    if !Delivering(s, server, k.table) || !Wanted(db, s, server, present, k) then stored
    else match stored
      case None => Some(Created(now, run))
      case Some(r) => if Behind(db, k, r) then Some(Armed(r, now, run)) else stored
  }

  /** The update and the insert commute: an update that did see the rows the insert
      creates would find them armed by this run, carry their empty memory on, and
      leave them as they are. */
  lemma EitherOrderMarks(db: Db, s: Settings, server: Server, present: set<string>, now: int, run: RunId, k: Key)
    requires Delivering(s, server, k.table)
    ensures var stored := Find(db.rows, k);
            && InsertedAt(db, s, server, present, now, run, k, ArmedAt(db, s, server, present, now, run, k, stored))
               == MarkedRow(db, s, server, present, now, run, k)
            && ArmedAt(db, s, server, present, now, run, k, InsertedAt(db, s, server, present, now, run, k, stored))
               == MarkedRow(db, s, server, present, now, run, k)
  {
  }

  function MarkedRows(db: Db, s: Settings, server: Server, present: set<string>, now: int, run: RunId): Rows {
    map k | k in db.rows.Keys + Universe(db, server) && MarkedRow(db, s, server, present, now, run, k).Some?
      :: MarkedRow(db, s, server, present, now, run, k).value
  }

  function Mark(db: Db, s: Settings, server: Server, present: set<string>, now: int, run: RunId): Db {
    var rows := MarkedRows(db, s, server, present, now, run);
    var renders :=
      if UploadsArtwork(s, server) then RollupMany(rows, db.renders, Stamped(rows, server, now))
      else db.renders;
    db.(rows := rows, renders := renders)
  }

  lemma MarkedRowsAt(db: Db, s: Settings, server: Server, present: set<string>, now: int, run: RunId, k: Key)
    ensures Find(MarkedRows(db, s, server, present, now, run), k) == MarkedRow(db, s, server, present, now, run, k)
  {
    if k.server == server && OwnerExists(db, k) {
      assert k in Universe(db, server);
    }
  }

  lemma MarkAgrees(db: Db, s: Settings, server: Server, present: set<string>, now: int, run: RunId)
    requires AllAgree(db)
    ensures AllAgree(Mark(db, s, server, present, now, run))
  {
    var rows := MarkedRows(db, s, server, present, now, run);
    var chosen := Stamped(rows, server, now);
    forall k: Key
      ensures k.table == Artwork && Find(rows, k) != Find(db.rows, k) ==>
                k in rows && k.owner in chosen && UploadsArtwork(s, server)
    {
      MarkedRowsAt(db, s, server, present, now, run, k);
    }
    forall r | r in db.renders && (r !in chosen || !UploadsArtwork(s, server))
      ensures SameArt(db.rows, rows, r)
    {
      assert forall k: Key | k.table == Artwork && k.owner == r :: Find(rows, k) == Find(db.rows, k);
    }
    if UploadsArtwork(s, server) {
      RollupManyAgrees(db.rows, rows, db.renders, chosen);
    } else {
      forall r | r in db.renders
        ensures Agrees(rows, db.renders, r)
      {
        assert Agrees(db.rows, db.renders, r);
        SameArtSameFold(db.rows, rows, r);
      }
    }
  }

  /** The row joined the run: due at once, with its whole budget, and with what it was
      sent before left as it was. */
  ghost predicate Joined(before: Rows, after: Rows, k: Key, now: int, run: RunId) {
    && k in after
    && after[k].runId == Some(run) && after[k].status == Pending && after[k].attempts == 0
    && after[k].attemptedAt == Some(now) && after[k].nextAttemptAt == Some(now)
    && after[k].terminalAt == (if k in before then before[k].terminalAt else None)
    && after[k].fingerprint == (if k in before then before[k].fingerprint else None)
  }

  /** Read off the tables: an artwork row joins exactly when uploads are on, the render
      is rendered, no background, and of a carried library, and the row is missing,
      unsettled, or uploaded from other bytes than the render's. Otherwise it stays. */
  lemma ArtworkJoinsIff(db: Db, s: Settings, server: Server, present: set<string>, now: int, run: RunId, render: nat)
    requires Key(Artwork, render, server) in db.rows ==> db.rows[Key(Artwork, render, server)].runId != Some(run)
    ensures var k, marked := Key(Artwork, render, server), MarkedRows(db, s, server, present, now, run);
            var joins := && s.badgesEnabled && server in s.uploadTo
                         && render in db.renders && db.renders[render].item in db.items
                         && db.renders[render].rendered && !db.renders[render].background
                         && db.items[db.renders[render].item].library in present
                         && (|| k !in db.rows
                             || db.rows[k].status == Pending || db.rows[k].status == Failed
                             || (db.rows[k].status == Uploaded && db.rows[k].fingerprint != db.renders[render].badge));
            && (joins <==> k in marked && marked[k].runId == Some(run))
            && (joins ==> Joined(db.rows, marked, k, now, run))
            && (!joins ==> Find(marked, k) == Find(db.rows, k))
  {
    MarkedRowsAt(db, s, server, present, now, run, Key(Artwork, render, server));
  }

  /** And a metadata row exactly when writes are on, the item is of a carried library
      and has something to write, and the row is neither absent nor skipped. */
  lemma MetadataJoinsIff(db: Db, s: Settings, server: Server, present: set<string>, now: int, run: RunId, item: nat)
    requires Key(Metadata, item, server) in db.rows ==> db.rows[Key(Metadata, item, server)].runId != Some(run)
    ensures var k, marked := Key(Metadata, item, server), MarkedRows(db, s, server, present, now, run);
            var joins := && s.operationsEnabled && server in s.writeTo
                         && item in db.items && db.items[item].library in present
                         && (s.writesEveryItem || db.items[item].hasFacts || db.items[item].hasOverrides)
                         && (k !in db.rows || (db.rows[k].status != Absent && db.rows[k].status != Skipped));
            && (joins <==> k in marked && marked[k].runId == Some(run))
            && (joins ==> Joined(db.rows, marked, k, now, run))
            && (!joins ==> Find(marked, k) == Find(db.rows, k))
  {
    MarkedRowsAt(db, s, server, present, now, run, Key(Metadata, item, server));
  }

  /** No other server's row is touched. */
  lemma OtherServersStay(db: Db, s: Settings, server: Server, present: set<string>, now: int, run: RunId, k: Key)
    requires k.server != server
    ensures Find(MarkedRows(db, s, server, present, now, run), k) == Find(db.rows, k)
  {
    MarkedRowsAt(db, s, server, present, now, run, k);
  }

  // -------------------------------------------------------------------- start

  predicate HasOpenRun(db: Db, server: Server) {
    exists r :: r in db.runs && db.runs[r].server == server && db.runs[r].finishedAt.None?
  }

  function Refused(db: Db, s: Settings, q: Request): Option<Refusal> {
    if !q.known then Some(NotConfigured)
    else if !s.schedulerEnabled then Some(SchedulerOff)
    else if q.healthy == Some(false) then Some(NotReachable)
    else if q.libraries.None? then Some(CannotList)
    else if HasOpenRun(db, q.server) then Some(InFlight)
    else None
  }

  function Cadence(s: Settings, q: Request): nat {
    var asked := if q.cadence.Some? then q.cadence.value else s.pendingMinutes * 60;
    if asked < MIN_CADENCE_SECONDS then MIN_CADENCE_SECONDS else asked
  }

  function NewRun(s: Settings, q: Request): Run {
    Run(q.server, Cadence(s, q), None, 0, None, Running, None, None, None, None)
  }

  /** The state the marking works on: presence stamped, unless nothing is carried. */
  function Stamp(db: Db, q: Request): Db
    requires q.libraries.Some?
  {
    if q.libraries.value == {} then db else ApplyPresence(db, q.server, q.libraries.value, q.now)
  }

  function Opened(db: Db, s: Settings, q: Request): Db {
    db.(runs := db.runs[q.runId := NewRun(s, q)])
  }

  function Start(db: Db, s: Settings, q: Request): Result<Db, Refusal> {
    var refusal := Refused(db, s, q);
    if refusal.Some? then Failure(refusal.value)
    else
      var stamped := Opened(Stamp(db, q), s, q);
      Success(if q.libraries.value == {} then stamped
              else Mark(stamped, s, q.server, q.libraries.value, q.now, q.runId))
  }

  /** A start goes ahead exactly when the server is known, the scheduler is on, its
      poller does not say it is down, it lists its libraries, and none of its runs is
      open. It then opens one run, undrained and idle for nothing, whose cadence is the
      one asked for or the scheduler's, never under a minute, and marks the rows
      presence left -- unless no library was listed, when it marks nothing. */
  lemma StartOpens(db: Db, s: Settings, q: Request)
    ensures Start(db, s, q).Success? <==>
            && q.known && s.schedulerEnabled && q.healthy != Some(false) && q.libraries.Some?
            && forall r :: r in db.runs && db.runs[r].server == q.server ==> db.runs[r].finishedAt.Some?
    ensures Start(db, s, q).Success? ==>
            var after := Start(db, s, q).value;
            && q.runId in after.runs && after.runs == db.runs[q.runId := after.runs[q.runId]]
            && var run := after.runs[q.runId];
               && run.server == q.server && run.status == Running && run.finishedAt.None?
               && run.lastDrainedAt.None? && run.idleDrains == 0
               && run.processed.None? && run.failed.None? && run.deferred.None? && run.detail.None?
               && run.cadence >= 60
               && (q.cadence.Some? && q.cadence.value >= 60 ==> run.cadence == q.cadence.value)
               && (q.cadence.Some? && q.cadence.value < 60 ==> run.cadence == 60)
               && (q.cadence.None? ==> run.cadence == if s.pendingMinutes == 0 then 60 else s.pendingMinutes * 60)
    ensures Start(db, s, q).Success? ==>
            Start(db, s, q).value.rows ==
            if q.libraries.value == {} then db.rows
            else MarkedRows(Opened(ApplyPresence(db, q.server, q.libraries.value, q.now), s, q),
                            s, q.server, q.libraries.value, q.now, q.runId)
  {
  }

  /** And the reason of a refusal is the first that holds, in this order. */
  lemma StartRefuses(db: Db, s: Settings, q: Request)
    ensures Start(db, s, q) == Failure(NotConfigured) <==> !q.known
    ensures Start(db, s, q) == Failure(SchedulerOff) <==> q.known && !s.schedulerEnabled
    ensures Start(db, s, q) == Failure(NotReachable) <==> q.known && s.schedulerEnabled && q.healthy == Some(false)
    ensures Start(db, s, q) == Failure(CannotList) <==>
            q.known && s.schedulerEnabled && q.healthy != Some(false) && q.libraries.None?
    ensures Start(db, s, q) == Failure(InFlight) <==>
            && q.known && s.schedulerEnabled && q.healthy != Some(false) && q.libraries.Some?
            && exists r :: r in db.runs && db.runs[r].server == q.server && db.runs[r].finishedAt.None?
  {
  }

  lemma StartAgrees(db: Db, s: Settings, q: Request)
    requires AllAgree(db) && Start(db, s, q).Success?
    ensures AllAgree(Start(db, s, q).value)
  {
    if q.libraries.value != {} {
      PresenceAgrees(db, q.server, q.libraries.value, q.now);
      var stamped := Opened(Stamp(db, q), s, q);
      assert forall r :: r in stamped.renders ==> Agrees(Stamp(db, q).rows, Stamp(db, q).renders, r);
      MarkAgrees(stamped, s, q.server, q.libraries.value, q.now, q.runId);
    }
  }

  // ------------------------------------------------------------------ tallies

  datatype Tallies = Tallies(due: nat, done: nat, failed: nat) {
    function Total(): nat { due + done + failed }
  }

  predicate Done(table: Table, status: Status) {
    status in {Terminal(table), Skipped, Absent}
  }

  function InRun(rows: Rows, run: RunId): set<Key> {
    set k | k in rows && rows[k].runId == Some(run)
  }

  function DueKeys(rows: Rows, run: RunId): set<Key> {
    set k | k in InRun(rows, run) && rows[k].status == Pending
  }

  function DoneKeys(rows: Rows, run: RunId): set<Key> {
    set k | k in InRun(rows, run) && Done(k.table, rows[k].status)
  }

  function FailedKeys(rows: Rows, run: RunId): set<Key> {
    set k | k in InRun(rows, run) && rows[k].status == Failed
  }

  function RunTallies(rows: Rows, run: RunId): Tallies {
    Tallies(|DueKeys(rows, run)|, |DoneKeys(rows, run)|, |FailedKeys(rows, run)|)
  }

  function AttemptsIn(rows: Rows, run: RunId): map<Key, nat> {
    map k | k in InRun(rows, run) :: rows[k].attempts
  }

  ghost function AttemptsSpent(rows: Rows, run: RunId): nat {
    Sum(AttemptsIn(rows, run))
  }

  predicate Vocabulary(rows: Rows) {
    forall k :: k in rows ==> InVocabulary(k.table, rows[k].status)
  }

  /** Every row a run owns is counted exactly once. */
  lemma TalliesPartition(rows: Rows, run: RunId)
    requires Vocabulary(rows)
    ensures DueKeys(rows, run) !! DoneKeys(rows, run) !! FailedKeys(rows, run)
    ensures DueKeys(rows, run) + DoneKeys(rows, run) + FailedKeys(rows, run) == InRun(rows, run)
    ensures RunTallies(rows, run).Total() == |InRun(rows, run)|
    ensures forall k :: k in DueKeys(rows, run) <==> k in rows && rows[k].runId == Some(run) && rows[k].status == Pending
    ensures forall k :: k in FailedKeys(rows, run) <==> k in rows && rows[k].runId == Some(run) && rows[k].status == Failed
    ensures forall k :: k in DoneKeys(rows, run) <==>
              && k in rows && rows[k].runId == Some(run)
              && (rows[k].status in {Skipped, Absent} || rows[k].status == if k.table == Artwork then Uploaded else Written)
    ensures RunTallies(rows, run).due == |DueKeys(rows, run)| && RunTallies(rows, run).failed == |FailedKeys(rows, run)|
  {
    var due, done, failed := DueKeys(rows, run), DoneKeys(rows, run), FailedKeys(rows, run);
    forall k | k in InRun(rows, run)
      ensures k in due + done + failed
    {
      assert InVocabulary(k.table, rows[k].status);
    }
    assert due + done + failed == InRun(rows, run);
    assert |due + done| == |due| + |done|;
    assert |due + done + failed| == |due + done| + |failed|;
  }

  // ------------------------------------------------------------------- finish

  function Released(rows: Rows, run: RunId): Rows {
    map k | k in rows ::
      if rows[k].runId == Some(run) then rows[k].(runId := None, previous := None) else rows[k]
  }

  function Closed(r: Run, status: RunStatus, detail: Detail, t: Tallies, now: int): Run {
    r.(processed := Some(t.Total()), failed := Some(t.failed), deferred := Some(t.due),
       finishedAt := Some(now), status := status, detail := Some(detail))
  }

  function Finish(db: Db, run: RunId, status: RunStatus, detail: Detail, t: Tallies, now: int): Db {
    if !IsOpen(db, run) then db
    else db.(runs := db.runs[run := Closed(db.runs[run], status, detail, t, now)],
             rows := Released(db.rows, run))
  }

  datatype Progress = Progress(due: int, done: int, failed: int, total: int)

  function OrZero(n: Option<nat>): nat {
    if n.Some? then n.value else 0
  }

  /** The four numbers `catch_up_progress` serves for one run. */
  function ProgressOf(db: Db, run: RunId): Progress
    requires run in db.runs
  {
    var r := db.runs[run];
    if r.finishedAt.Some? && r.processed.Some? then
      var due, failed := OrZero(r.deferred), OrZero(r.failed);
      Progress(due, r.processed.value - due - failed, failed, r.processed.value)
    else
      var t := RunTallies(db.rows, run);
      Progress(t.due, t.done, t.failed, t.Total())
  }

  lemma ClosedServes(db: Db, run: RunId, t: Tallies)
    requires run in db.runs && db.runs[run].finishedAt.Some?
    requires db.runs[run].processed == Some(t.Total()) && db.runs[run].failed == Some(t.failed) && db.runs[run].deferred == Some(t.due)
    ensures ProgressOf(db, run) == Progress(t.due, t.done, t.failed, t.Total())
  {
  }

  /** A close serves the numbers it counted, though the rows they were counted
      from are the run's no longer: whatever happens to the tables afterwards,
      the answer depends on the run's own columns alone. */
  lemma ProgressSurvivesTheClose(db: Db, run: RunId, status: RunStatus, detail: Detail, now: int, later: Db)
    requires IsOpen(db, run)
    requires var closed := Finish(db, run, status, detail, RunTallies(db.rows, run), now);
             run in later.runs && later.runs[run] == closed.runs[run]
    ensures ProgressOf(later, run) == ProgressOf(db, run)
    ensures InRun(Finish(db, run, status, detail, RunTallies(db.rows, run), now).rows, run) == {}
  {
    ClosedServes(later, run, RunTallies(db.rows, run));
  }

  // ------------------------------------------------------------------- cancel

  function CancelledRow(r: Row, run: RunId, now: int): Option<Row> {
    if r.runId != Some(run) then Some(r)
    else if r.status != Pending then Some(r.(runId := None, previous := None))
    else match r.previous
      case None => None
      case Some(was) =>
        Some(r.(status := was,
                nextAttemptAt := if was == Pending then Some(now + RETRY_SECONDS) else None,
                runId := None, previous := None))
  }

  function CancelledRows(rows: Rows, run: RunId, now: int): Rows {
    map k | k in rows && CancelledRow(rows[k], run, now).Some? :: CancelledRow(rows[k], run, now).value
  }

  function RunRenders(rows: Rows, run: RunId): set<nat> {
    set k | k in InRun(rows, run) && k.table == Artwork :: k.owner
  }

  function RestoredKeys(rows: Rows, run: RunId): set<Key> {
    set k | k in DueKeys(rows, run) && rows[k].previous.Some?
  }

  function RemovedKeys(rows: Rows, run: RunId): set<Key> {
    set k | k in DueKeys(rows, run) && rows[k].previous.None?
  }

  function CancelSentence(rows: Rows, run: RunId): Detail {
    var t := RunTallies(rows, run);
    CancelDetail(t.Total(), t.done, t.failed, |RestoredKeys(rows, run)|, |RemovedKeys(rows, run)|)
  }

  /** The two updates and the roll-up, then the close with what was counted first. */
  function CancelWith(db: Db, run: RunId, detail: Detail, t: Tallies, now: int): Db {
    var rows := CancelledRows(db.rows, run, now);
    var restored := db.(rows := rows, renders := RollupMany(rows, db.renders, RunRenders(db.rows, run)));
    Finish(restored, run, Cancelled, detail, t, now)
  }

  /** Cancelling the open run `run`. */
  function Cancel(db: Db, run: RunId, now: int): Db {
    CancelWith(db, run, CancelSentence(db.rows, run), RunTallies(db.rows, run), now)
  }

  lemma CancelledOwnsNothing(rows: Rows, run: RunId, now: int)
    ensures InRun(CancelledRows(rows, run, now), run) == {}
    ensures Released(CancelledRows(rows, run, now), run) == CancelledRows(rows, run, now)
  {
  }

  lemma CancelledRowsAt(rows: Rows, run: RunId, now: int, k: Key)
    ensures Find(CancelledRows(rows, run, now), k) ==
            if k in rows then CancelledRow(rows[k], run, now) else None
  {
  }

  /** The rows and renders a cancel leaves, whether or not it finds the run open. */
  lemma CancelWithLeaves(db: Db, run: RunId, detail: Detail, t: Tallies, now: int)
    ensures CancelWith(db, run, detail, t, now).rows == CancelledRows(db.rows, run, now)
    ensures CancelWith(db, run, detail, t, now).renders ==
            RollupMany(CancelledRows(db.rows, run, now), db.renders, RunRenders(db.rows, run))
    ensures CancelWith(db, run, detail, t, now).items == db.items
    ensures CancelWith(db, run, detail, t, now).runs ==
            if IsOpen(db, run) then db.runs[run := Closed(db.runs[run], Cancelled, detail, t, now)] else db.runs
  {
    CancelledOwnsNothing(db.rows, run, now);
  }

  lemma CancelLeaves(db: Db, run: RunId, now: int)
    ensures Cancel(db, run, now).rows == CancelledRows(db.rows, run, now)
    ensures Cancel(db, run, now).renders ==
            RollupMany(CancelledRows(db.rows, run, now), db.renders, RunRenders(db.rows, run))
  {
    CancelWithLeaves(db, run, CancelSentence(db.rows, run), RunTallies(db.rows, run), now);
  }

  /** A render with no row in the run has the rows it had. */
  lemma CancelLeavesOtherArt(rows: Rows, run: RunId, now: int, render: nat)
    requires render !in RunRenders(rows, run)
    ensures SameArt(rows, CancelledRows(rows, run, now), render)
  {
    forall k: Key | k.table == Artwork && k.owner == render
      ensures Find(CancelledRows(rows, run, now), k) == Find(rows, k)
    {
      CancelledRowsAt(rows, run, now, k);
      assert k !in InRun(rows, run);
    }
  }

  lemma CancelAgrees(db: Db, run: RunId, now: int)
    requires AllAgree(db)
    ensures AllAgree(Cancel(db, run, now))
  {
    var rows, chosen := CancelledRows(db.rows, run, now), RunRenders(db.rows, run);
    forall r | r in db.renders && r !in chosen {
      CancelLeavesOtherArt(db.rows, run, now, r);
    }
    RollupManyAgrees(db.rows, rows, db.renders, chosen);
    CancelLeaves(db, run, now);
  }

  lemma CancelClosesWith(db: Db, run: RunId, now: int)
    requires IsOpen(db, run)
    ensures Cancel(db, run, now).runs ==
            db.runs[run := Closed(db.runs[run], Cancelled, CancelSentence(db.rows, run), RunTallies(db.rows, run), now)]
    ensures Cancel(db, run, now).rows == CancelledRows(db.rows, run, now)
    ensures Cancel(db, run, now).renders ==
            RollupMany(CancelledRows(db.rows, run, now), db.renders, RunRenders(db.rows, run))
    ensures Cancel(db, run, now).items == db.items
  {
    CancelWithLeaves(db, run, CancelSentence(db.rows, run), RunTallies(db.rows, run), now);
  }

  /** The numbers a cancel stamps, and the ones it then serves for ever. */
  lemma ProgressSurvivesTheCancel(db: Db, run: RunId, now: int, later: Db)
    requires IsOpen(db, run)
    requires run in later.runs && later.runs[run] == Cancel(db, run, now).runs[run]
    ensures ProgressOf(later, run) == ProgressOf(db, run)
  {
    CancelClosesWith(db, run, now);
    ClosedServes(later, run, RunTallies(db.rows, run));
  }

  /** The verdict a cancel leaves on its run, and on no other. */
  lemma CancelVerdict(db: Db, run: RunId, now: int)
    requires IsOpen(db, run)
    ensures var after, t := Cancel(db, run, now), RunTallies(db.rows, run);
            && run in after.runs && after.runs == db.runs[run := after.runs[run]]
            && after.runs[run].status == Cancelled && after.runs[run].finishedAt == Some(now)
            && after.runs[run].processed == Some(t.due + t.done + t.failed)
            && after.runs[run].failed == Some(t.failed) && after.runs[run].deferred == Some(t.due)
            && after.runs[run].detail ==
               Some(CancelDetail(t.due + t.done + t.failed, t.done, t.failed,
                                 |RestoredKeys(db.rows, run)|, |RemovedKeys(db.rows, run)|))
  {
    CancelClosesWith(db, run, now);
  }

  /** Every row a cancel finds due is either restored or removed. */
  lemma CancelCountsAddUp(rows: Rows, run: RunId)
    ensures RunTallies(rows, run).due == |RestoredKeys(rows, run)| + |RemovedKeys(rows, run)|
  {
    assert DueKeys(rows, run) == RestoredKeys(rows, run) + RemovedKeys(rows, run);
  }

  /** What a row said before any catch-up armed it; `None` when it was not there. */
  function Origin(stored: Option<Row>): Option<Status> {
    match stored
    case None => None
    case Some(r) => if r.runId.Some? && r.status == Pending then r.previous else Some(r.status)
  }

  /** Every row the run still carries remembers what `origin` said about it. */
  ghost predicate Remembers(origin: Rows, rows: Rows, run: RunId) {
    forall k :: k in rows && rows[k].runId == Some(run) ==> rows[k].previous == Origin(Find(origin, k))
  }

  /** Marking records the origin, even of a row that was already armed: marking
      twice forgets nothing. */
  lemma MarkRemembers(db: Db, s: Settings, server: Server, present: set<string>, now: int, run: RunId)
    requires forall k :: k in db.rows ==> db.rows[k].runId != Some(run)
    ensures Remembers(db.rows, MarkedRows(db, s, server, present, now, run), run)
    ensures var marked := MarkedRows(db, s, server, present, now, run);
            forall k :: k in marked && marked[k].runId == Some(run) && marked[k].status == Pending ==>
                          Origin(Find(marked, k)) == Origin(Find(db.rows, k))
  {
    var marked := MarkedRows(db, s, server, present, now, run);
    forall k | k in marked
      ensures marked[k].runId == Some(run) ==> marked[k].previous == Origin(Find(db.rows, k))
    {
      MarkedRowsAt(db, s, server, present, now, run, k);
    }
  }

  /** A cancel puts an unsettled row back to what `origin` said, removes one that
      was not there, and undoes nothing that settled. */
  lemma CancelRestores(origin: Rows, db: Db, run: RunId, now: int, k: Key)
    requires Remembers(origin, db.rows, run)
    ensures var after := Cancel(db, run, now).rows;
            && (k !in db.rows ==> k !in after)
            && (k in db.rows ==>
                  var r, was := db.rows[k], Origin(Find(origin, k));
                  if r.runId != Some(run) then k in after && after[k] == r
                  else if r.status != Pending then k in after && after[k] == r.(runId := None, previous := None)
                  else if was.None? then k !in after
                  else && k in after
                       && after[k].status == was.value
                       && after[k].nextAttemptAt == (if was.value == Pending then Some(now + 21600) else None)
                       && after[k].attempts == r.attempts && after[k].attemptedAt == r.attemptedAt
                       && after[k].terminalAt == r.terminalAt
                       && after[k].fingerprint == r.fingerprint
                       && after[k].runId.None? && after[k].previous.None?)
    ensures InRun(Cancel(db, run, now).rows, run) == {}
  {
    CancelLeaves(db, run, now);
    CancelledOwnsNothing(db.rows, run, now);
    CancelledRowsAt(db.rows, run, now, k);
  }

  // ------------------------------------------------------------- retry failed

  function RetriedRow(r: Row, now: int): Row {
    r.(status := Pending, attemptedAt := Some(now), nextAttemptAt := Some(now), attempts := 0,
       previous := None, runId := None)
  }

  function RetriedRows(rows: Rows, server: Server, now: int): Rows {
    map k | k in rows ::
      if k.server == server && rows[k].status == Failed then RetriedRow(rows[k], now) else rows[k]
  }

  function RetryFailed(db: Db, server: Server, now: int): Db {
    var rows := RetriedRows(db.rows, server, now);
    db.(rows := rows, renders := RollupMany(rows, db.renders, Stamped(rows, server, now)))
  }

  /** Read off the rows: what `retry_failed` re-arms, and that it touches nothing else. */
  lemma RetryFailedRearms(db: Db, server: Server, now: int, k: Key)
    ensures var after := RetryFailed(db, server, now).rows;
            && (k in after <==> k in db.rows)
            && (k in db.rows ==>
                  if k.server == server && db.rows[k].status == Failed
                  then && after[k].status == Pending && after[k].attempts == 0
                       && after[k].attemptedAt == Some(now) && after[k].nextAttemptAt == Some(now)
                       && after[k].runId.None? && after[k].previous.None?
                       && after[k].terminalAt == db.rows[k].terminalAt && after[k].fingerprint == db.rows[k].fingerprint
                  else after[k] == db.rows[k])
  {
  }

  lemma RetryFailedAgrees(db: Db, server: Server, now: int)
    requires AllAgree(db)
    ensures AllAgree(RetryFailed(db, server, now))
  {
    var rows := RetriedRows(db.rows, server, now);
    var chosen := Stamped(rows, server, now);
    forall r | r in db.renders && r !in chosen
      ensures SameArt(db.rows, rows, r)
    {
      forall k: Key | k.table == Artwork && k.owner == r && k in db.rows
        ensures rows[k].status == db.rows[k].status
      {
        assert k.server == server && db.rows[k].status == Failed ==> k.owner in chosen;
      }
    }
    RollupManyAgrees(db.rows, rows, db.renders, chosen);
  }

  // ------------------------------------------- what a cancel does not give back

  /** As a start finds the rows: the run is new, and no row of its server is in
      any run. Other servers' runs may be open. */
  predicate NoneArmed(rows: Rows, server: Server, run: RunId) {
    forall k :: k in rows ==> rows[k].runId != Some(run) && (k.server == server ==> rows[k].runId.None?)
  }

  lemma MarkThenCancelAt(db: Db, s: Settings, server: Server, present: set<string>, now: int, run: RunId, later: int, k: Key)
    requires NoneArmed(db.rows, server, run)
    ensures var marked := MarkedRow(db, s, server, present, now, run, k);
            var after := if marked.Some? then CancelledRow(marked.value, run, later) else None;
            && (after.Some? <==> k in db.rows)
            && (after.Some? ==> after.value.status == db.rows[k].status)
  {
  }

  /** Rows a start marked and a cancel put back say what they said before. */
  lemma StartThenCancelKeepsStatuses(db: Db, s: Settings, server: Server, present: set<string>, now: int, run: RunId, later: int, render: nat)
    requires IsOpen(db, run)
    requires NoneArmed(db.rows, server, run)
    ensures SameArt(db.rows, Cancel(Mark(db, s, server, present, now, run), run, later).rows, render)
  {
    var marked := Mark(db, s, server, present, now, run);
    var rows := CancelledRows(marked.rows, run, later);
    CancelClosesWith(marked, run, later);
    forall k: Key
      ensures k in rows <==> k in db.rows
      ensures k in rows ==> rows[k].status == db.rows[k].status
    {
      MarkedRowsAt(db, s, server, present, now, run, k);
      CancelledRowsAt(marked.rows, run, later, k);
      MarkThenCancelAt(db, s, server, present, now, run, later, k);
      assert Find(rows, k).Some? <==> k in rows;
    }
  }

  /** Marking creates the first delivery row of this render. */
  predicate CreatesFirstRow(db: Db, s: Settings, server: Server, present: set<string>, render: nat)
    requires render in db.renders
  {
    var r := db.renders[render];
    && ArtRows(db.rows, render) == {}
    && UploadsArtwork(s, server) && Deliverable(r)
    && r.item in db.items && db.items[r.item].library in present
  }

  /** On any database whatever, a mark and a cancel give a render its cached status
      back unless the mark gives it its first row and it did not read `pending`
      already. A render is born reading so, which is why the writers never reach a
      database where one does not. */
  lemma StartThenCancelRestoresRollUpIff(db: Db, s: Settings, server: Server, present: set<string>, now: int, run: RunId, later: int, render: nat)
    requires AllAgree(db) && IsOpen(db, run) && render in db.renders
    requires NoneArmed(db.rows, server, run)
    ensures Cancel(Mark(db, s, server, present, now, run), run, later).renders[render].uploadStatus == db.renders[render].uploadStatus
            <==> (CreatesFirstRow(db, s, server, present, render) ==> db.renders[render].uploadStatus == Pending)
  {
    var marked := Mark(db, s, server, present, now, run);
    var after := Cancel(marked, run, later);
    MarkAgrees(db, s, server, present, now, run);
    CancelAgrees(marked, run, later);
    StartThenCancelKeepsStatuses(db, s, server, present, now, run, later, render);
    SameArtSameFold(db.rows, after.rows, render);
    assert Agrees(db.rows, db.renders, render) && Agrees(after.rows, after.renders, render);
    CancelClosesWith(marked, run, later);
    if ArtRows(db.rows, render) == {} {
      CreatedRowsReadPending(db, s, server, present, now, run, render);
    }
  }

  lemma FirstRowIff(db: Db, s: Settings, server: Server, present: set<string>, now: int, run: RunId, render: nat)
    requires render in db.renders && ArtRows(db.rows, render) == {}
    ensures ArtRows(MarkedRows(db, s, server, present, now, run), render) != {} <==>
            CreatesFirstRow(db, s, server, present, render)
  {
    var marked := MarkedRows(db, s, server, present, now, run);
    forall k | k in marked && k.table == Artwork && k.owner == render
      ensures k.server == server && CreatesFirstRow(db, s, server, present, render)
    {
      MarkedRowsAt(db, s, server, present, now, run, k);
      assert k !in ArtRows(db.rows, render);
    }
    if CreatesFirstRow(db, s, server, present, render) {
      var k := Key(Artwork, render, server);
      MarkedRowsAt(db, s, server, present, now, run, k);
      assert k !in ArtRows(db.rows, render);
      assert k in ArtRows(marked, render);
    }
  }

  lemma CreatedRowsReadPending(db: Db, s: Settings, server: Server, present: set<string>, now: int, run: RunId, render: nat)
    requires AllAgree(db) && render in db.renders && ArtRows(db.rows, render) == {}
    ensures var marked := Mark(db, s, server, present, now, run);
            if CreatesFirstRow(db, s, server, present, render)
            then marked.renders[render].uploadStatus == Pending
            else marked.renders[render] == db.renders[render]
  {
    var marked := Mark(db, s, server, present, now, run);
    MarkAgrees(db, s, server, present, now, run);
    FirstRowIff(db, s, server, present, now, run, render);
    if CreatesFirstRow(db, s, server, present, render) {
      FirstRowIsPending(db, s, server, present, now, run, render);
      assert Agrees(marked.rows, marked.renders, render);
    }
  }

  lemma FirstRowIsPending(db: Db, s: Settings, server: Server, present: set<string>, now: int, run: RunId, render: nat)
    requires render in db.renders && ArtRows(db.rows, render) == {}
    requires ArtRows(MarkedRows(db, s, server, present, now, run), render) != {}
    ensures Ladder(Statuses(MarkedRows(db, s, server, present, now, run), render)) == Pending
  {
    var marked := MarkedRows(db, s, server, present, now, run);
    forall k | k in ArtRows(marked, render)
      ensures marked[k].status == Pending
    {
      MarkedRowsAt(db, s, server, present, now, run, k);
      assert k !in ArtRows(db.rows, render);
    }
    LadderMeaning(marked, render);
  }
}
