/** A render's delivery date over whole histories: what keeps it from moving back,
    and the one step that lets it. */
module Dates {

  import opened Options
  import opened Outcomes
  import opened Database
  import opened Presence
  import opened CatchUp
  import opened RetryPass
  import opened Drain
  import opened Invariants
  import opened Protocol

  /** The instant a step may stamp a delivery with. */
  function Clock(e: Event): Option<int> {
    match e
    case Records(_, c) => Some(c.at)
    case AttemptsRow(_, a, _) => Some(a.at)
    case _ => None
  }

  /** The clock does not run backwards from `t` on. */
  predicate ClockRuns(t: int, events: seq<Event>)
    decreases |events|
  {
    events == [] ||
    (var now := Clock(events[0]);
     (now.Some? ==> t <= now.value) && ClockRuns(if now.Some? then now.value else t, events[1..]))
  }

  /** A cancel would remove a row of this render that records a delivery. */
  predicate Loses(rows: Rows, run: RunId, render: nat) {
    exists k :: k in RemovedKeys(rows, run) && k.table == Artwork && k.owner == render && rows[k].terminalAt.Some?
  }

  predicate LosesAt(db: Db, e: Event, render: nat) {
    e.Cancels? && Loses(db.rows, e.run, render)
  }

  ghost predicate LosesNothing(s: System, events: seq<Event>, render: nat)
    requires CanHappen(s, events)
    decreases |events|
  {
    events == [] || (!LosesAt(s.db, events[0], render) && LosesNothing(Next(s, events[0]), events[1..], render))
  }

  // -------------------------------------------------------------------- one step

  /** The render's deliveries are still recorded, each at least as late as it was. */
  ghost predicate DeliveriesKept(a: Rows, b: Rows, render: nat) {
    forall k :: k in ArtRows(a, render) && a[k].terminalAt.Some? ==>
      k in b && b[k].terminalAt.Some? && a[k].terminalAt.value <= b[k].terminalAt.value
  }

  /** A delivery that is recorded was recorded before, or is stamped now. */
  ghost predicate OnlyStamps(a: Rows, b: Rows, now: Option<int>) {
    forall k :: k in b && b[k].terminalAt.Some? ==>
      (k in a && a[k].terminalAt == b[k].terminalAt) || b[k].terminalAt == now
  }

  /** The date is the one it was, or the latest delivery the rows now hold. */
  ghost predicate DateFollows(a: Db, b: Db, render: nat) {
    && render in a.renders && render in b.renders
    && (|| b.renders[render].uploadedAt == a.renders[render].uploadedAt
        || (LatestUpload(b.rows, render).Some? && b.renders[render].uploadedAt == LatestUpload(b.rows, render)))
  }

  ghost predicate Follows(a: Db, b: Db, render: nat, now: Option<int>) {
    DeliveriesKept(a.rows, b.rows, render) && OnlyStamps(a.rows, b.rows, now) && DateFollows(a, b, render)
  }

  ghost predicate NotBefore(a: Db, b: Db, render: nat) {
    && render in a.renders && render in b.renders
    && (a.renders[render].uploadedAt.Some? ==>
          && b.renders[render].uploadedAt.Some?
          && a.renders[render].uploadedAt.value <= b.renders[render].uploadedAt.value)
  }

  lemma FollowingKeepsTheDate(a: Db, b: Db, render: nat, now: Option<int>)
    requires Follows(a, b, render, now) && Backed(a, render)
    ensures Backed(b, render) && NotBefore(a, b, render)
  {
    if a.renders[render].uploadedAt.Some? {
      var t :| t in UploadTimes(a.rows, render) && a.renders[render].uploadedAt.value <= t;
      var k :| k in ArtRows(a.rows, render) && a.rows[k].terminalAt == Some(t);
      assert k in ArtRows(b.rows, render);
      assert b.rows[k].terminalAt.value in UploadTimes(b.rows, render);
    }
  }

  lemma FollowingKeepsTheClock(a: Db, b: Db, render: nat, now: Option<int>, t: int)
    requires Follows(a, b, render, now) && DeliveredBy(a, t) && (now.Some? ==> t <= now.value)
    ensures DeliveredBy(b, if now.Some? then now.value else t)
  {
  }

  /** A write that neither stamps nor erases a delivery, and leaves every date. */
  ghost predicate SameDeliveries(a: Db, b: Db) {
    && (forall k :: k in a.rows ==> k in b.rows && b.rows[k].terminalAt == a.rows[k].terminalAt)
    && (forall k :: k in b.rows && k !in a.rows ==> b.rows[k].terminalAt.None?)
    && (forall r :: r in a.renders ==> r in b.renders && b.renders[r].uploadedAt == a.renders[r].uploadedAt)
  }

  lemma SameDeliveriesFollow(a: Db, b: Db, render: nat, now: Option<int>)
    requires SameDeliveries(a, b) && render in a.renders
    ensures Follows(a, b, render, now)
  {
  }

  lemma PresenceKeepsDeliveries(db: Db, server: Server, present: set<string>, now: int)
    ensures SameDeliveries(db, ApplyPresence(db, server, present, now))
  {
    forall k
      ensures Find(PresenceRows(db, server, present, now), k) == PresenceRow(db, server, present, now, k)
    {
      PresenceRowsAt(db, server, present, now, k);
    }
    forall k | k in db.rows
      ensures k in PresenceRows(db, server, present, now)
      ensures PresenceRows(db, server, present, now)[k].terminalAt == db.rows[k].terminalAt
    {
      assert Find(PresenceRows(db, server, present, now), k) == PresenceRow(db, server, present, now, k);
    }
    forall k | k in PresenceRows(db, server, present, now) && k !in db.rows
      ensures PresenceRows(db, server, present, now)[k].terminalAt.None?
    {
      assert Find(PresenceRows(db, server, present, now), k) == PresenceRow(db, server, present, now, k);
    }
  }

  lemma MarkKeepsDeliveries(db: Db, s: Settings, server: Server, present: set<string>, now: int, run: RunId)
    ensures SameDeliveries(db, Mark(db, s, server, present, now, run))
  {
    var marked := MarkedRows(db, s, server, present, now, run);
    forall k
      ensures k in db.rows ==> k in marked && marked[k].terminalAt == db.rows[k].terminalAt
      ensures k in marked && k !in db.rows ==> marked[k].terminalAt.None?
    {
      MarkedRowsAt(db, s, server, present, now, run, k);
    }
  }

  lemma StartKeepsDeliveries(db: Db, s: Settings, q: Request)
    requires Start(db, s, q).Success?
    ensures SameDeliveries(db, Start(db, s, q).value)
  {
    if q.libraries.value != {} {
      PresenceKeepsDeliveries(db, q.server, q.libraries.value, q.now);
      MarkKeepsDeliveries(Opened(Stamp(db, q), s, q), s, q.server, q.libraries.value, q.now, q.runId);
    }
  }

  lemma SettleKeepsDeliveries(db: Db, run: RunId, t: Tallies, spent: nat, before: Tallies, beforeSpent: nat, idleRead: nat, now: int)
    requires run in db.runs
    ensures SameDeliveries(db, SettleWith(db, run, t, spent, before, beforeSpent, idleRead, now))
  {
  }

  lemma RetryFailedKeepsDeliveries(db: Db, server: Server, now: int)
    ensures SameDeliveries(db, RetryFailed(db, server, now))
  {
  }

  /** A cancel removes the rows it removes, and erases no delivery from any other. */
  lemma CancelledDelivery(rows: Rows, run: RunId, now: int, k: Key)
    ensures k in CancelledRows(rows, run, now) <==> k in rows && k !in RemovedKeys(rows, run)
    ensures k in CancelledRows(rows, run, now) ==> CancelledRows(rows, run, now)[k].terminalAt == rows[k].terminalAt
  {
    CancelledRowsAt(rows, run, now, k);
  }

  lemma CancelledRowsFollow(rows: Rows, run: RunId, now: int, render: nat)
    requires !Loses(rows, run, render)
    ensures DeliveriesKept(rows, CancelledRows(rows, run, now), render)
    ensures OnlyStamps(rows, CancelledRows(rows, run, now), None)
  {
    forall k {
      CancelledDelivery(rows, run, now, k);
    }
  }

  lemma CancelFollows(db: Db, run: RunId, now: int, render: nat)
    requires IsOpen(db, run) && render in db.renders && !Loses(db.rows, run, render)
    ensures Follows(db, Cancel(db, run, now), render, None)
  {
    CancelWithFollows(db, run, CancelSentence(db.rows, run), RunTallies(db.rows, run), now, render);
  }

  lemma CancelWithFollows(db: Db, run: RunId, detail: Detail, t: Tallies, now: int, render: nat)
    requires render in db.renders && !Loses(db.rows, run, render)
    ensures Follows(db, CancelWith(db, run, detail, t, now), render, None)
  {
    CancelWithLeaves(db, run, detail, t, now);
    CancelledRowsFollow(db.rows, run, now, render);
  }

  lemma RowFollows(db: Db, k: Key, row: Row, render: nat, now: int)
    requires render in db.renders && DeliveredBy(db, now)
    requires row.terminalAt == StampOf(Find(db.rows, k)) || row.terminalAt == Some(now)
    ensures Follows(db, AfterRow(db, k, row), render, Some(now))
  {
  }

  /** However its servers answer, an attempt stamps its own instant or nothing. */
  lemma AttemptStamps(table: Table, stored: Option<Row>, a: Answer, budget: nat)
    ensures var row := Attempt(table, stored, a, budget).0;
            row.terminalAt == StampOf(stored) || row.terminalAt == Some(a.at)
  {
  }

  lemma StepFollows(s: System, e: Event, render: nat, t: int)
    requires Enabled(s, e) && render in s.db.renders && DeliveredBy(s.db, t)
    requires Clock(e).Some? ==> t <= Clock(e).value
    requires !LosesAt(s.db, e, render)
    ensures Follows(s.db, Next(s, e).db, render, Clock(e))
  {
    match e
    case Starts(settings, q) =>
      if Start(s.db, settings, q).Success? {
        StartKeepsDeliveries(s.db, settings, q);
        SameDeliveriesFollow(s.db, Start(s.db, settings, q).value, render, None);
      }
    case Cancels(_, run, now) => CancelFollows(s.db, run, now, render);
    case RetriesFailed(server, now) =>
      RetryFailedKeepsDeliveries(s.db, server, now);
      SameDeliveriesFollow(s.db, RetryFailed(s.db, server, now), render, None);
    case SeesPresence(server, present, now) =>
      PresenceKeepsDeliveries(s.db, server, present, now);
      SameDeliveriesFollow(s.db, ApplyPresence(s.db, server, present, now), render, None);
    case Records(k, c) =>
      StampStep(k.table, Find(s.db.rows, k), c);
      RowFollows(s.db, k, Upserted(k.table, Find(s.db.rows, k), c), render, c.at);
    case AttemptsRow(w, a, budget) => AttemptFollows(s.db, Job(Queue(s.workers[w])[0], a), budget, render);
    case ClosesBatch(w, _) =>
      var c := s.workers[w];
      SettleKeepsDeliveries(s.db, c.run, c.after, c.spent, c.before, c.beforeSpent, c.idleRead, c.now);
      SameDeliveriesFollow(s.db, SettleWith(s.db, c.run, c.after, c.spent, c.before, c.beforeSpent, c.idleRead, c.now), render, None);
    case _ =>
  }

  lemma AttemptFollows(db: Db, j: Job, budget: nat, render: nat)
    requires render in db.renders && DeliveredBy(db, j.answer.at)
    ensures Follows(db, RowStep(db, j, budget), render, Some(j.answer.at))
  {
    if Lands(j.key.table, j.answer) {
      AttemptStamps(j.key.table, Find(db.rows, j.key), j.answer, budget);
      RowFollows(db, j.key, Attempt(j.key.table, Find(db.rows, j.key), j.answer, budget).0, render, j.answer.at);
    }
  }

  // ------------------------------------------------------------------- histories

  /** Over any history with a clock that does not run backwards, a render's delivery
      date never moves back unless a cancel removes a row that records a delivery. */
  lemma {:induction false} DatesNeverMoveBack(s: System, events: seq<Event>, render: nat, t: int)
    requires CanHappen(s, events) && ClockRuns(t, events) && LosesNothing(s, events, render)
    requires render in s.db.renders && Backed(s.db, render) && DeliveredBy(s.db, t)
    ensures Backed(After(s, events).db, render) && NotBefore(s.db, After(s, events).db, render)
    decreases |events|
  {
    if events != [] {
      var e, next := events[0], Next(s, events[0]);
      StepFollows(s, e, render, t);
      FollowingKeepsTheDate(s.db, next.db, render, Clock(e));
      FollowingKeepsTheClock(s.db, next.db, render, Clock(e), t);
      DatesNeverMoveBack(next, events[1..], render, if Clock(e).Some? then Clock(e).value else t);
    }
  }

  /** So a date that has moved back names a cancel, and a row its run created that
      still recorded a delivery when it was removed. */
  lemma {:induction false} OnlyACancelMovesDatesBack(s: System, events: seq<Event>, render: nat, t: int) returns (i: nat)
    requires CanHappen(s, events) && ClockRuns(t, events)
    requires render in s.db.renders && Backed(s.db, render) && DeliveredBy(s.db, t)
    requires !NotBefore(s.db, After(s, events).db, render)
    ensures i < |events| && CanHappen(s, events[..i]) && events[i].Cancels?
    ensures var db := After(s, events[..i]).db;
            Loses(db.rows, events[i].run, render) && !CreatedUndelivered(db.rows, events[i].run)
  {
    i := FirstLoss(s, events, render, t);
  }

  lemma {:induction false} FirstLoss(s: System, events: seq<Event>, render: nat, t: int) returns (i: nat)
    requires CanHappen(s, events) && ClockRuns(t, events)
    requires render in s.db.renders && Backed(s.db, render) && DeliveredBy(s.db, t)
    requires !LosesNothing(s, events, render) || !NotBefore(s.db, After(s, events).db, render)
    ensures i < |events| && CanHappen(s, events[..i]) && LosesAt(After(s, events[..i]).db, events[i], render)
    decreases |events|
  {
    if LosesNothing(s, events, render) {
      DatesNeverMoveBack(s, events, render, t);
    }
    if LosesAt(s.db, events[0], render) {
      i := 0;
    } else {
      var e, next := events[0], Next(s, events[0]);
      StepFollows(s, e, render, t);
      FollowingKeepsTheDate(s.db, next.db, render, Clock(e));
      FollowingKeepsTheClock(s.db, next.db, render, Clock(e), t);
      var later := FirstLoss(next, events[1..], render, if Clock(e).Some? then Clock(e).value else t);
      i := later + 1;
      assert events[..i][1..] == events[1..][..later];
    }
  }

  /** The row records a delivery of this render at least as late as `date`. */
  predicate Backs(rows: Rows, render: nat, date: int, k: Key) {
    k in ArtRows(rows, render) && rows[k].terminalAt.Some? && date <= rows[k].terminalAt.value
  }

  lemma BackedIff(db: Db, render: nat)
    requires render in db.renders && db.renders[render].uploadedAt.Some?
    ensures Backed(db, render) <==> exists k :: Backs(db.rows, render, db.renders[render].uploadedAt.value, k)
  {
    var date := db.renders[render].uploadedAt.value;
    if Backed(db, render) {
      var t :| t in UploadTimes(db.rows, render) && date <= t;
      var k :| k in ArtRows(db.rows, render) && db.rows[k].terminalAt == Some(t);
      assert Backs(db.rows, render, date, k);
    }
    if k :| Backs(db.rows, render, date, k) {
      assert db.rows[k].terminalAt.value in UploadTimes(db.rows, render);
    }
  }

  lemma BacksAfterCancel(rows: Rows, run: RunId, now: int, render: nat, date: int, k: Key)
    ensures Backs(CancelledRows(rows, run, now), render, date, k) <==>
            Backs(rows, render, date, k) && k !in RemovedKeys(rows, run)
  {
    CancelledDelivery(rows, run, now, k);
  }

  lemma UnbacksIff(db: Db, after: Db, run: RunId, now: int, render: nat)
    requires render in db.renders && db.renders[render].uploadedAt.Some?
    requires render in after.renders && after.renders[render].uploadedAt == db.renders[render].uploadedAt
    requires after.rows == CancelledRows(db.rows, run, now)
    ensures !Backed(after, render) <==>
            forall k :: Backs(db.rows, render, db.renders[render].uploadedAt.value, k) ==> k in RemovedKeys(db.rows, run)
  {
    var date := db.renders[render].uploadedAt.value;
    BackedIff(after, render);
    forall k {
      BacksAfterCancel(db.rows, run, now, render, date, k);
    }
  }

  /** A cancel leaves a date without a delivery as recent behind it exactly when
      every such delivery is recorded by a row it removes. */
  lemma CancelUnbacksIff(db: Db, run: RunId, now: int, render: nat)
    requires IsOpen(db, run) && render in db.renders && db.renders[render].uploadedAt.Some?
    ensures !Backed(Cancel(db, run, now), render) <==>
            forall k :: Backs(db.rows, render, db.renders[render].uploadedAt.value, k) ==> k in RemovedKeys(db.rows, run)
  {
    CancelWithUnbacksIff(db, run, CancelSentence(db.rows, run), RunTallies(db.rows, run), now, render);
  }

  lemma CancelWithUnbacksIff(db: Db, run: RunId, detail: Detail, t: Tallies, now: int, render: nat)
    requires render in db.renders && db.renders[render].uploadedAt.Some?
    ensures !Backed(CancelWith(db, run, detail, t, now), render) <==>
            forall k :: Backs(db.rows, render, db.renders[render].uploadedAt.value, k) ==> k in RemovedKeys(db.rows, run)
  {
    CancelWithLeaves(db, run, detail, t, now);
    UnbacksIff(db, CancelWith(db, run, detail, t, now), run, now, render);
  }

  // ------------------------------------------------------------ a date that moves back

  const RUN: RunId := 7
  const ON := Settings(true, 15, 3, false, {}, false, true, {"plex"})
  const START := Request("plex", true, None, Some({"Films"}), None, 5, RUN)

  function OutcomeCall(status: Status, retryIn: Option<int>, at: int): Call {
    Call(status, retryIn, None, true, false, false, false, at)
  }

  /** Jellyfin takes the render; a catch-up creates Plex's row and Plex takes it; a
      later upload there fails inside the run; Plex stops listing the library and
      lists it again; the run is cancelled; Jellyfin refuses the next upload. */
  function StoryEvent(n: nat, render: nat): Event
    requires n < 8
  {
    var plex, jellyfin := Key(Artwork, render, "plex"), Key(Artwork, render, "jellyfin");
    match n
    case 0 => Records(jellyfin, OutcomeCall(Uploaded, None, 3))
    case 1 => Starts(ON, START)
    case 2 => Records(plex, OutcomeCall(Uploaded, None, 9))
    case 3 => Records(plex, OutcomeCall(Failed, None, 10))
    case 4 => SeesPresence("plex", {"Shows"}, 11)
    case 5 => SeesPresence("plex", {"Films"}, 12)
    case 6 => Cancels("plex", RUN, 13)
    case _ => Records(jellyfin, OutcomeCall(Failed, None, 14))
  }

  function Story(n: nat, render: nat): seq<Event>
    requires n <= 8
  {
    if n == 0 then [] else Story(n - 1, render) + [StoryEvent(n - 1, render)]
  }

  function PlexRow(n: nat): Option<Row> {
    match n
    case 2 => Some(Created(5, RUN))
    case 3 => Some(Row(Uploaded, 0, Some(9), None, Some(9), None, Some(RUN), None))
    case 4 => Some(Row(Failed, 1, Some(10), None, Some(9), None, Some(RUN), None))
    case 5 => Some(Row(Absent, 0, Some(11), None, Some(9), None, Some(RUN), None))
    case 6 => Some(Row(Pending, 0, Some(11), Some(12), Some(9), None, Some(RUN), None))
    case _ => None
  }

  function JellyfinRow(n: nat): Option<Row> {
    if n == 0 then None
    else if n < 8 then Some(Row(Uploaded, 0, Some(3), None, Some(3), None, None, None))
    else Some(Row(Failed, 1, Some(14), None, Some(3), None, None, None))
  }

  function DateAt(n: nat): Option<int> {
    if n == 0 then None else if n < 3 || n == 8 then Some(3) else Some(9)
  }

  /** What the render's tables say after `n` steps of the story. */
  ghost predicate Told(n: nat, db: Db, render: nat) {
    && render in db.renders && Deliverable(db.renders[render])
    && db.renders[render].item in db.items && db.items[db.renders[render].item].library == "Films"
    && db.renders[render].uploadedAt == DateAt(n)
    && Find(db.rows, Key(Artwork, render, "plex")) == PlexRow(n)
    && Find(db.rows, Key(Artwork, render, "jellyfin")) == JellyfinRow(n)
    && (forall k :: k in ArtRows(db.rows, render) ==> k.server in {"plex", "jellyfin"})
    && (n < 2 ==> db.runs == map[])
    && (2 <= n < 7 ==> IsOpen(db, RUN) && db.runs[RUN].server == "plex")
  }

  lemma TimesTold(n: nat, rows: Rows, render: nat)
    requires Find(rows, Key(Artwork, render, "plex")) == PlexRow(n)
    requires Find(rows, Key(Artwork, render, "jellyfin")) == JellyfinRow(n)
    requires forall k :: k in ArtRows(rows, render) ==> k.server in {"plex", "jellyfin"}
    ensures UploadTimes(rows, render) == (if 3 <= n < 7 then {9} else {}) + (if n > 0 then {3} else {})
  {
    var plex, jellyfin := Key(Artwork, render, "plex"), Key(Artwork, render, "jellyfin");
    forall k | k in ArtRows(rows, render)
      ensures k == plex || k == jellyfin
    {
    }
    assert n > 0 ==> jellyfin in ArtRows(rows, render) && rows[jellyfin].terminalAt == Some(3);
    assert 3 <= n < 7 ==> plex in ArtRows(rows, render) && rows[plex].terminalAt == Some(9);
  }

  lemma RecordTold(n: nat, db: Db, render: nat)
    requires n in {0, 2, 3, 7} && Told(n, db, render)
    ensures var e := StoryEvent(n, render);
            && e.Records? && Accepts(e.key.table, e.call) && OwnerExists(db, e.key)
            && Told(n + 1, OrdinaryRecord(db, e.key, e.call), render)
  {
    var e := StoryEvent(n, render);
    var after := OrdinaryRecord(db, e.key, e.call);
    var written := Upserted(Artwork, Find(db.rows, e.key), e.call);
    assert after.rows == db.rows[e.key := written];
    forall k | k in ArtRows(after.rows, render)
      ensures k.server in {"plex", "jellyfin"}
    {
      assert k == e.key || k in ArtRows(db.rows, render);
    }
    TimesTold(n + 1, after.rows, render);
  }

  /** Presence finds the library carried and nothing of the render's absent. */
  lemma StampTold(db: Db, render: nat, k: Key)
    requires Told(1, db, render) && k.table == Artwork && k.owner == render
    ensures Find(Stamp(db, START).rows, k) == Find(db.rows, k)
  {
    PresenceRowsAt(db, "plex", {"Films"}, 5, k);
    if k.server == "plex" {
      assert k == Key(Artwork, render, "plex");
    }
  }

  lemma MarkTold(db: Db, render: nat, k: Key)
    requires render in db.renders && Deliverable(db.renders[render])
    requires db.renders[render].item in db.items && db.items[db.renders[render].item].library == "Films"
    requires k.table == Artwork && k.owner == render && (k.server == "plex" ==> k !in db.rows)
    ensures Find(MarkedRows(db, ON, "plex", {"Films"}, 5, RUN), k) ==
            if k.server == "plex" then Some(Created(5, RUN)) else Find(db.rows, k)
  {
    MarkedRowsAt(db, ON, "plex", {"Films"}, 5, RUN, k);
  }

  lemma StampedScene(db: Db, render: nat)
    requires Told(1, db, render)
    ensures var stamped := Opened(Stamp(db, START), ON, START);
            && render in stamped.renders && Deliverable(stamped.renders[render])
            && stamped.renders[render].item in stamped.items
            && stamped.items[stamped.renders[render].item].library == "Films"
  {
  }

  /** What the start leaves of the render's rows, key by key. */
  lemma StartRowTold(db: Db, render: nat, k: Key)
    requires Told(1, db, render) && k.table == Artwork && k.owner == render
    ensures Find(MarkedRows(Opened(Stamp(db, START), ON, START), ON, "plex", {"Films"}, 5, RUN), k) ==
            if k.server == "plex" then Some(Created(5, RUN)) else Find(db.rows, k)
  {
    StampTold(db, render, k);
    StampedScene(db, render);
    if k.server == "plex" {
      assert k == Key(Artwork, render, "plex");
    }
    MarkTold(Opened(Stamp(db, START), ON, START), render, k);
  }

  lemma StartRows(db: Db)
    requires db.runs == map[]
    ensures Start(db, ON, START).Success?
    ensures var after := Start(db, ON, START).value;
            && after.rows == MarkedRows(Opened(Stamp(db, START), ON, START), ON, "plex", {"Films"}, 5, RUN)
            && IsOpen(after, RUN) && after.runs[RUN].server == "plex"
  {
  }

  lemma StartTold(db: Db, render: nat)
    requires Told(1, db, render)
    ensures Start(db, ON, START).Success? && Told(2, Start(db, ON, START).value, render)
  {
    StartRows(db);
    forall k: Key | k.table == Artwork && k.owner == render {
      StartRowTold(db, render, k);
    }
    assert forall k: Key | k.table == Artwork && k.owner == render && k.server == "jellyfin" :: k == Key(Artwork, render, "jellyfin");
    StartKeepsDeliveries(db, ON, START);
    StartKeepsTheScene(db, ON, START, render);
    SceneTold(2, db, Start(db, ON, START).value, render);
  }

  /** What no write of the story changes: the render's own columns but its cache. */
  ghost predicate SameScene(a: Db, b: Db, render: nat) {
    && render in a.renders && render in b.renders && b.items == a.items
    && b.renders[render].item == a.renders[render].item
    && b.renders[render].rendered == a.renders[render].rendered
    && b.renders[render].background == a.renders[render].background
  }

  lemma MarkKeepsTheScene(db: Db, settings: Settings, server: Server, present: set<string>, now: int, run: RunId, render: nat)
    requires render in db.renders
    ensures SameScene(db, Mark(db, settings, server, present, now, run), render)
  {
  }

  lemma StampKeepsTheScene(db: Db, q: Request, render: nat)
    requires q.libraries.Some? && render in db.renders
    ensures SameScene(db, Stamp(db, q), render)
  {
  }

  lemma StartKeepsTheScene(db: Db, settings: Settings, q: Request, render: nat)
    requires Start(db, settings, q).Success? && render in db.renders
    ensures SameScene(db, Start(db, settings, q).value, render)
  {
    StampKeepsTheScene(db, q, render);
    if q.libraries.value != {} {
      MarkKeepsTheScene(Opened(Stamp(db, q), settings, q), settings, q.server, q.libraries.value, q.now, q.runId, render);
    }
  }

  /** The next scene, from the render's rows by key and its date. */
  lemma SceneTold(n: nat, a: Db, b: Db, render: nat)
    requires SameScene(a, b, render) && Deliverable(a.renders[render])
    requires a.renders[render].item in a.items && a.items[a.renders[render].item].library == "Films"
    requires forall k :: k in ArtRows(a.rows, render) ==> k.server in {"plex", "jellyfin"}
    requires forall k: Key | k.table == Artwork && k.owner == render ::
               Find(b.rows, k) == if k.server == "plex" then PlexRow(n)
                                  else if k.server == "jellyfin" then JellyfinRow(n)
                                  else Find(a.rows, k)
    requires b.renders[render].uploadedAt == DateAt(n)
    requires n < 2 ==> b.runs == map[]
    requires 2 <= n < 7 ==> IsOpen(b, RUN) && b.runs[RUN].server == "plex"
    ensures Told(n, b, render)
  {
    forall k | k in ArtRows(b.rows, render)
      ensures k.server in {"plex", "jellyfin"}
    {
      assert Find(b.rows, k).Some?;
      assert k.server !in {"plex", "jellyfin"} ==> Find(a.rows, k).Some? && k in ArtRows(a.rows, render);
    }
  }

  lemma PresenceRowTold(n: nat, db: Db, render: nat, k: Key)
    requires n in {4, 5} && Told(n, db, render) && k.table == Artwork && k.owner == render
    ensures var e := StoryEvent(n, render);
            Find(PresenceRows(db, e.server, e.present, e.now), k) == if k.server == "plex" then PlexRow(n + 1) else Find(db.rows, k)
  {
    var e := StoryEvent(n, render);
    PresenceRowsAt(db, e.server, e.present, e.now, k);
    if k.server == "plex" {
      assert k == Key(Artwork, render, "plex");
    }
  }

  lemma PresenceTold(n: nat, db: Db, render: nat)
    requires n in {4, 5} && Told(n, db, render)
    ensures var e := StoryEvent(n, render);
            e.SeesPresence? && Told(n + 1, ApplyPresence(db, e.server, e.present, e.now), render)
  {
    var e := StoryEvent(n, render);
    var after := ApplyPresence(db, e.server, e.present, e.now);
    forall k: Key | k.table == Artwork && k.owner == render
      ensures Find(after.rows, k) == if k.server == "plex" then PlexRow(n + 1) else Find(db.rows, k)
    {
      PresenceRowTold(n, db, render, k);
    }
    PresenceKeepsDeliveries(db, e.server, e.present, e.now);
    assert forall k: Key | k.table == Artwork && k.owner == render && k.server == "jellyfin" :: k == Key(Artwork, render, "jellyfin");
    SceneTold(n + 1, db, after, render);
  }

  lemma CancelWithTold(db: Db, render: nat, detail: Detail, t: Tallies)
    requires Told(6, db, render)
    ensures Told(7, CancelWith(db, RUN, detail, t, 13), render)
  {
    CancelWithLeaves(db, RUN, detail, t, 13);
    var after := CancelWith(db, RUN, detail, t, 13);
    forall k: Key | k.table == Artwork && k.owner == render
      ensures k in after.rows ==> k in db.rows
      ensures k == Key(Artwork, render, "plex") ==> Find(after.rows, k) == None
      ensures k == Key(Artwork, render, "jellyfin") ==> Find(after.rows, k) == Find(db.rows, k)
    {
      CancelledRowsAt(db.rows, RUN, 13, k);
    }
  }

  lemma CancelTold(db: Db, render: nat)
    requires Told(6, db, render)
    ensures Told(7, Cancel(db, RUN, 13), render)
  {
    CancelWithTold(db, render, CancelSentence(db.rows, RUN), RunTallies(db.rows, RUN));
  }

  lemma RecordStep(n: nat, s: System, render: nat)
    requires n in {0, 2, 3, 7} && Told(n, s.db, render)
    ensures Enabled(s, StoryEvent(n, render)) && Told(n + 1, Next(s, StoryEvent(n, render)).db, render)
  {
    RecordTold(n, s.db, render);
  }

  lemma StartStep(s: System, render: nat)
    requires Told(1, s.db, render)
    ensures Enabled(s, StoryEvent(1, render)) && Told(2, Next(s, StoryEvent(1, render)).db, render)
  {
    StartTold(s.db, render);
  }

  lemma PresenceStep(n: nat, s: System, render: nat)
    requires n in {4, 5} && Told(n, s.db, render)
    ensures Enabled(s, StoryEvent(n, render)) && Told(n + 1, Next(s, StoryEvent(n, render)).db, render)
  {
    PresenceTold(n, s.db, render);
  }

  lemma CancelStep(s: System, render: nat)
    requires Told(6, s.db, render)
    ensures Enabled(s, StoryEvent(6, render)) && Told(7, Next(s, StoryEvent(6, render)).db, render)
  {
    CancelTold(s.db, render);
  }

  lemma StoryStep(n: nat, s: System, render: nat)
    requires n < 8 && Told(n, s.db, render)
    ensures Enabled(s, StoryEvent(n, render)) && Told(n + 1, Next(s, StoryEvent(n, render)).db, render)
  {
    if n in {0, 2, 3, 7} {
      RecordStep(n, s, render);
    } else if n == 1 {
      StartStep(s, render);
    } else if n == 6 {
      CancelStep(s, render);
    } else {
      PresenceStep(n, s, render);
    }
  }

  lemma {:induction false} StoryHappens(n: nat, s: System, render: nat)
    requires n <= 8 && Told(0, s.db, render)
    ensures CanHappen(s, Story(n, render)) && Told(n, After(s, Story(n, render)).db, render)
  {
    if n > 0 {
      var before, e := Story(n - 1, render), StoryEvent(n - 1, render);
      StoryHappens(n - 1, s, render);
      StoryStep(n - 1, After(s, before), render);
      OneMoreEvent(s, before, e);
    }
  }

  function LastClock(t: int, events: seq<Event>): int {
    if events == [] then t
    else
      var now := Clock(events[|events| - 1]);
      if now.Some? then now.value else LastClock(t, events[..|events| - 1])
  }

  lemma {:induction false} ClockSnoc(t: int, events: seq<Event>, e: Event)
    requires ClockRuns(t, events) && (Clock(e).Some? ==> LastClock(t, events) <= Clock(e).value)
    ensures ClockRuns(t, events + [e])
    decreases |events|
  {
    if events != [] {
      var now := Clock(events[0]);
      var next := if now.Some? then now.value else t;
      LastClockTail(t, events);
      ClockSnoc(next, events[1..], e);
      assert (events + [e])[1..] == events[1..] + [e];
    }
  }

  lemma {:induction false} LastClockTail(t: int, events: seq<Event>)
    requires events != []
    ensures var now := Clock(events[0]);
            LastClock(t, events) == LastClock(if now.Some? then now.value else t, events[1..])
    decreases |events|
  {
    var n := |events| - 1;
    if n > 0 {
      LastClockTail(t, events[..n]);
      assert events[1..][..n - 1] == events[..n][1..];
    }
  }

  function ClockAt(n: nat): int {
    if n == 0 then 0 else if n < 3 then 3 else if n == 3 then 9 else if n < 8 then 10 else 14
  }

  lemma ClockTold(n: nat, render: nat)
    requires n < 8
    ensures ClockAt(n) <= ClockAt(n + 1)
    ensures Clock(StoryEvent(n, render)) == None || Clock(StoryEvent(n, render)) == Some(ClockAt(n + 1))
    ensures Clock(StoryEvent(n, render)) == None ==> ClockAt(n + 1) == ClockAt(n)
  {
  }

  lemma LastClockSnoc(t: int, events: seq<Event>, e: Event)
    ensures LastClock(t, events + [e]) == if Clock(e).Some? then Clock(e).value else LastClock(t, events)
  {
    assert (events + [e])[..|events|] == events;
  }

  lemma {:induction false} StoryClock(n: nat, render: nat)
    requires n <= 8
    ensures ClockRuns(0, Story(n, render)) && LastClock(0, Story(n, render)) == ClockAt(n)
  {
    if n > 0 {
      StoryClock(n - 1, render);
      ClockTold(n - 1, render);
      ClockSnoc(0, Story(n - 1, render), StoryEvent(n - 1, render));
      LastClockSnoc(0, Story(n - 1, render), StoryEvent(n - 1, render));
    }
  }

  /** The date of any deliverable render can move back, from a database with no
      outcome row, and with a clock that only runs forward: the cancel leaves the
      date without a delivery behind it, and the next roll-up finds an older one. */
  lemma ACancelCanMoveADateBack(items: map<nat, Item>, renders: Renders, render: nat)
    requires render in renders && Deliverable(renders[render]) && renders[render].uploadedAt.None?
    requires renders[render].item in items && items[renders[render].item].library == "Films"
    ensures var s := System(Db(items, renders, map[], map[]), map[]);
            && Sound(s) && ClockRuns(0, Story(8, render))
            && CanHappen(s, Story(6, render)) && Backed(After(s, Story(6, render)).db, render)
            && CanHappen(s, Story(7, render)) && !Backed(After(s, Story(7, render)).db, render)
            && CanHappen(s, Story(8, render))
            && !NotBefore(After(s, Story(7, render)).db, After(s, Story(8, render)).db, render)
  {
    var s := System(Db(items, renders, map[], map[]), map[]);
    FreshIsSound(items, renders);
    StoryClock(8, render);
    BackingTold(6, s, render);
    BackingTold(7, s, render);
    BackingTold(8, s, render);
  }

  lemma BackingTold(n: nat, s: System, render: nat)
    requires 6 <= n <= 8 && Told(0, s.db, render)
    ensures CanHappen(s, Story(n, render)) && Told(n, After(s, Story(n, render)).db, render)
    ensures Backed(After(s, Story(n, render)).db, render) <==> n != 7
  {
    StoryHappens(n, s, render);
    var db := After(s, Story(n, render)).db;
    TimesTold(n, db.rows, render);
    assert n < 7 ==> 9 in UploadTimes(db.rows, render);
    assert 3 in UploadTimes(db.rows, render);
  }
}
