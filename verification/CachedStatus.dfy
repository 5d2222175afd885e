/** The cached status of a render over whole histories: it is a function of the
    delivery rows alone, and comes back whole when a catch-up is cancelled. */
module CachedStatus {

  import opened Options
  import opened Outcomes
  import opened Database
  import opened Presence
  import opened CatchUp
  import opened RetryPass
  import opened Drain
  import opened Invariants
  import opened Protocol

  /** A render is born `pending` -- a background `skipped` -- and reads so for as
      long as no delivery row says otherwise. */
  predicate BornPending(db: Db) {
    forall r :: r in db.renders && !db.renders[r].background && ArtRows(db.rows, r) == {} ==>
      db.renders[r].uploadStatus == Pending
  }

  /** A step that takes no row away, and leaves the column of a render without rows. */
  ghost predicate Grows(a: Db, b: Db) {
    && (forall k :: k in a.rows ==> k in b.rows)
    && (forall r :: r in b.renders ==> r in a.renders && b.renders[r].background == a.renders[r].background)
    && (forall r :: r in b.renders && ArtRows(b.rows, r) == {} ==> b.renders[r].uploadStatus == a.renders[r].uploadStatus)
  }

  lemma GrowingStaysBorn(a: Db, b: Db)
    requires BornPending(a) && Grows(a, b)
    ensures BornPending(b)
  {
    forall r | r in b.renders && !b.renders[r].background && ArtRows(b.rows, r) == {}
      ensures b.renders[r].uploadStatus == Pending
    {
      forall k
        ensures k !in ArtRows(a.rows, r)
      {
        assert k !in ArtRows(b.rows, r);
      }
    }
  }

  lemma PresenceGrows(db: Db, server: Server, present: set<string>, now: int)
    ensures Grows(db, ApplyPresence(db, server, present, now))
  {
    forall k | k in db.rows
      ensures k in PresenceRows(db, server, present, now)
    {
      PresenceRowsAt(db, server, present, now, k);
      assert PresenceRow(db, server, present, now, k).Some?;
    }
  }

  lemma MarkGrows(db: Db, s: Settings, server: Server, present: set<string>, now: int, run: RunId)
    ensures Grows(db, Mark(db, s, server, present, now, run))
  {
    forall k | k in db.rows
      ensures k in MarkedRows(db, s, server, present, now, run)
    {
      MarkedRowsAt(db, s, server, present, now, run, k);
      assert MarkedRow(db, s, server, present, now, run, k).Some?;
    }
  }

  lemma StampStaysBorn(db: Db, q: Request)
    requires BornPending(db) && q.libraries.Some?
    ensures BornPending(Stamp(db, q))
  {
    if q.libraries.value != {} {
      PresenceGrows(db, q.server, q.libraries.value, q.now);
      GrowingStaysBorn(db, Stamp(db, q));
    }
  }

  lemma StartStaysBorn(db: Db, s: Settings, q: Request)
    requires BornPending(db) && Start(db, s, q).Success?
    ensures BornPending(Start(db, s, q).value)
  {
    StampStaysBorn(db, q);
    var unmarked := Opened(Stamp(db, q), s, q);
    assert BornPending(unmarked);
    if q.libraries.value != {} {
      MarkGrows(unmarked, s, q.server, q.libraries.value, q.now, q.runId);
      GrowingStaysBorn(unmarked, Start(db, s, q).value);
    }
  }

  lemma RowGrows(db: Db, k: Key, row: Row)
    ensures Grows(db, AfterRow(db, k, row))
  {
    var after := AfterRow(db, k, row);
    assert after.rows == db.rows[k := row];
    assert k.table == Artwork ==> k in ArtRows(after.rows, k.owner);
  }

  lemma AttemptGrows(db: Db, j: Job, budget: nat)
    ensures Grows(db, RowStep(db, j, budget))
  {
    if Lands(j.key.table, j.answer) {
      RowGrows(db, j.key, Attempt(j.key.table, Find(db.rows, j.key), j.answer, budget).0);
    }
  }

  lemma RetryFailedGrows(db: Db, server: Server, now: int)
    ensures Grows(db, RetryFailed(db, server, now))
  {
  }

  lemma SettleGrows(db: Db, run: RunId, t: Tallies, spent: nat, before: Tallies, beforeSpent: nat, idleRead: nat, now: int)
    requires run in db.runs
    ensures Grows(db, SettleWith(db, run, t, spent, before, beforeSpent, idleRead, now))
  {
    SettleTouchesOneRun(db, run, t, spent, before, beforeSpent, idleRead, now);
  }

  /** A cancel takes away only pending rows, so a render it leaves without rows had
      nothing but pending ones, and read so. */
  lemma EmptiedReadPending(rows: Rows, run: RunId, now: int, render: nat)
    requires ArtRows(rows, render) != {} && ArtRows(CancelledRows(rows, run, now), render) == {}
    ensures Ladder(Statuses(rows, render)) == Pending
  {
    forall k | k in ArtRows(rows, render)
      ensures rows[k].status == Pending
    {
      CancelledRowsAt(rows, run, now, k);
      assert k !in ArtRows(CancelledRows(rows, run, now), render);
    }
    LadderMeaning(rows, render);
  }

  lemma CancelWithStaysBorn(db: Db, run: RunId, detail: Detail, t: Tallies, now: int)
    requires BornPending(db) && AllAgree(db)
    ensures BornPending(CancelWith(db, run, detail, t, now))
  {
    CancelWithLeaves(db, run, detail, t, now);
    var after := CancelledRows(db.rows, run, now);
    forall r | r in db.renders && !db.renders[r].background && ArtRows(after, r) == {}
      ensures db.renders[r].uploadStatus == Pending
    {
      assert Agrees(db.rows, db.renders, r);
      if ArtRows(db.rows, r) != {} {
        EmptiedReadPending(db.rows, run, now, r);
      }
    }
  }

  lemma CancelStaysBorn(db: Db, run: RunId, now: int)
    requires BornPending(db) && AllAgree(db)
    ensures BornPending(Cancel(db, run, now))
  {
    CancelWithStaysBorn(db, run, CancelSentence(db.rows, run), RunTallies(db.rows, run), now);
  }

  lemma NextStaysBorn(s: System, e: Event)
    requires Sound(s) && Enabled(s, e) && BornPending(s.db)
    ensures BornPending(Next(s, e).db)
  {
    match e
    case Starts(settings, q) =>
      if Start(s.db, settings, q).Success? {
        StartStaysBorn(s.db, settings, q);
      }
    case Cancels(_, run, now) => CancelStaysBorn(s.db, run, now);
    case RetriesFailed(server, now) =>
      RetryFailedGrows(s.db, server, now);
      GrowingStaysBorn(s.db, RetryFailed(s.db, server, now));
    case SeesPresence(server, present, now) =>
      PresenceGrows(s.db, server, present, now);
      GrowingStaysBorn(s.db, ApplyPresence(s.db, server, present, now));
    case Records(k, c) =>
      RowGrows(s.db, k, Upserted(k.table, Find(s.db.rows, k), c));
      GrowingStaysBorn(s.db, OrdinaryRecord(s.db, k, c));
    case AttemptsRow(w, a, budget) =>
      var j := Job(Queue(s.workers[w])[0], a);
      AttemptGrows(s.db, j, budget);
      GrowingStaysBorn(s.db, RowStep(s.db, j, budget));
    case ClosesBatch(w, _) =>
      var c := s.workers[w];
      SettleGrows(s.db, c.run, c.after, c.spent, c.before, c.beforeSpent, c.idleRead, c.now);
      GrowingStaysBorn(s.db, SettleWith(s.db, c.run, c.after, c.spent, c.before, c.beforeSpent, c.idleRead, c.now));
    case _ =>
  }

  lemma {:induction false} StaysBorn(s: System, events: seq<Event>)
    requires Sound(s) && CanHappen(s, events) && BornPending(s.db)
    ensures BornPending(After(s, events).db)
    decreases |events|
  {
    if events != [] {
      var e := events[0];
      NextStaysBorn(s, e);
      NextKeepsInv(s, e, if e.Starts? then e.request.runId + 1 else 0);
      NextKeepsQueues(s, e);
      StaysBorn(Next(s, e), events[1..]);
    }
  }

  /** In every state the writers reach, what a render's column says is read off its
      delivery rows: their ladder, or `pending` where there are none. */
  lemma TheRowsDecide(s: System, events: seq<Event>, render: nat)
    requires Sound(s) && CanHappen(s, events) && BornPending(s.db)
    requires render in After(s, events).db.renders && !After(s, events).db.renders[render].background
    ensures var db := After(s, events).db;
            db.renders[render].uploadStatus ==
            if ArtRows(db.rows, render) == {} then Pending else Ladder(Statuses(db.rows, render))
  {
    StaysBorn(s, events);
    SoundForEver(s, events);
    assert Agrees(After(s, events).db.rows, After(s, events).db.renders, render);
  }

  /** Marking and cancelling gives every render the status it cached. */
  lemma MarkThenCancelRestores(db: Db, s: Settings, server: Server, present: set<string>, now: int, run: RunId, later: int, render: nat)
    requires AllAgree(db) && BornPending(db) && IsOpen(db, run) && render in db.renders
    requires NoneArmed(db.rows, server, run)
    ensures var cancelled := Cancel(Mark(db, s, server, present, now, run), run, later);
            render in cancelled.renders && cancelled.renders[render].uploadStatus == db.renders[render].uploadStatus
  {
    CancelLeaves(Mark(db, s, server, present, now, run), run, later);
    StartThenCancelRestoresRollUpIff(db, s, server, present, now, run, later, render);
  }

  /** As a start leaves the rows it is about to mark. */
  lemma NothingArmed(db: Db, settings: Settings, q: Request)
    requires Inv(db) && q.runId !in db.runs && Start(db, settings, q).Success?
    ensures var unmarked := Opened(Stamp(db, q), settings, q);
            NoneArmed(unmarked.rows, q.server, q.runId) && AllAgree(unmarked) && IsOpen(unmarked, q.runId)
  {
    var stamped := Stamp(db, q);
    StampKeeps(db, q, q.runId);
    forall k | k in stamped.rows
      ensures stamped.rows[k].runId != Some(q.runId)
      ensures k.server == q.server ==> stamped.rows[k].runId.None?
    {
      assert RowOk(stamped, k, stamped.rows[k]);
      if k.server == q.server {
        NothingIsArmedAtAStart(db, settings, q, k);
      }
    }
    assert forall r :: r in stamped.renders ==> Agrees(stamped.rows, stamped.renders, r);
  }

  lemma StartIs(db: Db, settings: Settings, q: Request)
    requires Start(db, settings, q).Success?
    ensures var unmarked := Opened(Stamp(db, q), settings, q);
            Start(db, settings, q).value ==
            if q.libraries.value == {} then unmarked
            else Mark(unmarked, settings, q.server, q.libraries.value, q.now, q.runId)
  {
  }

  lemma CancellingNothingWith(db: Db, run: RunId, detail: Detail, t: Tallies, now: int, server: Server)
    requires NoneArmed(db.rows, server, run)
    ensures CancelWith(db, run, detail, t, now).renders == db.renders
  {
    CancelWithLeaves(db, run, detail, t, now);
    assert RunRenders(db.rows, run) == {};
  }

  lemma CancellingNothing(db: Db, run: RunId, now: int, server: Server)
    requires NoneArmed(db.rows, server, run)
    ensures Cancel(db, run, now).renders == db.renders
  {
    CancellingNothingWith(db, run, CancelSentence(db.rows, run), RunTallies(db.rows, run), now, server);
  }

  lemma StartThenCancelFrom(db: Db, settings: Settings, q: Request, later: int, render: nat)
    requires Inv(db) && BornPending(db) && q.runId !in db.runs && Start(db, settings, q).Success?
    requires render in Stamp(db, q).renders
    ensures var cancelled := Cancel(Start(db, settings, q).value, q.runId, later);
            render in cancelled.renders && cancelled.renders[render].uploadStatus == Stamp(db, q).renders[render].uploadStatus
  {
    var unmarked := Opened(Stamp(db, q), settings, q);
    NothingArmed(db, settings, q);
    StampStaysBorn(db, q);
    StartIs(db, settings, q);
    if q.libraries.value == {} {
      CancellingNothing(unmarked, q.runId, later, q.server);
    } else {
      MarkThenCancelRestores(unmarked, settings, q.server, q.libraries.value, q.now, q.runId, later, render);
    }
  }

  /** From any state the writers reach, a start that is cancelled leaves every render
      the cached status presence found it with. */
  lemma StartThenCancelRestores(s: System, events: seq<Event>, settings: Settings, q: Request, later: int, render: nat)
    requires Sound(s) && CanHappen(s, events) && BornPending(s.db)
    requires var db := After(s, events).db;
             q.runId !in db.runs && Start(db, settings, q).Success? && render in Stamp(db, q).renders
    ensures var db := After(s, events).db;
            var cancelled := Cancel(Start(db, settings, q).value, q.runId, later);
            render in cancelled.renders && cancelled.renders[render].uploadStatus == Stamp(db, q).renders[render].uploadStatus
  {
    SoundForEver(s, events);
    StaysBorn(s, events);
    StartThenCancelFrom(After(s, events).db, settings, q, later, render);
  }
}
