/** Every writer at once: starts, cancels, drains on any number of workers,
    the ordinary retry pass, the pipeline's records and presence, interleaved
    one committed transaction at a time. */
module Protocol {

  import opened Options
  import opened Outcomes
  import opened Database
  import opened Presence
  import opened CatchUp
  import opened RetryPass
  import opened Drain
  import opened Invariants

  /** A worker has read a run's row, once and for the whole of its turn; has
      detached a batch of it, and may still be recording it long after the run is
      over; or has counted what it left. The ordinary pass is a batch of no run. */
  datatype Worker =
    | Seen(run: RunId, idleRead: nat, now: int)
    | Holding(run: RunId, idleRead: nat, now: int, before: Tallies, beforeSpent: nat, queue: seq<Key>)
    | Counted(run: RunId, idleRead: nat, now: int, before: Tallies, beforeSpent: nat, after: Tallies, spent: nat)
    | Ordinary(queue: seq<Key>)

  datatype System = System(db: Db, workers: map<nat, Worker>)

  datatype Event =
    | Starts(settings: Settings, request: Request)
    | Cancels(server: Server, run: RunId, now: int)
    | RetriesFailed(server: Server, now: int)
    | SeesPresence(server: Server, present: set<string>, now: int)
    | Records(key: Key, call: Call)
    | ReadsRun(worker: nat, run: RunId, now: int)
    | TakesBatch(worker: nat, keys: seq<Key>)
    | TakesOrdinary(worker: nat, keys: seq<Key>, now: int)
    | AttemptsRow(worker: nat, answer: Answer, budget: nat)
    | CountsBatch(worker: nat)
    | ClosesBatch(worker: nat, commits: bool)
    | Abandons(worker: nat)

  function Queue(w: Worker): seq<Key> {
    match w
    case Holding(_, _, _, _, _, queue) => queue
    case Ordinary(queue) => queue
    case _ => []
  }

  function WithQueue(w: Worker, queue: seq<Key>): Worker {
    match w
    case Holding(_, _, _, _, _, _) => w.(queue := queue)
    case Ordinary(_) => w.(queue := queue)
    case _ => w
  }

  ghost predicate Enabled(s: System, e: Event) {
    match e
    case Starts(_, q) => q.runId !in s.db.runs
    case Cancels(server, run, _) => IsOpen(s.db, run) && s.db.runs[run].server == server
    case RetriesFailed(_, _) => true
    case SeesPresence(_, _, _) => true
    case Records(k, c) => Accepts(k.table, c) && OwnerExists(s.db, k)
    case ReadsRun(w, run, now) =>
      && w !in s.workers && IsOpen(s.db, run)
      && var last := s.db.runs[run].lastDrainedAt;
         last.Some? ==> now - last.value >= s.db.runs[run].cadence
    case TakesBatch(w, keys) =>
      && w in s.workers && s.workers[w].Seen? && s.workers[w].run in s.db.runs
      && IsBatch(s.db.rows, Some(s.db.runs[s.workers[w].run].server), Some(s.workers[w].run), s.workers[w].now, keys)
    case TakesOrdinary(w, keys, now) => w !in s.workers && IsBatch(s.db.rows, None, None, now, keys)
    case AttemptsRow(w, _, _) => w in s.workers && Queue(s.workers[w]) != []
    case CountsBatch(w) => w in s.workers && s.workers[w].Holding? && s.workers[w].queue == []
    case ClosesBatch(w, _) => w in s.workers && s.workers[w].Counted? && s.workers[w].run in s.db.runs
    case Abandons(w) => w in s.workers
  }

  ghost function Next(s: System, e: Event): System
    requires Enabled(s, e)
  {
    match e
    case Starts(settings, q) =>
      var r := Start(s.db, settings, q);
      if r.Success? then s.(db := r.value) else s
    case Cancels(_, run, now) => s.(db := Cancel(s.db, run, now))
    case RetriesFailed(server, now) => s.(db := RetryFailed(s.db, server, now))
    case SeesPresence(server, present, now) => s.(db := ApplyPresence(s.db, server, present, now))
    case Records(k, c) => s.(db := OrdinaryRecord(s.db, k, c))
    case ReadsRun(w, run, now) => s.(workers := s.workers[w := Seen(run, s.db.runs[run].idleDrains, now)])
    case TakesBatch(w, keys) =>
      var seen := s.workers[w];
      s.(workers := s.workers[w := Holding(seen.run, seen.idleRead, seen.now, RunTallies(s.db.rows, seen.run),
                                           AttemptsSpent(s.db.rows, seen.run), keys)])
    case TakesOrdinary(w, keys, _) => s.(workers := s.workers[w := Ordinary(keys)])
    case AttemptsRow(w, a, budget) =>
      var queue := Queue(s.workers[w]);
      System(RowStep(s.db, Job(queue[0], a), budget), s.workers[w := WithQueue(s.workers[w], queue[1..])])
    case CountsBatch(w) =>
      var h := s.workers[w];
      s.(workers := s.workers[w := Counted(h.run, h.idleRead, h.now, h.before, h.beforeSpent,
                                           RunTallies(s.db.rows, h.run), AttemptsSpent(s.db.rows, h.run))])
    case ClosesBatch(w, commits) =>
      var c := s.workers[w];
      System(if commits then SettleWith(s.db, c.run, c.after, c.spent, c.before, c.beforeSpent, c.idleRead, c.now) else s.db,
             s.workers - {w})
    case Abandons(w) => s.(workers := s.workers - {w})
  }

  predicate Owned(db: Db, keys: seq<Key>) {
    forall i :: 0 <= i < |keys| ==> OwnerExists(db, keys[i])
  }

  /** Workers only hold rows whose owner exists: nothing here deletes one. */
  predicate QueuesOk(s: System) {
    forall w :: w in s.workers ==> Owned(s.db, Queue(s.workers[w]))
  }

  ghost predicate Sound(s: System) {
    Inv(s.db) && QueuesOk(s)
  }

  /** What no step changes: which items and renders exist, and which renders
      belong to which item. */
  ghost predicate SameOwners(a: Db, b: Db) {
    && a.items == b.items && a.renders.Keys == b.renders.Keys
    && forall r :: r in a.renders ==> a.renders[r].item == b.renders[r].item
  }

  /** What a close stamps. */
  ghost predicate SameClose(a: Run, b: Run) {
    && a.finishedAt == b.finishedAt && a.status == b.status && a.detail == b.detail
    && a.processed == b.processed && a.failed == b.failed && a.deferred == b.deferred
  }

  /** Nor does a run change its server, or a closed one anything its close stamped. */
  ghost predicate SameRuns(a: Db, b: Db) {
    forall run :: run in a.runs ==>
      && run in b.runs && b.runs[run].server == a.runs[run].server
      && (a.runs[run].finishedAt.Some? ==> SameClose(a.runs[run], b.runs[run]))
  }

  lemma StartFrames(db: Db, settings: Settings, q: Request)
    requires Start(db, settings, q).Success? && q.runId !in db.runs
    ensures SameOwners(db, Start(db, settings, q).value) && SameRuns(db, Start(db, settings, q).value)
  {
    var stamped := Opened(Stamp(db, q), settings, q);
    assert SameOwners(db, stamped) && SameRuns(db, stamped);
    var marked := Mark(stamped, settings, q.server, q.libraries.value, q.now, q.runId);
    assert SameOwners(stamped, marked) && marked.runs == stamped.runs;
  }

  lemma OneRunFrames(a: Db, b: Db, run: RunId, closed: Run)
    requires IsOpen(a, run) && b.runs == a.runs[run := closed] && closed.server == a.runs[run].server
    ensures SameRuns(a, b)
  {
  }

  lemma RollupFrames(a: Db, b: Db, rows: Rows, chosen: set<nat>)
    requires b.items == a.items && b.renders == RollupMany(rows, a.renders, chosen)
    ensures SameOwners(a, b)
  {
  }

  lemma CancelFrames(db: Db, run: RunId, now: int)
    requires IsOpen(db, run)
    ensures SameOwners(db, Cancel(db, run, now)) && SameRuns(db, Cancel(db, run, now))
  {
    CancelClosesWith(db, run, now);
    var after := Cancel(db, run, now);
    RollupFrames(db, after, CancelledRows(db.rows, run, now), RunRenders(db.rows, run));
    OneRunFrames(db, after, run, after.runs[run]);
  }

  lemma SettleFrames(db: Db, run: RunId, t: Tallies, spent: nat, before: Tallies, beforeSpent: nat, idleRead: nat, now: int)
    requires run in db.runs
    ensures var after := SettleWith(db, run, t, spent, before, beforeSpent, idleRead, now);
            SameOwners(db, after) && SameRuns(db, after)
  {
    SettleTouchesOneRun(db, run, t, spent, before, beforeSpent, idleRead, now);
    var after := SettleWith(db, run, t, spent, before, beforeSpent, idleRead, now);
    if IsOpen(db, run) {
      OneRunFrames(db, after, run, after.runs[run]);
    }
  }

  lemma RowFrames(db: Db, k: Key, row: Row)
    ensures SameOwners(db, AfterRow(db, k, row)) && AfterRow(db, k, row).runs == db.runs
  {
  }

  lemma AttemptFrames(db: Db, j: Job, budget: nat)
    ensures SameOwners(db, RowStep(db, j, budget)) && RowStep(db, j, budget).runs == db.runs
  {
    if Lands(j.key.table, j.answer) {
      RowFrames(db, j.key, Attempt(j.key.table, Find(db.rows, j.key), j.answer, budget).0);
    }
  }

  lemma SetWritesFrame(db: Db, server: Server, present: set<string>, now: int)
    ensures SameOwners(db, RetryFailed(db, server, now)) && RetryFailed(db, server, now).runs == db.runs
    ensures SameOwners(db, ApplyPresence(db, server, present, now)) && ApplyPresence(db, server, present, now).runs == db.runs
  {
  }

  lemma NextFrames(s: System, e: Event)
    requires Enabled(s, e)
    ensures SameOwners(s.db, Next(s, e).db) && SameRuns(s.db, Next(s, e).db)
  {
    match e
    case Starts(settings, q) =>
      if Start(s.db, settings, q).Success? {
        StartFrames(s.db, settings, q);
      }
    case Cancels(_, run, now) => CancelFrames(s.db, run, now);
    case RetriesFailed(server, now) => SetWritesFrame(s.db, server, {}, now);
    case SeesPresence(server, present, now) => SetWritesFrame(s.db, server, present, now);
    case Records(k, c) => RowFrames(s.db, k, Upserted(k.table, Find(s.db.rows, k), c));
    case AttemptsRow(w, a, budget) => AttemptFrames(s.db, Job(Queue(s.workers[w])[0], a), budget);
    case ClosesBatch(w, _) =>
      var c := s.workers[w];
      SettleFrames(s.db, c.run, c.after, c.spent, c.before, c.beforeSpent, c.idleRead, c.now);
    case _ =>
  }

  lemma NextKeepsInv(s: System, e: Event, run: RunId)
    requires Sound(s) && Enabled(s, e)
    requires e.Starts? ==> e.request.runId != run
    ensures Inv(Next(s, e).db)
    ensures KeepsScope(s.db.rows, Next(s, e).db.rows, run)
  {
    match e
    case Starts(settings, q) =>
      if Start(s.db, settings, q).Success? {
        StartKeeps(s.db, settings, q, run);
      }
    case Cancels(_, r, now) => CancelKeeps(s.db, r, now, run);
    case RetriesFailed(server, now) => RetryFailedKeeps(s.db, server, now, run);
    case SeesPresence(server, present, now) => PresenceKeeps(s.db, server, present, now, run);
    case Records(k, c) => OrdinaryRecordKeeps(s.db, k, c, run);
    case AttemptsRow(w, a, budget) => RowStepKeeps(s.db, Job(Queue(s.workers[w])[0], a), budget, run);
    case ClosesBatch(w, _) =>
      var c := s.workers[w];
      SettleKeeps(s.db, c.run, c.after, c.spent, c.before, c.beforeSpent, c.idleRead, c.now, run);
    case _ =>
  }

  lemma BatchIsOwned(db: Db, server: Option<Server>, run: Option<RunId>, now: int, keys: seq<Key>)
    requires Inv(db) && IsBatch(db.rows, server, run, now, keys)
    ensures Owned(db, keys)
  {
    BatchIsDue(db.rows, server, run, now, keys);
    assert forall i :: 0 <= i < |keys| ==> RowOk(db, keys[i], db.rows[keys[i]]);
  }

  lemma OwnedFrame(a: Db, b: Db, keys: seq<Key>)
    requires SameOwners(a, b) && Owned(a, keys)
    ensures Owned(b, keys)
  {
  }

  /** What one worker has queued after a step, against what it had before. */
  lemma NextQueue(s: System, e: Event, w: nat)
    requires Enabled(s, e) && w in Next(s, e).workers
    ensures var queue := Queue(Next(s, e).workers[w]);
            || queue == []
            || (w in s.workers && queue == Queue(s.workers[w]))
            || (w in s.workers && Queue(s.workers[w]) != [] && queue == Queue(s.workers[w])[1..])
            || (e.TakesBatch? && queue == e.keys)
            || (e.TakesOrdinary? && queue == e.keys)
  {
  }

  lemma NextKeepsQueues(s: System, e: Event)
    requires Sound(s) && Enabled(s, e)
    ensures QueuesOk(Next(s, e))
  {
    NextFrames(s, e);
    forall w | w in Next(s, e).workers
      ensures Owned(Next(s, e).db, Queue(Next(s, e).workers[w]))
    {
      NextQueue(s, e, w);
      if e.TakesBatch? {
        var run := s.workers[e.worker].run;
        BatchIsOwned(s.db, Some(s.db.runs[run].server), Some(run), s.workers[e.worker].now, e.keys);
      } else if e.TakesOrdinary? {
        BatchIsOwned(s.db, None, None, e.now, e.keys);
      }
      assert Owned(s.db, Queue(Next(s, e).workers[w]));
      OwnedFrame(s.db, Next(s, e).db, Queue(Next(s, e).workers[w]));
    }
  }

  // -------------------------------------------------------------------- histories

  /** A run of the whole system. */
  ghost predicate CanHappen(s: System, events: seq<Event>)
    decreases |events|
  {
    events == [] || (Enabled(s, events[0]) && CanHappen(Next(s, events[0]), events[1..]))
  }

  ghost function After(s: System, events: seq<Event>): System
    requires CanHappen(s, events)
    decreases |events|
  {
    if events == [] then s else After(Next(s, events[0]), events[1..])
  }

  /** Soundness is kept by every step of every writer, in any order. */
  lemma {:induction false} SoundForEver(s: System, events: seq<Event>)
    requires Sound(s) && CanHappen(s, events)
    ensures Sound(After(s, events))
    decreases |events|
  {
    if events != [] {
      var e := events[0];
      NextKeepsInv(s, e, if e.Starts? then e.request.runId + 1 else 0);
      NextKeepsQueues(s, e);
      SoundForEver(Next(s, e), events[1..]);
    }
  }

  /** Every cached column is right after every step of every writer. */
  lemma CachedColumnsAlwaysAgree(s: System, events: seq<Event>, render: nat)
    requires Sound(s) && CanHappen(s, events)
    ensures var db := After(s, events).db;
            render in db.renders && ArtRows(db.rows, render) != {} ==>
              db.renders[render].uploadStatus == Ladder(Statuses(db.rows, render))
  {
    SoundForEver(s, events);
    assert render in After(s, events).db.renders ==>
        Agrees(After(s, events).db.rows, After(s, events).db.renders, render);
  }

  // --------------------------------------------------------------- nobody stranded

  /** A drainer: the ordinary pass, or the drain of one open run. */
  ghost predicate Takes(db: Db, drainer: Option<RunId>, now: int, k: Key) {
    match drainer
    case None => Due(db.rows, None, None, now, k)
    case Some(run) => IsOpen(db, run) && Due(db.rows, Some(db.runs[run].server), Some(run), now, k)
  }

  /** No row is ever stranded, and none is taken early: whatever has happened, a
      pending row has a horizon, before which no drainer takes it, and from which on
      exactly one does. */
  lemma NoRowIsStranded(s: System, events: seq<Event>, k: Key)
    requires Sound(s) && CanHappen(s, events)
    requires k in After(s, events).db.rows && After(s, events).db.rows[k].status == Pending
    ensures var db := After(s, events).db;
            && db.rows[k].nextAttemptAt.Some?
            && forall now, drainer ::
                 Takes(db, drainer, now, k) <==> drainer == db.rows[k].runId && db.rows[k].nextAttemptAt.value <= now
  {
    SoundForEver(s, events);
    var db := After(s, events).db;
    assert RowOk(db, k, db.rows[k]);
  }

  // ------------------------------------------------------------------- one closer

  ghost predicate IsClosed(db: Db, run: RunId) {
    run in db.runs && db.runs[run].finishedAt.Some?
  }

  /** A closed run stays closed, with the first closer's verdict, whatever
      drains were still in flight. */
  lemma {:induction false} FirstCloseStands(s: System, events: seq<Event>, run: RunId)
    requires CanHappen(s, events) && IsClosed(s.db, run)
    ensures IsClosed(After(s, events).db, run)
    ensures SameClose(s.db.runs[run], After(s, events).db.runs[run])
    decreases |events|
  {
    if events != [] {
      NextFrames(s, events[0]);
      FirstCloseStands(Next(s, events[0]), events[1..], run);
    }
  }

  /** Once closed, a run owns no row ever again, serves the same four numbers
      for ever, and no second step ever closes it; and never are two runs of
      one server open together. */
  lemma ClosedForGood(s: System, events: seq<Event>, run: RunId)
    requires Sound(s) && CanHappen(s, events) && IsClosed(s.db, run)
    ensures var end := After(s, events).db;
            && IsClosed(end, run)
            && InRun(end.rows, run) == {}
            && ProgressOf(end, run) == ProgressOf(s.db, run)
            && OneOpenPerServer(end)
  {
    SoundForEver(s, events);
    FirstCloseStands(s, events, run);
    var end := After(s, events).db;
    assert RunOk(s.db.runs[run]);
    forall k | k in end.rows
      ensures end.rows[k].runId != Some(run)
    {
      assert RowOk(end, k, end.rows[k]);
    }
  }

  lemma {:induction false} AfterConcat(s: System, first: seq<Event>, rest: seq<Event>)
    requires CanHappen(s, first) && CanHappen(After(s, first), rest)
    ensures CanHappen(s, first + rest) && After(s, first + rest) == After(After(s, first), rest)
    decreases |first|
  {
    if first == [] {
      assert first + rest == rest;
    } else {
      assert (first + rest)[1..] == first[1..] + rest;
      AfterConcat(Next(s, first[0]), first[1..], rest);
    }
  }

  lemma OneMoreEvent(s: System, events: seq<Event>, e: Event)
    requires CanHappen(s, events) && Enabled(After(s, events), e)
    ensures CanHappen(s, events + [e]) && After(s, events + [e]) == Next(After(s, events), e)
  {
    assert CanHappen(After(s, events), [e]);
    AfterConcat(s, events, [e]);
  }

  /** The step that closes a run: open before it, closed after it. */
  ghost predicate Closes(s: System, e: Event, run: RunId) {
    Enabled(s, e) && IsOpen(s.db, run) && IsClosed(Next(s, e).db, run)
  }

  /** A run closes at most once, in any interleaving. */
  lemma ClosesOnce(s: System, e: Event, between: seq<Event>, later: Event, run: RunId)
    requires Closes(s, e, run) && CanHappen(Next(s, e), between)
    ensures !Closes(After(Next(s, e), between), later, run)
  {
    FirstCloseStands(Next(s, e), between, run);
  }

  // ---------------------------------------------------------------- cancel restores

  /** Whatever happens between a start and its cancel, the rows the run still
      carries remember what they said when it marked them. */
  lemma {:induction false} RunsRemember(origin: Rows, s: System, events: seq<Event>, run: RunId)
    requires Sound(s) && CanHappen(s, events) && run in s.db.runs && Remembers(origin, s.db.rows, run)
    ensures Remembers(origin, After(s, events).db.rows, run)
    decreases |events|
  {
    if events != [] {
      var e := events[0];
      NextKeepsInv(s, e, run);
      NextKeepsQueues(s, e);
      forall k | k in Next(s, e).db.rows && Next(s, e).db.rows[k].runId == Some(run)
        ensures Next(s, e).db.rows[k].previous == Origin(Find(origin, k))
      {
        assert k in s.db.rows && s.db.rows[k].runId == Some(run);
      }
      NextFrames(s, e);
      RunsRemember(origin, Next(s, e), events[1..], run);
    }
  }

  /** Start, then anything at all, then cancel: a row the run still carries
      unsettled says again what it said before the start, or is gone if the run
      made it; a settled row keeps its outcome; a row that left the run is not
      touched; and nothing carries the run. */
  lemma StartThenAnythingThenCancel(s: System, settings: Settings, q: Request, events: seq<Event>, now: int, k: Key)
    requires Sound(s) && Enabled(s, Starts(settings, q)) && Start(s.db, settings, q).Success?
    requires CanHappen(Next(s, Starts(settings, q)), events)
    requires IsOpen(After(Next(s, Starts(settings, q)), events).db, q.runId)
    ensures var origin := Stamp(s.db, q).rows;
            var before := After(Next(s, Starts(settings, q)), events).db;
            var after := Cancel(before, q.runId, now).rows;
            && (k !in before.rows ==> k !in after)
            && (k in before.rows && before.rows[k].runId != Some(q.runId) ==> k in after && after[k] == before.rows[k])
            && (k in before.rows && before.rows[k].runId == Some(q.runId) && before.rows[k].status != Pending ==>
                  k in after && after[k] == before.rows[k].(runId := None, previous := None))
            && (k in before.rows && before.rows[k].runId == Some(q.runId) && before.rows[k].status == Pending ==>
                  if k in origin then k in after && after[k].status == origin[k].status && after[k].runId.None?
                  else k !in after)
            && InRun(after, q.runId) == {}
  {
    var started := Next(s, Starts(settings, q));
    NextKeepsInv(s, Starts(settings, q), q.runId + 1);
    NextKeepsQueues(s, Starts(settings, q));
    StartKeeps(s.db, settings, q, q.runId + 1);
    StampKeeps(s.db, q, q.runId + 1);
    var origin := Stamp(s.db, q).rows;
    RunsRemember(origin, started, events, q.runId);
    CancelRestores(origin, After(started, events).db, q.runId, now, k);
    var before := After(started, events).db;
    if k in before.rows && before.rows[k].runId == Some(q.runId) && k in origin {
      SoundForEver(started, events);
      assert RowOk(before, k, before.rows[k]);
      RunKeepsServer(started, events, q.runId);
      NothingIsArmedAtAStart(s.db, settings, q, k);
    }
  }

  lemma {:induction false} RunKeepsServer(s: System, events: seq<Event>, run: RunId)
    requires CanHappen(s, events) && run in s.db.runs
    ensures run in After(s, events).db.runs && After(s, events).db.runs[run].server == s.db.runs[run].server
    decreases |events|
  {
    if events != [] {
      NextFrames(s, events[0]);
      RunKeepsServer(Next(s, events[0]), events[1..], run);
    }
  }

  /** At a start no row of the server is armed, so what a row remembers is what
      it said. */
  lemma NothingIsArmedAtAStart(db: Db, settings: Settings, q: Request, k: Key)
    requires Inv(db) && Start(db, settings, q).Success?
    requires k.server == q.server && k in Stamp(db, q).rows
    ensures Stamp(db, q).rows[k].runId.None?
    ensures Origin(Find(Stamp(db, q).rows, k)) == Some(Stamp(db, q).rows[k].status)
  {
    StampKeeps(db, q, 0);
    var r := Stamp(db, q).rows[k];
    assert RowOk(Stamp(db, q), k, r);
    assert r.runId.Some? ==> HasOpenRun(db, q.server);
  }

  // ---------------------------------------------------------------- absent is absent

  /** Presence finds the row's library carried. */
  predicate Readmits(db: Db, e: Event, k: Key) {
    match e
    case SeesPresence(server, present, _) => Concerns(db, server, k) && Library(db, k) in present
    case Starts(settings, q) =>
      && Refused(db, settings, q).None?
      && Concerns(db, q.server, k) && Library(db, k) in q.libraries.value
    case _ => false
  }

  lemma StartReadmits(db: Db, settings: Settings, q: Request, k: Key)
    requires Inv(db) && Refused(db, settings, q).None? && q.runId !in db.runs
    requires k in db.rows && db.rows[k].status == Absent
    ensures var after := Start(db, settings, q).value.rows;
            k in after && (after[k].status == Absent <==> !(Concerns(db, q.server, k) && Library(db, k) in q.libraries.value))
  {
    if q.libraries.value != {} {
      var stamped := Opened(Stamp(db, q), settings, q);
      PresenceRowsAt(db, q.server, q.libraries.value, q.now, k);
      assert Find(stamped.rows, k) == PresenceRow(db, q.server, q.libraries.value, q.now, k);
      MarkedRowsAt(stamped, settings, q.server, q.libraries.value, q.now, q.runId, k);
      MarkLeavesAbsent(stamped, settings, q.server, q.libraries.value, q.now, q.runId, k);
    }
  }

  lemma MarkLeavesAbsent(db: Db, settings: Settings, server: Server, present: set<string>, now: int, run: RunId, k: Key)
    requires k in db.rows
    ensures var marked := MarkedRow(db, settings, server, present, now, run, k);
            && marked.Some?
            && (marked.value.status == Absent <==> db.rows[k].status == Absent)
            && (db.rows[k].status == Absent ==> marked.value == db.rows[k])
  {
  }

  lemma CancelLeavesAbsent(db: Db, run: RunId, now: int, k: Key)
    requires IsOpen(db, run) && k in db.rows && db.rows[k].status == Absent
    ensures k in Cancel(db, run, now).rows && Cancel(db, run, now).rows[k].status == Absent
  {
    CancelClosesWith(db, run, now);
    CancelledRowsAt(db.rows, run, now, k);
  }

  lemma RowStepLeavesAbsent(db: Db, j: Job, budget: nat, k: Key)
    requires k in db.rows && db.rows[k].status == Absent
    ensures k in RowStep(db, j, budget).rows && RowStep(db, j, budget).rows[k] == db.rows[k]
  {
    if j.key == k {
      AttemptLeavesAbsent(k.table, db.rows[k], j.answer, budget);
    }
  }

  lemma SettleLeavesAbsent(db: Db, run: RunId, t: Tallies, spent: nat, before: Tallies, beforeSpent: nat, idleRead: nat, now: int, k: Key)
    requires run in db.runs && k in db.rows
    ensures var after := SettleWith(db, run, t, spent, before, beforeSpent, idleRead, now).rows;
            k in after && after[k].status == db.rows[k].status
  {
  }

  lemma RetryFailedLeavesAbsent(db: Db, server: Server, now: int, k: Key)
    requires k in db.rows && db.rows[k].status == Absent
    ensures k in RetryFailed(db, server, now).rows && RetryFailed(db, server, now).rows[k] == db.rows[k]
  {
  }

  lemma RecordLeavesAbsent(db: Db, k: Key, written: Key, c: Call)
    requires Accepts(written.table, c) && k in db.rows && db.rows[k].status == Absent
    ensures k in OrdinaryRecord(db, written, c).rows && OrdinaryRecord(db, written, c).rows[k] == db.rows[k]
  {
  }

  /** `absent` is left by presence finding the library carried, and by nothing
      else anyone does. */
  lemma OnlyPresenceReadmits(s: System, e: Event, k: Key)
    requires Sound(s) && Enabled(s, e)
    requires k in s.db.rows && s.db.rows[k].status == Absent
    ensures var after := Next(s, e).db.rows;
            k in after && (after[k].status == Absent <==> !Readmits(s.db, e, k))
  {
    assert RowOk(s.db, k, s.db.rows[k]);
    match e
    case Starts(settings, q) =>
      if Refused(s.db, settings, q).None? {
        StartReadmits(s.db, settings, q, k);
      }
    case Cancels(_, run, now) => CancelLeavesAbsent(s.db, run, now, k);
    case SeesPresence(server, present, now) => PresenceRowsAt(s.db, server, present, now, k);
    case AttemptsRow(w, a, budget) => RowStepLeavesAbsent(s.db, Job(Queue(s.workers[w])[0], a), budget, k);
    case RetriesFailed(server, now) => RetryFailedLeavesAbsent(s.db, server, now, k);
    case Records(written, c) => RecordLeavesAbsent(s.db, k, written, c);
    case ClosesBatch(w, _) =>
      var c := s.workers[w];
      SettleLeavesAbsent(s.db, c.run, c.after, c.spent, c.before, c.beforeSpent, c.idleRead, c.now, k);
    case _ =>
  }

  /** An empty database with its items and renders, from which all of this starts. */
  lemma FreshIsSound(items: map<nat, Item>, renders: Renders)
    ensures Sound(System(Db(items, renders, map[], map[]), map[]))
  {
  }

  // ------------------------------------------------------------------- the cadence

  /** The step is a drain's committed note on this run. */
  predicate Notes(s: System, e: Event, run: RunId) {
    e.ClosesBatch? && e.commits && e.worker in s.workers && s.workers[e.worker].Counted? && s.workers[e.worker].run == run
  }

  /** The instant of the turn whose note on the run is the last of the history. */
  ghost function LastNote(s: System, events: seq<Event>, run: RunId): Option<int>
    requires CanHappen(s, events)
    decreases |events|
  {
    if events == [] then None
    else
      var later := LastNote(Next(s, events[0]), events[1..], run);
      if later.Some? then later
      else if Notes(s, events[0], run) then Some(s.workers[events[0].worker].now)
      else None
  }

  /** A run keeps its cadence, and its last drain is what the last note says. */
  lemma NextNotes(s: System, e: Event, run: RunId)
    requires Enabled(s, e) && run in s.db.runs
    ensures var after := Next(s, e).db;
            && run in after.runs && after.runs[run].cadence == s.db.runs[run].cadence
            && after.runs[run].lastDrainedAt ==
               if Notes(s, e, run) then Some(s.workers[e.worker].now) else s.db.runs[run].lastDrainedAt
  {
    match e
    case Starts(settings, q) => StartOpens(s.db, settings, q);
    case Cancels(_, r, now) => CancelNotes(s.db, r, now, run);
    case RetriesFailed(server, now) => SetWritesFrame(s.db, server, {}, now);
    case SeesPresence(server, present, now) => SetWritesFrame(s.db, server, present, now);
    case Records(k, c) => RowFrames(s.db, k, Upserted(k.table, Find(s.db.rows, k), c));
    case AttemptsRow(w, a, budget) => AttemptFrames(s.db, Job(Queue(s.workers[w])[0], a), budget);
    case ClosesBatch(w, _) =>
      var c := s.workers[w];
      SettleTouchesOneRun(s.db, c.run, c.after, c.spent, c.before, c.beforeSpent, c.idleRead, c.now);
    case _ =>
  }

  lemma CancelWithNotes(db: Db, r: RunId, detail: Detail, t: Tallies, now: int, run: RunId)
    requires IsOpen(db, r) && run in db.runs
    ensures var after := CancelWith(db, r, detail, t, now);
            && run in after.runs && after.runs[run].cadence == db.runs[run].cadence
            && after.runs[run].lastDrainedAt == db.runs[run].lastDrainedAt
  {
    CancelWithLeaves(db, r, detail, t, now);
  }

  lemma CancelNotes(db: Db, r: RunId, now: int, run: RunId)
    requires IsOpen(db, r) && run in db.runs
    ensures var after := Cancel(db, r, now);
            && run in after.runs && after.runs[run].cadence == db.runs[run].cadence
            && after.runs[run].lastDrainedAt == db.runs[run].lastDrainedAt
  {
    CancelWithNotes(db, r, CancelSentence(db.rows, r), RunTallies(db.rows, r), now, run);
  }

  lemma {:induction false} NotesDecide(s: System, events: seq<Event>, run: RunId)
    requires CanHappen(s, events) && run in s.db.runs
    ensures var after, last := After(s, events).db, LastNote(s, events, run);
            && run in after.runs && after.runs[run].cadence == s.db.runs[run].cadence
            && after.runs[run].lastDrainedAt == if last.Some? then last else s.db.runs[run].lastDrainedAt
    decreases |events|
  {
    if events != [] {
      NextNotes(s, events[0], run);
      NotesDecide(Next(s, events[0]), events[1..], run);
    }
  }

  /** After any history a free worker can read a run exactly when it is open and its
      cadence has passed since the last note on it, or since the drain it had noted
      when the history began. */
  lemma ReadsIff(s: System, events: seq<Event>, run: RunId, reader: nat, now: int)
    requires CanHappen(s, events) && run in s.db.runs
    ensures var end, noted, before := After(s, events), LastNote(s, events, run), s.db.runs[run].lastDrainedAt;
            Enabled(end, ReadsRun(reader, run, now)) <==>
              && reader !in end.workers && IsOpen(end.db, run)
              && (noted.Some? ==> now - noted.value >= s.db.runs[run].cadence)
              && (noted.None? && before.Some? ==> now - before.value >= s.db.runs[run].cadence)
  {
    NotesDecide(s, events, run);
  }

  /** Once a batch of a run is committed, no worker reads the run again for another
      until its cadence has passed, whatever happens in between -- unless the note of
      a turn begun earlier is the last to land. */
  lemma ReadsWaitForTheCadence(s: System, w: nat, events: seq<Event>, reader: nat, now: int)
    requires Enabled(s, ClosesBatch(w, true))
    requires CanHappen(Next(s, ClosesBatch(w, true)), events)
    ensures var run, drained := s.workers[w].run, s.workers[w].now;
            var next := Next(s, ClosesBatch(w, true));
            Enabled(After(next, events), ReadsRun(reader, run, now)) ==>
              || now - drained >= s.db.runs[run].cadence
              || (LastNote(next, events, run).Some? && LastNote(next, events, run).value < drained)
  {
    var run, next := s.workers[w].run, Next(s, ClosesBatch(w, true));
    NextNotes(s, ClosesBatch(w, true), run);
    ReadsIff(next, events, run, reader, now);
  }

  // ----------------------------------------------------------------- leaving a run

  /** A row outside a run that is already there never comes to be in it. */
  lemma {:induction false} StaysOut(s: System, events: seq<Event>, run: RunId, k: Key)
    requires Sound(s) && CanHappen(s, events) && run in s.db.runs
    requires k in s.db.rows ==> s.db.rows[k].runId != Some(run)
    ensures k !in InRun(After(s, events).db.rows, run)
    decreases |events|
  {
    if events != [] {
      var e := events[0];
      NextKeepsInv(s, e, run);
      NextKeepsQueues(s, e);
      NextFrames(s, e);
      StaysOut(Next(s, e), events[1..], run, k);
    }
  }

  lemma RecordLeaves(s: System, k: Key, c: Call)
    requires Enabled(s, Records(k, c)) && c.leaveRun
    requires k in s.db.rows ==> s.db.rows[k].status != Absent
    ensures var rows := Next(s, Records(k, c)).db.rows;
            k in rows && rows[k].runId.None? && rows[k].previous.None? && rows[k].status == c.status
  {
  }

  /** A cancel, and the counts it reads, have nothing to do with a row outside the run. */
  lemma OutsideTheRun(db: Db, run: RunId, detail: Detail, t: Tallies, now: int, k: Key)
    requires k !in InRun(db.rows, run)
    ensures Find(CancelWith(db, run, detail, t, now).rows, k) == Find(db.rows, k)
    ensures k !in DueKeys(db.rows, run) && k !in DoneKeys(db.rows, run) && k !in FailedKeys(db.rows, run)
  {
    CancelWithLeaves(db, run, detail, t, now);
    CancelledRowsAt(db.rows, run, now, k);
  }

  /** A row the pipeline records out of its run has left it for good: whatever follows,
      the run does not count the row, and its cancel does not touch it. */
  lemma LeavingIsForGood(s: System, k: Key, c: Call, events: seq<Event>, run: RunId, now: int)
    requires Sound(s) && Enabled(s, Records(k, c)) && c.leaveRun && run in s.db.runs
    requires k in s.db.rows ==> s.db.rows[k].status != Absent
    requires CanHappen(Next(s, Records(k, c)), events)
    ensures var db := After(Next(s, Records(k, c)), events).db;
            && k !in InRun(db.rows, run)
            && k !in DueKeys(db.rows, run) && k !in DoneKeys(db.rows, run) && k !in FailedKeys(db.rows, run)
            && Find(Cancel(db, run, now).rows, k) == Find(db.rows, k)
  {
    var next := Next(s, Records(k, c));
    NextKeepsInv(s, Records(k, c), run);
    NextKeepsQueues(s, Records(k, c));
    NextFrames(s, Records(k, c));
    RecordLeaves(s, k, c);
    StaysOut(next, events, run, k);
    var db := After(next, events).db;
    OutsideTheRun(db, run, CancelSentence(db.rows, run), RunTallies(db.rows, run), now, k);
  }
}
