/** The tables as the code updates them, in place: each method is one of the
    service's own operations, proved to leave exactly the state its
    specification names. */
module Store {

  import opened Options
  import opened Outcomes
  import opened Database
  import opened Presence
  import opened CatchUp
  import opened Drain
  import opened Sums

  class Tables {
    var items: map<nat, Item>
    var renders: Renders
    var rows: Rows
    var runs: map<RunId, Run>

    ghost function State(): Db
      reads this
    {
      Db(items, renders, rows, runs)
    }

    constructor (items: map<nat, Item>, renders: Renders)
      ensures State() == Db(items, renders, map[], map[])
    {
      this.items, this.renders, this.rows, this.runs := items, renders, map[], map[];
    }

    // ------------------------------------------------------------- deliveries

    /** `record` and `record_metadata`: the budget now spent, or the error. */
    method Record(k: Key, c: Call) returns (r: Result<nat, string>)
      modifies this`rows
      ensures r.Success? <==> Accepts(k.table, c)
      ensures r.Success? ==>
                && State() == Database.Record(old(State()), k, c)
                && r.value == Returned(k.table, Find(old(rows), k), c)
      ensures r.Failure? ==> State() == old(State())
    {
      var stored := if k in rows then Some(rows[k]) else None;
      var upserted := UpsertOutcome(k.table, stored, c);
      if upserted.Failure? {
        return Failure(upserted.error);
      }
      rows := rows[k := upserted.value.0];
      return Success(upserted.value.1);
    }

    /** `rollup`: both cached columns of one render. */
    method Rollup(render: nat) returns (status: Status)
      modifies this`renders
      ensures State() == Database.Rollup(old(State()), render)
      ensures status == Ladder(Statuses(rows, render))
    {
      var statuses: set<Status>, latest: Option<int> := {}, None;
      var left := set k | k in rows && k.table == Artwork && k.owner == render;
      while left != {}
        invariant left <= ArtRows(rows, render)
        invariant statuses == set k | k in ArtRows(rows, render) - left :: rows[k].status
        invariant latest.Some? ==>
                    exists k :: k in ArtRows(rows, render) - left && rows[k].terminalAt == latest
        invariant forall k :: k in ArtRows(rows, render) - left && rows[k].terminalAt.Some? ==>
                                latest.Some? && rows[k].terminalAt.value <= latest.value
        decreases |left|
      {
        var k :| k in left;
        ghost var was := left;
        left := left - {k};
        assert ArtRows(rows, render) - left == ArtRows(rows, render) - was + {k};
        statuses := statuses + {rows[k].status};
        if rows[k].terminalAt.Some? && (latest.None? || latest.value < rows[k].terminalAt.value) {
          latest := rows[k].terminalAt;
        }
      }
      assert ArtRows(rows, render) - left == ArtRows(rows, render);
      assert statuses == Statuses(rows, render);
      LatestIs(rows, render, latest);
      status := Ladder(statuses);
      if render in renders {
        var r := renders[render].(uploadStatus := status);
        if latest.Some? {
          r := r.(uploadedAt := latest);
        }
        renders := renders[render := r];
      }
    }

    /** `rollup_stamped_renders`: the ladder of every chosen render that has rows,
        written where it differs from what is cached. */
    method RollupRenders(chosen: set<nat>) returns (n: nat)
      modifies this`renders
      ensures renders == RollupMany(rows, old(renders), chosen)
      ensures n == |ChangedRenders(old(renders), renders)|
    {
      ghost var before := renders;
      var recomputed := map r | r in Grouped(rows, chosen) :: BoolOr(rows, r);
      var distinct := set r | r in renders && r in recomputed && renders[r].uploadStatus != recomputed[r];
      n := |distinct|;
      renders := map r | r in renders ::
        if r in distinct then renders[r].(uploadStatus := recomputed[r]) else renders[r];
      forall r | r in before {
        BoolOrIsTheLadder(rows, r);
      }
      WrittenWhereDistinct(rows, before, renders, chosen);
      assert distinct == ChangedRenders(before, renders);
    }

    // ------------------------------------------------------------- presence

    /** The insert of one table, which on a conflict stamps the row instead. */
    method StampAbsent(table: Table, server: Server, present: set<string>, now: int) returns (n: nat)
      modifies this`rows
      ensures forall k :: Find(rows, k) == AbsentStamped(old(State()), table, server, present, now, k)
      ensures n == |Changed(old(rows), rows, table)|
    {
      ghost var start := State();
      var db := Db(items, renders, rows, runs);
      var uncarried := Uncarried(db, table, server, present);
      var inserted := set k | k in uncarried && k !in rows;
      var updated := set k | k in uncarried && k in rows && rows[k].status !in {Terminal(table), Absent};
      n := |inserted| + |updated|;
      rows := map k | k in rows.Keys + inserted ::
        if k !in rows then Row(Absent, 0, Some(now), None, None, None, None, None)
        else if k in updated then rows[k].(status := Absent, attemptedAt := Some(now), nextAttemptAt := None, attempts := 0)
        else rows[k];
      forall k {
        InsertOrStamp(start, rows, table, server, present, now, inserted, updated, k);
      }
      ChangedCount(start.rows, rows, table, inserted, updated);
    }

    /** The update of one table. */
    method Rearm(table: Table, server: Server, present: set<string>, now: int) returns (n: nat)
      modifies this`rows
      ensures forall k :: Find(rows, k) == Rearmed(old(State()), table, server, present, now, k)
      ensures n == |Changed(old(rows), rows, table)|
    {
      ghost var start := State();
      var db := Db(items, renders, rows, runs);
      var carried := set k | k in rows && k.table == table && Concerns(db, server, k) && Library(db, k) in present
                             && rows[k].status == Absent;
      n := |carried|;
      rows := map k | k in rows ::
        if k in carried then rows[k].(status := Pending, nextAttemptAt := Some(now), attempts := 0) else rows[k];
      assert Changed(start.rows, rows, table) == carried;
    }

    /** The four statements, and what each reports. */
    method StampPresence(server: Server, present: set<string>, now: int) returns (metadata: Counts, artwork: Counts)
      modifies this`rows
      ensures rows == PresenceRows(old(State()), server, present, now)
      ensures metadata == CountsOf(old(rows), rows, Metadata) && artwork == CountsOf(old(rows), rows, Artwork)
      ensures ArtworkMoved(old(rows), rows) <==> artwork.absent > 0 || artwork.rearmed > 0
    {
      ghost var start := State();
      var metadataAbsent := StampAbsent(Metadata, server, present, now);
      ghost var first := State();
      var artworkAbsent := StampAbsent(Artwork, server, present, now);
      ghost var second := State();
      var metadataRearmed, artworkRearmed := 0, 0;
      ghost var third := second;
      if present != {} {
        metadataRearmed := Rearm(Metadata, server, present, now);
        third := State();
        artworkRearmed := Rearm(Artwork, server, present, now);
      } else {
        assert Changed(rows, rows, Metadata) == {} && Changed(rows, rows, Artwork) == {};
      }
      FourStatements(start, first, second, third, State(), server, present, now);
      metadata, artwork := Counts(metadataAbsent, metadataRearmed), Counts(artworkAbsent, artworkRearmed);
      MovedIff(start.rows, rows);
    }

    /** Presence, and the roll-up its artwork statements owe. */
    method ApplyPresence(server: Server, present: set<string>, now: int) returns (metadata: Counts, artwork: Counts)
      modifies this`rows, this`renders
      ensures State() == Presence.ApplyPresence(old(State()), server, present, now)
      ensures metadata == CountsOf(old(rows), rows, Metadata) && artwork == CountsOf(old(rows), rows, Artwork)
    {
      metadata, artwork := StampPresence(server, present, now);
      if artwork.absent > 0 || artwork.rearmed > 0 {
        var _ := RollupRenders(Stamped(rows, server, now));
      }
    }

    // ------------------------------------------------------------- the run

    method StartCatchUp(s: Settings, q: Request) returns (r: Result<RunId, Refusal>)
      requires q.runId !in runs
      modifies this
      ensures r.Success? <==> Start(old(State()), s, q).Success?
      ensures r.Success? ==> r.value == q.runId && State() == Start(old(State()), s, q).value
      ensures r.Failure? ==> State() == old(State()) && Start(old(State()), s, q) == Failure(r.error)
    {
      if !q.known {
        return Failure(NotConfigured);
      }
      if !s.schedulerEnabled {
        return Failure(SchedulerOff);
      }
      if q.healthy.Some? && !q.healthy.value {
        return Failure(NotReachable);
      }
      if q.libraries.None? {
        return Failure(CannotList);
      }
      var present := q.libraries.value;
      if exists a :: a in runs && runs[a].server == q.server && runs[a].finishedAt.None? {
        return Failure(InFlight);
      }
      if present != {} {
        var _, _ := ApplyPresence(q.server, present, q.now);
      }
      var cadence: int := s.pendingMinutes * 60;
      if q.cadence.Some? {
        cadence := q.cadence.value;
      }
      if cadence < MIN_CADENCE_SECONDS {
        cadence := MIN_CADENCE_SECONDS;
      }
      runs := runs[q.runId := Run(q.server, cadence, None, 0, None, Running, None, None, None, None)];
      if present == {} {
        return Success(q.runId);
      }
      MarkBacklog(s, q.server, present, q.now, q.runId);
      return Success(q.runId);
    }

    /** Each half that is switched on: its update, then its insert, and for artwork
        the roll-up of what was armed. */
    method MarkBacklog(s: Settings, server: Server, present: set<string>, now: int, run: RunId)
      modifies this`rows, this`renders
      ensures State() == Mark(old(State()), s, server, present, now, run)
    {
      ghost var start := State();
      if s.operationsEnabled && server in s.writeTo {
        ArmTable(Metadata, s, server, present, now, run);
        InsertTable(Metadata, s, server, present, now, run);
      }
      ghost var halfway := State();
      if !(s.badgesEnabled && server in s.uploadTo) {
        MarksCompose(start, halfway, State(), s, server, present, now, run);
        return;
      }
      ArmTable(Artwork, s, server, present, now, run);
      InsertTable(Artwork, s, server, present, now, run);
      MarksCompose(start, halfway, State(), s, server, present, now, run);
      var _ := RollupRenders(Stamped(rows, server, now));
    }

    /** The update of one table: every wanted row that is behind is armed. */
    method ArmTable(table: Table, s: Settings, server: Server, present: set<string>, now: int, run: RunId)
      modifies this`rows
      ensures forall k :: Find(rows, k) ==
                          if k.table == table then ArmedAt(old(State()), s, server, present, now, run, k, Find(old(rows), k))
                          else Find(old(rows), k)
    {
      var db := Db(items, renders, rows, runs);
      var behind := set k | k in rows && k.table == table && Wanted(db, s, server, present, k) && Behind(db, k, rows[k]);
      rows := map k | k in rows ::
        if k in behind
        then rows[k].(status := Pending,
                      previous := if rows[k].runId.Some? && rows[k].status == Pending then rows[k].previous else Some(rows[k].status),
                      attemptedAt := Some(now), nextAttemptAt := Some(now), attempts := 0, runId := Some(run))
        else rows[k];
    }

    /** The insert of one table: every wanted key that has no row gets one, and a
        row that is there is left alone. */
    method InsertTable(table: Table, s: Settings, server: Server, present: set<string>, now: int, run: RunId)
      modifies this`rows
      ensures forall k :: Find(rows, k) ==
                          if k.table == table then InsertedAt(old(State()), s, server, present, now, run, k, Find(old(rows), k))
                          else Find(old(rows), k)
    {
      ghost var start := State();
      var db := Db(items, renders, rows, runs);
      var created := map k | k in Universe(db, server) && k.table == table && Wanted(db, s, server, present, k) && k !in rows ::
        Row(Pending, 0, Some(now), Some(now), None, None, Some(run), None);
      rows := rows + created;
      forall k {
        UniverseHolds(start, server, k);
      }
    }

    /** Counted status by status in each table, the way the grouped query
        answers: every bucket once, and a word outside the vocabulary in none. */
    method RunTallies(run: RunId) returns (t: Tallies)
      ensures t == CatchUp.RunTallies(rows, run)
    {
      t := Tallies(0, 0, 0);
      var tables := BOTH_TABLES;
      NoTableSeen(rows, run);
      while tables != {}
        invariant t == Counted(InOtherTables(rows, run, tables), rows, run)
        decreases |tables|
      {
        var table :| table in tables;
        var counted := TallyTable(run, table);
        TableStep(rows, run, tables, table);
        t := Tallies(t.due + counted.due, t.done + counted.done, t.failed + counted.failed);
        tables := tables - {table};
      }
      AllCounted(rows, run);
    }

    method TallyTable(run: RunId, table: Table) returns (t: Tallies)
      ensures t == Counted(OfTable(rows, run, table), rows, run)
    {
      t := Tallies(0, 0, 0);
      var words := ALL_WORDS;
      NoneRead(rows, run, table);
      while words != {}
        invariant t == Counted(Read(rows, run, table, words), rows, run)
        decreases |words|
      {
        var status :| status in words;
        ReadStep(rows, run, table, words, status);
        t := AddBucket(t, table, status, |Group(rows, run, table, status)|);
        words := words - {status};
      }
      assert Read(rows, run, table, {}) == OfTable(rows, run, table);
    }

    method AttemptsSpent(run: RunId) returns (total: nat)
      ensures total == CatchUp.AttemptsSpent(rows, run)
    {
      total := 0;
      var left := set k | k in rows && rows[k].runId == Some(run);
      AddedEnds(rows, run);
      while left != {}
        invariant left <= InRun(rows, run)
        invariant total == Added(rows, run, left)
        decreases |left|
      {
        var k :| k in left;
        AddedStep(rows, run, left, k);
        left := left - {k};
        total := total + rows[k].attempts;
      }
    }

    /** The one closer: a run already closed is left as its first closer left it. */
    method FinishCatchUp(run: RunId, status: RunStatus, detail: Detail, counted: Option<Tallies>, now: int)
      returns (t: Tallies)
      modifies this`runs, this`rows
      ensures t == (if counted.Some? then counted.value else CatchUp.RunTallies(old(rows), run))
      ensures State() == Finish(old(State()), run, status, detail, t, now)
    {
      if counted.Some? {
        t := counted.value;
      } else {
        t := RunTallies(run);
      }
      if run !in runs || runs[run].finishedAt.Some? {
        return;
      }
      runs := runs[run := runs[run].(processed := Some(t.Total()), failed := Some(t.failed), deferred := Some(t.due))];
      runs := runs[run := runs[run].(finishedAt := Some(now), status := status, detail := Some(detail))];
      assert runs == old(runs)[run := Closed(old(runs)[run], status, detail, t, now)];
      Release(run);
    }

    /** A run that is over owns nothing. */
    method Release(run: RunId)
      modifies this`rows
      ensures rows == Released(old(rows), run)
    {
      rows := map k | k in rows ::
        if rows[k].runId == Some(run) then rows[k].(previous := None, runId := None) else rows[k];
    }

    method CatchUpProgress(run: RunId) returns (p: Progress)
      requires run in runs
      ensures p == ProgressOf(State(), run)
    {
      var r := runs[run];
      if r.finishedAt.Some? && r.processed.Some? {
        var due, failed := OrZero(r.deferred), OrZero(r.failed);
        return Progress(due, r.processed.value - due - failed, failed, r.processed.value);
      }
      var t := RunTallies(run);
      return Progress(t.due, t.done, t.failed, t.due + t.done + t.failed);
    }

    /** An unsettled row the run created has nothing to return to. */
    method RemoveCreated(run: RunId) returns (n: nat)
      modifies this`rows
      ensures n == |RemovedKeys(old(rows), run)| && rows == old(rows) - RemovedKeys(old(rows), run)
    {
      var gone := set k | k in rows && rows[k].runId == Some(run) && rows[k].status == Pending && rows[k].previous.None?;
      assert gone == RemovedKeys(rows, run);
      n := |gone|;
      rows := rows - gone;
    }

    method RestoreDue(run: RunId, now: int) returns (n: nat)
      modifies this`rows
      ensures n == |RestoredKeys(old(rows), run)|
      ensures rows == map k | k in old(rows) ::
                        if k in RestoredKeys(old(rows), run) then CancelledRow(old(rows)[k], run, now).value else old(rows)[k]
    {
      var back := set k | k in rows && rows[k].runId == Some(run) && rows[k].status == Pending && rows[k].previous.Some?;
      assert back == RestoredKeys(rows, run);
      n := |back|;
      rows := map k | k in rows ::
        if k in back
        then rows[k].(status := rows[k].previous.value,
                      nextAttemptAt := if rows[k].previous.value == Pending then Some(now + RETRY_SECONDS) else None,
                      previous := None, runId := None)
        else rows[k];
    }

    /** Removed first, then restored, then whatever is left released. */
    method PutBack(run: RunId, now: int) returns (restored: nat, removed: nat)
      modifies this`rows
      ensures rows == CancelledRows(old(rows), run, now)
      ensures restored == |RestoredKeys(old(rows), run)| && removed == |RemovedKeys(old(rows), run)|
    {
      ghost var before := rows;
      removed := RemoveCreated(run);
      assert RestoredKeys(rows, run) == RestoredKeys(before, run);
      restored := RestoreDue(run, now);
      Release(run);
      forall k
        ensures Find(rows, k) == Find(CancelledRows(before, run, now), k)
      {
        CancelledRowsAt(before, run, now, k);
      }
      SameFind(rows, CancelledRows(before, run, now));
    }

    /** `None` is the refusal: no catch-up for the server is in flight. */
    method CancelCatchUp(server: Server, now: int) returns (cancelled: Option<RunId>, restored: nat, removed: nat)
      modifies this
      ensures cancelled.None? <==> !HasOpenRun(old(State()), server)
      ensures cancelled.None? ==> State() == old(State())
      ensures cancelled.Some? ==>
                && IsOpen(old(State()), cancelled.value) && old(runs)[cancelled.value].server == server
                && State() == Cancel(old(State()), cancelled.value, now)
                && restored == |RestoredKeys(old(rows), cancelled.value)|
                && removed == |RemovedKeys(old(rows), cancelled.value)|
    {
      restored, removed := 0, 0;
      if !exists a :: a in runs && runs[a].server == server && runs[a].finishedAt.None? {
        return None, 0, 0;
      }
      var run :| run in runs && runs[run].server == server && runs[run].finishedAt.None?;
      var t := RunTallies(run);
      restored, removed := Undo(run, t, now);
      cancelled := Some(run);
    }

    /** Put back, rolled up, and closed with what was counted before either. */
    method Undo(run: RunId, t: Tallies, now: int) returns (restored: nat, removed: nat)
      modifies this
      ensures restored == |RestoredKeys(old(rows), run)| && removed == |RemovedKeys(old(rows), run)|
      ensures State() == CancelWith(old(State()), run, CancelDetail(t.Total(), t.done, t.failed, restored, removed), t, now)
    {
      var chosen := RunRenders(rows, run);
      restored, removed := PutBack(run, now);
      var _ := RollupRenders(chosen);
      var detail := CancelDetail(t.due + t.done + t.failed, t.done, t.failed, restored, removed);
      var _ := FinishCatchUp(run, Cancelled, detail, Some(t), now);
    }

    method RetryTable(table: Table, server: Server, now: int) returns (n: nat)
      modifies this`rows
      ensures rows == map k | k in old(rows) ::
                        if k.table == table && k.server == server && old(rows)[k].status == Failed
                        then RetriedRow(old(rows)[k], now) else old(rows)[k]
      ensures n == |FailedOn(old(rows), table, server)|
    {
      n := |FailedOn(rows, table, server)|;
      rows := map k | k in rows ::
        if k.table == table && k.server == server && rows[k].status == Failed then RetriedRow(rows[k], now) else rows[k];
    }

    method RetryFailed(server: Server, now: int) returns (artwork: nat, metadata: nat)
      modifies this`rows, this`renders
      ensures State() == CatchUp.RetryFailed(old(State()), server, now)
      ensures artwork == |FailedOn(old(rows), Artwork, server)| && metadata == |FailedOn(old(rows), Metadata, server)|
    {
      ghost var before := rows;
      artwork := RetryTable(Artwork, server, now);
      assert FailedOn(rows, Metadata, server) == FailedOn(before, Metadata, server);
      metadata := RetryTable(Metadata, server, now);
      assert rows == RetriedRows(before, server, now);
      var _ := RollupRenders(Stamped(rows, server, now));
    }

    // ------------------------------------------------------------- selection

    /** One table's due query: horizon order, at most `BATCH` rows. */
    method SelectDue(table: Table, server: Option<Server>, run: Option<RunId>, now: int) returns (keys: seq<Key>)
      ensures IsSelection(rows, DueIn(rows, table, server, run, now), keys)
    {
      var due := DueIn(rows, table, server, run, now);
      var left := due;
      keys := [];
      while left != {} && |keys| < BATCH
        invariant left <= due
        invariant forall i :: 0 <= i < |keys| ==> keys[i] in due && keys[i] !in left
        invariant forall k :: k in due ==> k in left || k in keys
        invariant |keys| <= BATCH
        invariant forall i, j :: 0 <= i < j < |keys| ==>
                                   keys[i] != keys[j] && rows[keys[i]].nextAttemptAt.value <= rows[keys[j]].nextAttemptAt.value
        invariant forall i, k :: 0 <= i < |keys| && k in left ==>
                                   rows[keys[i]].nextAttemptAt.value <= rows[k].nextAttemptAt.value
        decreases |left|
      {
        var first := Earliest(left);
        keys := keys + [first];
        left := left - {first};
      }
    }

    method Earliest(due: set<Key>) returns (first: Key)
      requires due != {}
      requires forall k :: k in due ==> k in rows && rows[k].nextAttemptAt.Some?
      ensures first in due
      ensures forall k :: k in due ==> rows[first].nextAttemptAt.value <= rows[k].nextAttemptAt.value
    {
      first :| first in due;
      var left := due - {first};
      while left != {}
        invariant left <= due && first in due
        invariant forall k :: k in due - left ==> rows[first].nextAttemptAt.value <= rows[k].nextAttemptAt.value
        decreases |left|
      {
        var k :| k in left;
        if rows[k].nextAttemptAt.value < rows[first].nextAttemptAt.value {
          first := k;
        }
        left := left - {k};
      }
    }
  }

  /** The renders a grouped query over the chosen ones answers for. */
  function Grouped(rows: Rows, chosen: set<nat>): set<nat> {
    set k | k in rows && k.table == Artwork && k.owner in chosen :: k.owner
  }

  predicate AnyRow(rows: Rows, render: nat, status: Status) {
    exists k :: k in rows && k.table == Artwork && k.owner == render && rows[k].status == status
  }

  /** The ladder as the set-shaped statement asks it, of one group of rows. */
  function BoolOr(rows: Rows, render: nat): Status {
    if AnyRow(rows, render, Failed) then Failed
    else if AnyRow(rows, render, Pending) then Pending
    else if AnyRow(rows, render, Uploaded) then Uploaded
    else Skipped
  }

  lemma BoolOrIsTheLadder(rows: Rows, render: nat)
    ensures BoolOr(rows, render) == Ladder(Statuses(rows, render))
    ensures forall chosen :: render in Grouped(rows, chosen) <==> render in chosen && ArtRows(rows, render) != {}
  {
    forall status
      ensures AnyRow(rows, render, status) <==> status in Statuses(rows, render)
    {
      if AnyRow(rows, render, status) {
        var k :| k in rows && k.table == Artwork && k.owner == render && rows[k].status == status;
        assert k in ArtRows(rows, render);
      }
    }
    forall chosen
      ensures render in Grouped(rows, chosen) <==> render in chosen && ArtRows(rows, render) != {}
    {
      if render in Grouped(rows, chosen) {
        var k :| k in rows && k.table == Artwork && k.owner in chosen && k.owner == render;
        assert k in ArtRows(rows, render);
      }
      if render in chosen && ArtRows(rows, render) != {} {
        var k :| k in ArtRows(rows, render);
        assert k.owner in Grouped(rows, chosen);
      }
    }
  }

  lemma WrittenWhereDistinct(rows: Rows, before: Renders, after: Renders, chosen: set<nat>)
    requires after.Keys == before.Keys
    requires forall r :: r in before ==>
               after[r] == if r in chosen && ArtRows(rows, r) != {} && before[r].uploadStatus != Ladder(Statuses(rows, r))
                           then before[r].(uploadStatus := Ladder(Statuses(rows, r))) else before[r]
    ensures after == RollupMany(rows, before, chosen)
  {
    forall r | r in before
      ensures after[r] == RollupMany(rows, before, chosen)[r]
    {
    }
  }

  function ChangedRenders(before: Renders, after: Renders): set<nat> {
    set r | r in before && r in after && before[r] != after[r]
  }

  /** The rows of a table that a write created or changed. */
  function Changed(before: Rows, after: Rows, table: Table): set<Key> {
    set k | k in after && k.table == table && (k !in before || before[k] != after[k])
  }

  /** What presence reports of one table: rows newly absent, and rows due again. */
  datatype Counts = Counts(absent: nat, rearmed: nat)

  function ChangedTo(before: Rows, after: Rows, table: Table, status: Status): set<Key> {
    set k | k in Changed(before, after, table) && after[k].status == status
  }

  function CountsOf(before: Rows, after: Rows, table: Table): Counts {
    Counts(|ChangedTo(before, after, table, Absent)|, |ChangedTo(before, after, table, Pending)|)
  }

  function AbsentStamped(db: Db, table: Table, server: Server, present: set<string>, now: int, k: Key): Option<Row> {
    if k.table == table && Concerns(db, server, k) && Library(db, k) !in present
    then AbsentOver(table, Find(db.rows, k), now)
    else Find(db.rows, k)
  }

  function Rearmed(db: Db, table: Table, server: Server, present: set<string>, now: int, k: Key): Option<Row> {
    if k.table == table && Concerns(db, server, k) && Library(db, k) in present
    then RearmedOver(Find(db.rows, k), now)
    else Find(db.rows, k)
  }

  ghost predicate IsAbsentStamp(db: Db, after: Db, table: Table, server: Server, present: set<string>, now: int) {
    after == db.(rows := after.rows) && forall k :: Find(after.rows, k) == AbsentStamped(db, table, server, present, now, k)
  }

  ghost predicate IsRearm(db: Db, after: Db, table: Table, server: Server, present: set<string>, now: int) {
    after == db.(rows := after.rows) && forall k :: Find(after.rows, k) == Rearmed(db, table, server, present, now, k)
  }

  function Uncarried(db: Db, table: Table, server: Server, present: set<string>): set<Key> {
    set k | k in Universe(db, server) && k.table == table && Concerns(db, server, k) && Library(db, k) !in present
  }

  /** The insert and its conflict clause, at one key. */
  lemma InsertOrStamp(db: Db, after: Rows, table: Table, server: Server, present: set<string>, now: int,
                      inserted: set<Key>, updated: set<Key>, k: Key)
    requires k in inserted <==> k in Uncarried(db, table, server, present) && k !in db.rows
    requires k in updated <==>
             k in Uncarried(db, table, server, present) && k in db.rows && db.rows[k].status !in {Terminal(table), Absent}
    requires k in after <==> k in db.rows || k in inserted
    requires k in after ==>
               after[k] == if k !in db.rows then Row(Absent, 0, Some(now), None, None, None, None, None)
                           else if k in updated
                           then db.rows[k].(status := Absent, attemptedAt := Some(now), nextAttemptAt := None, attempts := 0)
                           else db.rows[k]
    ensures Find(after, k) == AbsentStamped(db, table, server, present, now, k)
    ensures k in inserted + updated <==> k.table == table && Find(after, k) != Find(db.rows, k)
  {
    UniverseHolds(db, server, k);
  }

  lemma UniverseHolds(db: Db, server: Server, k: Key)
    ensures Concerns(db, server, k) ==> k in Universe(db, server)
    ensures k.server == server && OwnerExists(db, k) ==> k in Universe(db, server)
  {
  }

  lemma ChangedCount(before: Rows, after: Rows, table: Table, created: set<Key>, updated: set<Key>)
    requires created !! updated && forall k :: k in before ==> k in after
    requires forall k :: k in created + updated <==> k.table == table && Find(after, k) != Find(before, k)
    ensures |Changed(before, after, table)| == |created| + |updated|
  {
    forall k
      ensures k in Changed(before, after, table) <==> k in created + updated
    {
      InChanged(before, after, table, k);
    }
    assert Changed(before, after, table) == created + updated;
  }

  lemma MovedIff(before: Rows, after: Rows)
    requires forall k :: k in Changed(before, after, Artwork) ==> after[k].status in {Absent, Pending}
    ensures ArtworkMoved(before, after) <==>
            CountsOf(before, after, Artwork).absent > 0 || CountsOf(before, after, Artwork).rearmed > 0
  {
    var absent, due := ChangedTo(before, after, Artwork, Absent), ChangedTo(before, after, Artwork, Pending);
    assert absent + due == Changed(before, after, Artwork);
    assert |absent| == 0 <==> absent == {};
    assert |due| == 0 <==> due == {};
    assert ArtworkMoved(before, after) <==> Changed(before, after, Artwork) != {};
  }

  ghost predicate Statements(start: Db, first: Db, second: Db, third: Db, last: Db, server: Server, present: set<string>, now: int) {
    && IsAbsentStamp(start, first, Metadata, server, present, now)
    && IsAbsentStamp(first, second, Artwork, server, present, now)
    && IsRearm(second, third, Metadata, server, present, now)
    && IsRearm(third, last, Artwork, server, present, now)
  }

  /** Presence's statements at one key: what is there after each. */
  lemma StatementsAt(start: Db, first: Db, second: Db, third: Db, last: Db, server: Server, present: set<string>, now: int, k: Key)
    requires Statements(start, first, second, third, last, server, present, now)
    ensures Find(last.rows, k) == PresenceRow(start, server, present, now, k)
    ensures var was, now := Find(start.rows, k), Find(last.rows, k);
            match k.table
            case Metadata =>
              && Find(second.rows, k) == Find(first.rows, k) && Find(third.rows, k) == now
              && (Find(first.rows, k) != was <==> was != now && now.Some? && now.value.status == Absent)
              && (Find(third.rows, k) != Find(second.rows, k) <==> was != now && now.Some? && now.value.status == Pending)
            case Artwork =>
              && Find(first.rows, k) == was && Find(third.rows, k) == Find(second.rows, k)
              && (Find(second.rows, k) != was <==> was != now && now.Some? && now.value.status == Absent)
              && (now != Find(third.rows, k) <==> was != now && now.Some? && now.value.status == Pending)
    ensures Find(last.rows, k) != Find(start.rows, k) ==> last.rows[k].status in {Absent, Pending}
    ensures Find(first.rows, k).Some? ==> Find(last.rows, k).Some?
    ensures Find(second.rows, k).Some? ==> Find(last.rows, k).Some?
    ensures Find(third.rows, k).Some? ==> Find(last.rows, k).Some?
    ensures Find(start.rows, k).Some? ==> Find(first.rows, k).Some? && Find(second.rows, k).Some? && Find(third.rows, k).Some?
  {
    assert Find(first.rows, k) == AbsentStamped(start, Metadata, server, present, now, k);
    assert Find(second.rows, k) == AbsentStamped(first, Artwork, server, present, now, k);
    assert Find(third.rows, k) == Rearmed(second, Metadata, server, present, now, k);
    assert Find(last.rows, k) == Rearmed(third, Artwork, server, present, now, k);
  }

  lemma InChanged(before: Rows, after: Rows, table: Table, k: Key)
    requires Find(before, k).Some? ==> Find(after, k).Some?
    ensures k in Changed(before, after, table) <==> k.table == table && Find(before, k) != Find(after, k)
  {
  }

  /** A statement changes a key exactly when presence as a whole does, to its word. */
  lemma MetadataChangesAt(start: Db, first: Db, second: Db, third: Db, last: Db, server: Server, present: set<string>, now: int, k: Key)
    requires Statements(start, first, second, third, last, server, present, now)
    ensures k in Changed(start.rows, first.rows, Metadata) <==> k in ChangedTo(start.rows, last.rows, Metadata, Absent)
    ensures k in Changed(second.rows, third.rows, Metadata) <==> k in ChangedTo(start.rows, last.rows, Metadata, Pending)
    ensures k in Changed(start.rows, last.rows, Metadata) ==> last.rows[k].status in {Absent, Pending}
  {
    if k.table == Metadata {
      StatementsAt(start, first, second, third, last, server, present, now, k);
      InChanged(start.rows, first.rows, Metadata, k);
      InChanged(second.rows, third.rows, Metadata, k);
      InChanged(start.rows, last.rows, Metadata, k);
    }
  }

  lemma ArtworkChangesAt(start: Db, first: Db, second: Db, third: Db, last: Db, server: Server, present: set<string>, now: int, k: Key)
    requires Statements(start, first, second, third, last, server, present, now)
    ensures k in Changed(first.rows, second.rows, Artwork) <==> k in ChangedTo(start.rows, last.rows, Artwork, Absent)
    ensures k in Changed(third.rows, last.rows, Artwork) <==> k in ChangedTo(start.rows, last.rows, Artwork, Pending)
    ensures k in Changed(start.rows, last.rows, Artwork) ==> last.rows[k].status in {Absent, Pending}
  {
    if k.table == Artwork {
      StatementsAt(start, first, second, third, last, server, present, now, k);
      InChanged(first.rows, second.rows, Artwork, k);
      InChanged(third.rows, last.rows, Artwork, k);
      InChanged(start.rows, last.rows, Artwork, k);
    }
  }

  /** Presence's statements, one after the other, leave at each key what presence
      says of it, and each reports the keys it changed for good. */
  lemma FourStatements(start: Db, first: Db, second: Db, third: Db, last: Db, server: Server, present: set<string>, now: int)
    requires Statements(start, first, second, third, last, server, present, now)
    ensures last.rows == PresenceRows(start, server, present, now)
    ensures Changed(start.rows, first.rows, Metadata) == ChangedTo(start.rows, last.rows, Metadata, Absent)
    ensures Changed(first.rows, second.rows, Artwork) == ChangedTo(start.rows, last.rows, Artwork, Absent)
    ensures Changed(second.rows, third.rows, Metadata) == ChangedTo(start.rows, last.rows, Metadata, Pending)
    ensures Changed(third.rows, last.rows, Artwork) == ChangedTo(start.rows, last.rows, Artwork, Pending)
    ensures forall k :: k in Changed(start.rows, last.rows, Artwork) ==> last.rows[k].status in {Absent, Pending}
  {
    forall k
      ensures Find(last.rows, k) == Find(PresenceRows(start, server, present, now), k)
    {
      PresenceRowsAt(start, server, present, now, k);
      StatementsAt(start, first, second, third, last, server, present, now, k);
    }
    SameFind(last.rows, PresenceRows(start, server, present, now));
    forall k {
      MetadataChangesAt(start, first, second, third, last, server, present, now, k);
    }
    forall k {
      ArtworkChangesAt(start, first, second, third, last, server, present, now, k);
    }
  }

  /** Both halves of the marking, each when it is switched on, leave at each key
      what marking says of it. */
  lemma MarksCompose(db: Db, halfway: Db, last: Db, s: Settings, server: Server, present: set<string>, now: int, run: RunId)
    requires halfway == db.(rows := halfway.rows) && last == db.(rows := last.rows)
    requires forall k :: Find(halfway.rows, k) == HalfMarked(db, Metadata, s, server, present, now, run, k)
    requires forall k :: Find(last.rows, k) == HalfMarked(halfway, Artwork, s, server, present, now, run, k)
    ensures last.rows == MarkedRows(db, s, server, present, now, run)
  {
    forall k
      ensures Find(last.rows, k) == Find(MarkedRows(db, s, server, present, now, run), k)
    {
      MarkedRowsAt(db, s, server, present, now, run, k);
      assert Find(halfway.rows, k) == HalfMarked(db, Metadata, s, server, present, now, run, k);
      assert Find(last.rows, k) == HalfMarked(halfway, Artwork, s, server, present, now, run, k);
      assert Wanted(halfway, s, server, present, k) == Wanted(db, s, server, present, k);
    }
    SameFind(last.rows, MarkedRows(db, s, server, present, now, run));
  }

  /** One table's update and then its insert, when that half is switched on. */
  function HalfMarked(db: Db, table: Table, s: Settings, server: Server, present: set<string>, now: int, run: RunId, k: Key): Option<Row> {
    var stored := Find(db.rows, k);
    if k.table == table && Delivering(s, server, table)
    then InsertedAt(db, s, server, present, now, run, k, ArmedAt(db, s, server, present, now, run, k, stored))
    else stored
  }

  lemma LatestIs(rows: Rows, render: nat, latest: Option<int>)
    requires latest.Some? ==> exists k :: k in ArtRows(rows, render) && rows[k].terminalAt == latest
    requires forall k :: k in ArtRows(rows, render) && rows[k].terminalAt.Some? ==>
                           latest.Some? && rows[k].terminalAt.value <= latest.value
    ensures latest == LatestUpload(rows, render)
  {
    var times := UploadTimes(rows, render);
    if latest.Some? {
      var k :| k in ArtRows(rows, render) && rows[k].terminalAt == latest;
      assert rows[k].terminalAt.value in times;
    } else {
      assert forall k :: k in ArtRows(rows, render) ==> rows[k].terminalAt.None?;
      assert times == {};
    }
  }

  function AttemptsOf(rows: Rows, keys: set<Key>): map<Key, nat> {
    map k | k in keys && k in rows :: rows[k].attempts
  }

  /** The attempts of the run's rows, but for the ones left to add. */
  ghost function Added(rows: Rows, run: RunId, left: set<Key>): nat {
    Sum(AttemptsOf(rows, InRun(rows, run) - left))
  }

  lemma AddedEnds(rows: Rows, run: RunId)
    ensures Added(rows, run, InRun(rows, run)) == 0
    ensures Added(rows, run, {}) == CatchUp.AttemptsSpent(rows, run)
  {
    assert AttemptsOf(rows, InRun(rows, run) - InRun(rows, run)) == map[];
    assert AttemptsOf(rows, InRun(rows, run) - {}) == AttemptsIn(rows, run);
  }

  lemma AddedStep(rows: Rows, run: RunId, left: set<Key>, k: Key)
    requires k in left && left <= InRun(rows, run)
    ensures Added(rows, run, left - {k}) == Added(rows, run, left) + rows[k].attempts
  {
    var before := AttemptsOf(rows, InRun(rows, run) - left);
    SumAdd(before, k, rows[k].attempts);
    assert AttemptsOf(rows, InRun(rows, run) - (left - {k})) == before[k := rows[k].attempts];
  }

  function FailedOn(rows: Rows, table: Table, server: Server): set<Key> {
    set k | k in rows && k.table == table && k.server == server && rows[k].status == Failed
  }

  function OfTable(rows: Rows, run: RunId, table: Table): set<Key> {
    set k | k in InRun(rows, run) && k.table == table
  }

  /** The tallies of the run's rows seen so far. */
  function Counted(seen: set<Key>, rows: Rows, run: RunId): Tallies {
    Tallies(|seen * DueKeys(rows, run)|, |seen * DoneKeys(rows, run)|, |seen * FailedKeys(rows, run)|)
  }

  const BOTH_TABLES := {Artwork, Metadata}

  /** The run's rows in the tables that are not left to count. */
  function InOtherTables(rows: Rows, run: RunId, left: set<Table>): set<Key> {
    set k | k in InRun(rows, run) && k.table !in left
  }

  lemma NoTableSeen(rows: Rows, run: RunId)
    ensures Counted(InOtherTables(rows, run, BOTH_TABLES), rows, run) == Tallies(0, 0, 0)
  {
    forall table: Table
      ensures table in BOTH_TABLES
    {
      match table case Artwork => case Metadata =>
    }
    assert InOtherTables(rows, run, BOTH_TABLES) == {};
    NoneCounted(rows, run);
  }

  lemma TableStep(rows: Rows, run: RunId, left: set<Table>, table: Table)
    requires table in left
    ensures var x, y := Counted(InOtherTables(rows, run, left), rows, run), Counted(OfTable(rows, run, table), rows, run);
            Counted(InOtherTables(rows, run, left - {table}), rows, run) ==
            Tallies(x.due + y.due, x.done + y.done, x.failed + y.failed)
  {
    TableSplits(rows, run, left, table);
    SplitCounts(InOtherTables(rows, run, left), OfTable(rows, run, table), rows, run);
  }

  lemma TableSplits(rows: Rows, run: RunId, left: set<Table>, table: Table)
    requires table in left
    ensures InOtherTables(rows, run, left) !! OfTable(rows, run, table)
    ensures InOtherTables(rows, run, left - {table}) == InOtherTables(rows, run, left) + OfTable(rows, run, table)
  {
    forall k: Key
      ensures k in InOtherTables(rows, run, left - {table}) <==>
              k in InOtherTables(rows, run, left) || k in OfTable(rows, run, table)
    {
    }
  }

  lemma AllCounted(rows: Rows, run: RunId)
    ensures Counted(InOtherTables(rows, run, {}), rows, run) == CatchUp.RunTallies(rows, run)
  {
    var all := InOtherTables(rows, run, {});
    assert all * DueKeys(rows, run) == DueKeys(rows, run);
    assert all * DoneKeys(rows, run) == DoneKeys(rows, run);
    assert all * FailedKeys(rows, run) == FailedKeys(rows, run);
  }

  /** One group of the grouped query, added to the count its word belongs to. */
  function AddBucket(t: Tallies, table: Table, status: Status, n: nat): Tallies {
    if status == Pending then t.(due := t.due + n)
    else if Done(table, status) then t.(done := t.done + n)
    else if status == Failed then t.(failed := t.failed + n)
    else t
  }

  const ALL_WORDS := {Pending, Failed, Skipped, Absent, Uploaded, Written}

  /** One group of the grouped query. */
  function Group(rows: Rows, run: RunId, table: Table, status: Status): set<Key> {
    set k | k in OfTable(rows, run, table) && rows[k].status == status
  }

  /** The rows whose group has been read, with these words still to come. */
  function Read(rows: Rows, run: RunId, table: Table, left: set<Status>): set<Key> {
    set k | k in OfTable(rows, run, table) && rows[k].status !in left
  }

  lemma NoneRead(rows: Rows, run: RunId, table: Table)
    ensures Read(rows, run, table, ALL_WORDS) == {}
    ensures Counted(Read(rows, run, table, ALL_WORDS), rows, run) == Tallies(0, 0, 0)
  {
    forall s: Status
      ensures s in ALL_WORDS
    {
      match s case Pending => case Failed => case Skipped => case Absent => case Uploaded => case Written =>
    }
    assert Read(rows, run, table, ALL_WORDS) == {};
    NoneCounted(rows, run);
  }

  lemma NoneCounted(rows: Rows, run: RunId)
    ensures Counted({}, rows, run) == Tallies(0, 0, 0)
  {
    assert {} * DueKeys(rows, run) == {} && {} * DoneKeys(rows, run) == {} && {} * FailedKeys(rows, run) == {};
  }

  /** One group of the query belongs to one count, or to none. */
  lemma GroupCounts(rows: Rows, run: RunId, table: Table, status: Status)
    ensures var group := Group(rows, run, table, status);
            Counted(group, rows, run) ==
            Tallies(if status == Pending then |group| else 0,
                    if Done(table, status) then |group| else 0,
                    if status == Failed then |group| else 0)
  {
    var group := Group(rows, run, table, status);
    assert group * DueKeys(rows, run) == if status == Pending then group else {};
    assert group * DoneKeys(rows, run) == if Done(table, status) then group else {};
    assert group * FailedKeys(rows, run) == if status == Failed then group else {};
  }

  lemma ReadSplits(rows: Rows, run: RunId, table: Table, words: set<Status>, status: Status)
    requires status in words
    ensures Read(rows, run, table, words) !! Group(rows, run, table, status)
    ensures Read(rows, run, table, words - {status}) == Read(rows, run, table, words) + Group(rows, run, table, status)
  {
    forall k: Key
      ensures k in Read(rows, run, table, words - {status}) <==>
              k in Read(rows, run, table, words) || k in Group(rows, run, table, status)
    {
    }
  }

  lemma ReadStep(rows: Rows, run: RunId, table: Table, words: set<Status>, status: Status)
    requires status in words
    ensures Counted(Read(rows, run, table, words - {status}), rows, run) ==
            AddBucket(Counted(Read(rows, run, table, words), rows, run), table, status, |Group(rows, run, table, status)|)
  {
    ReadSplits(rows, run, table, words, status);
    SplitCounts(Read(rows, run, table, words), Group(rows, run, table, status), rows, run);
    GroupCounts(rows, run, table, status);
  }

  lemma SplitCounts(a: set<Key>, b: set<Key>, rows: Rows, run: RunId)
    requires a !! b
    ensures var (x, y, z) := (Counted(a, rows, run), Counted(b, rows, run), Counted(a + b, rows, run));
            z == Tallies(x.due + y.due, x.done + y.done, x.failed + y.failed)
  {
    SplitCount(a, b, DueKeys(rows, run));
    SplitCount(a, b, DoneKeys(rows, run));
    SplitCount(a, b, FailedKeys(rows, run));
  }

  lemma SplitCount(a: set<Key>, b: set<Key>, within: set<Key>)
    requires a !! b
    ensures |(a + b) * within| == |a * within| + |b * within|
  {
    assert (a + b) * within == (a * within) + (b * within);
  }
}
