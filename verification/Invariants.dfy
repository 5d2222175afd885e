/** What every reachable database keeps, and that each operation keeps it. */
module Invariants {

  import opened Options
  import opened Outcomes
  import opened Database
  import opened Presence
  import opened CatchUp
  import opened RetryPass
  import opened Drain

  /** A pending row has a horizon, a row in a run is in an open run for its own
      server, and only such a row remembers a previous status. */
  predicate RowOk(db: Db, k: Key, r: Row) {
    && OwnerExists(db, k)
    && InVocabulary(k.table, r.status)
    && (r.status == Pending ==> r.nextAttemptAt.Some?)
    && (r.runId.Some? ==> IsOpen(db, r.runId.value) && db.runs[r.runId.value].server == k.server)
    && (r.previous.Some? ==> r.runId.Some? && InVocabulary(k.table, r.previous.value) && r.previous.value != Absent)
  }

  predicate Unstamped(r: Run) {
    && r.status == Running && r.detail.None?
    && r.processed.None? && r.failed.None? && r.deferred.None?
    && r.idleDrains < MAX_IDLE_DRAINS
  }

  predicate Stamped3(r: Run) {
    && r.status != Running && r.detail.Some?
    && r.processed.Some? && r.failed.Some? && r.deferred.Some?
    && r.failed.value + r.deferred.value <= r.processed.value
  }

  predicate RunOk(r: Run) {
    if r.finishedAt.None? then Unstamped(r) else Stamped3(r)
  }

  ghost predicate OneOpenPerServer(db: Db) {
    forall a, b :: IsOpen(db, a) && IsOpen(db, b) && db.runs[a].server == db.runs[b].server ==> a == b
  }

  predicate RowsOk(db: Db) {
    forall k :: k in db.rows ==> RowOk(db, k, db.rows[k])
  }

  ghost predicate RunsOk(db: Db) {
    (forall a :: a in db.runs ==> RunOk(db.runs[a])) && OneOpenPerServer(db)
  }

  ghost predicate Inv(db: Db) {
    RowsOk(db) && RunsOk(db) && AllAgree(db)
  }

  /** The rows a run still carries, and what they remember, come from before. */
  ghost predicate KeepsScope(before: Rows, after: Rows, run: RunId) {
    forall k :: k in after && after[k].runId == Some(run) ==>
                  k in before && before[k].runId == Some(run) && after[k].previous == before[k].previous
  }

  /** A row stays sound in any state with the same owners where its run is
      still open. */
  lemma RowOkFrame(db: Db, after: Db, k: Key, r: Row)
    requires RowOk(db, k, r)
    requires after.items == db.items && after.renders.Keys == db.renders.Keys
    requires forall x :: x in db.renders ==> after.renders[x].item == db.renders[x].item
    requires r.runId.Some? ==> IsOpen(after, r.runId.value) && after.runs[r.runId.value].server == db.runs[r.runId.value].server
    ensures RowOk(after, k, r)
  {
  }

  // ------------------------------------------------------------------ one row

  lemma UpsertedOk(db: Db, k: Key, c: Call)
    requires Inv(db) && Accepts(k.table, c) && OwnerExists(db, k)
    ensures RowOk(db, k, Upserted(k.table, Find(db.rows, k), c))
  {
    if k in db.rows {
      assert RowOk(db, k, db.rows[k]);
    }
  }

  lemma AfterRowKeeps(db: Db, k: Key, row: Row)
    requires Inv(db) && RowOk(db, k, row)
    ensures Inv(AfterRow(db, k, row))
  {
    AfterRowAgrees(db, k, row);
    var after := AfterRow(db, k, row);
    assert after.renders.Keys == db.renders.Keys;
    assert forall r :: r in db.renders ==> after.renders[r].item == db.renders[r].item;
    forall x | x in after.rows
      ensures RowOk(after, x, after.rows[x])
    {
      assert x != k ==> RowOk(db, x, db.rows[x]);
    }
    assert forall a :: IsOpen(after, a) <==> IsOpen(db, a);
  }

  /** An ordinary record: the pipeline's write and its roll-up. */
  ghost function OrdinaryRecord(db: Db, k: Key, c: Call): Db
    requires Accepts(k.table, c)
  {
    AfterRow(db, k, Upserted(k.table, Find(db.rows, k), c))
  }

  lemma OrdinaryRecordKeeps(db: Db, k: Key, c: Call, run: RunId)
    requires Inv(db) && Accepts(k.table, c) && OwnerExists(db, k)
    ensures Inv(OrdinaryRecord(db, k, c))
    ensures KeepsScope(db.rows, OrdinaryRecord(db, k, c).rows, run)
  {
    UpsertedOk(db, k, c);
    AfterRowKeeps(db, k, Upserted(k.table, Find(db.rows, k), c));
  }

  /** What the retry pass's writes have in common: the table's own words, a
      horizon under every `pending`, and the row's scope as it was. */
  predicate Fits(table: Table, stored: Option<Row>, row: Row) {
    && InVocabulary(table, row.status)
    && (row.status == Pending ==> row.nextAttemptAt.Some?)
    && row.runId == (if stored.Some? then stored.value.runId else None)
    && row.previous == (if stored.Some? then stored.value.previous else None)
  }

  lemma CallFits(table: Table, stored: Option<Row>, c: Call)
    requires stored.Some? ==> InVocabulary(table, stored.value.status)
    requires Accepts(table, c) && !c.leaveRun
    ensures Fits(table, stored, Upserted(table, stored, c))
  {
  }

  lemma TriesFit(table: Table, stored: Option<Row>, at: int, budget: nat)
    requires stored.Some? ==> InVocabulary(table, stored.value.status)
    ensures Fits(table, stored, Tries(table, stored, at, budget).0)
  {
    CallFits(table, stored, TryCall(at));
    CallFits(table, Some(Upserted(table, stored, TryCall(at))), FailCall(at));
  }

  lemma SendsFit(stored: Option<Row>, a: Answer)
    requires stored.Some? ==> InVocabulary(Artwork, stored.value.status)
    ensures Fits(Artwork, stored, Sends(stored, a).0)
  {
    CallFits(Artwork, stored, SkipCall(a.at));
    CallFits(Artwork, stored, FailCall(a.at));
    if a.composed.Bytes? {
      CallFits(Artwork, stored, UploadCall(a.composed.fingerprint, a.at));
    }
  }

  lemma AttemptFits(table: Table, stored: Option<Row>, a: Answer, budget: nat)
    requires stored.Some? ==> InVocabulary(table, stored.value.status)
    ensures Fits(table, stored, Attempt(table, stored, a, budget).0)
  {
    CallFits(table, stored, SkipCall(a.at));
    CallFits(table, stored, FailCall(a.at));
    CallFits(table, stored, WaitCall(a.at));
    CallFits(table, stored, TryCall(a.at));
    TriesFit(table, stored, a.at, budget);
    match table
    case Artwork =>
      SendsFit(stored, a);
      SendsFit(Some(Upserted(Artwork, stored, TryCall(a.at))), a);
    case Metadata =>
      CallFits(Metadata, stored, WriteCall(a.at));
  }

  lemma RowStepKeeps(db: Db, j: Job, budget: nat, run: RunId)
    requires Inv(db) && OwnerExists(db, j.key)
    ensures Inv(RowStep(db, j, budget))
    ensures KeepsScope(db.rows, RowStep(db, j, budget).rows, run)
  {
    if Lands(j.key.table, j.answer) {
      var stored := Find(db.rows, j.key);
      assert stored.Some? ==> RowOk(db, j.key, stored.value);
      AttemptFits(j.key.table, stored, j.answer, budget);
      AfterRowKeeps(db, j.key, Attempt(j.key.table, stored, j.answer, budget).0);
    }
  }

  // ------------------------------------------------------------ set-shaped writes

  lemma PresenceRowOk(db: Db, server: Server, present: set<string>, now: int, k: Key)
    requires k in db.rows ==> RowOk(db, k, db.rows[k])
    ensures var r := PresenceRow(db, server, present, now, k);
            r.Some? ==>
              && RowOk(db, k, r.value)
              && (r.value.runId.Some? ==>
                    k in db.rows && db.rows[k].runId == r.value.runId && db.rows[k].previous == r.value.previous)
  {
  }

  lemma PresenceKeeps(db: Db, server: Server, present: set<string>, now: int, run: RunId)
    requires Inv(db)
    ensures Inv(ApplyPresence(db, server, present, now))
    ensures KeepsScope(db.rows, ApplyPresence(db, server, present, now).rows, run)
  {
    PresenceAgrees(db, server, present, now);
    var after := ApplyPresence(db, server, present, now);
    forall k | k in after.rows
      ensures RowOk(after, k, after.rows[k])
      ensures after.rows[k].runId == Some(run) ==>
                k in db.rows && db.rows[k].runId == Some(run) && after.rows[k].previous == db.rows[k].previous
    {
      PresenceRowsAt(db, server, present, now, k);
      PresenceRowOk(db, server, present, now, k);
      RowOkFrame(db, after, k, after.rows[k]);
    }
    assert forall a :: IsOpen(after, a) <==> IsOpen(db, a);
  }

  lemma MarkedRowOk(db: Db, s: Settings, server: Server, present: set<string>, now: int, run: RunId, k: Key)
    requires k in db.rows ==> RowOk(db, k, db.rows[k])
    requires IsOpen(db, run) && db.runs[run].server == server
    ensures var marked := MarkedRow(db, s, server, present, now, run, k);
            && (marked.Some? ==> RowOk(db, k, marked.value))
            && (marked.Some? && marked.value.runId != Some(run) ==> k in db.rows && marked.value == db.rows[k])
  {
  }

  lemma MarkKeeps(db: Db, s: Settings, server: Server, present: set<string>, now: int, run: RunId, other: RunId)
    requires Inv(db) && IsOpen(db, run) && db.runs[run].server == server && other != run
    ensures Inv(Mark(db, s, server, present, now, run))
    ensures KeepsScope(db.rows, Mark(db, s, server, present, now, run).rows, other)
  {
    MarkAgrees(db, s, server, present, now, run);
    var after := Mark(db, s, server, present, now, run);
    forall k | k in after.rows
      ensures RowOk(after, k, after.rows[k])
      ensures after.rows[k].runId != Some(run) ==> k in db.rows && after.rows[k] == db.rows[k]
    {
      MarkedRowsAt(db, s, server, present, now, run, k);
      MarkedRowOk(db, s, server, present, now, run, k);
      RowOkFrame(db, after, k, after.rows[k]);
    }
    assert forall a :: IsOpen(after, a) <==> IsOpen(db, a);
  }

  lemma OpenedKeeps(db: Db, s: Settings, q: Request)
    requires Inv(db) && q.runId !in db.runs && !HasOpenRun(db, q.server)
    ensures Inv(Opened(db, s, q))
  {
    var after := Opened(db, s, q);
    assert forall a :: IsOpen(after, a) <==> IsOpen(db, a) || a == q.runId;
    forall k | k in after.rows
      ensures RowOk(after, k, after.rows[k])
    {
      assert RowOk(db, k, db.rows[k]);
    }
    assert forall r :: r in after.renders ==> Agrees(db.rows, db.renders, r);
  }

  lemma StampKeeps(db: Db, q: Request, run: RunId)
    requires Inv(db) && q.libraries.Some?
    ensures Inv(Stamp(db, q)) && Stamp(db, q).runs == db.runs
    ensures KeepsScope(db.rows, Stamp(db, q).rows, run)
  {
    if q.libraries.value != {} {
      PresenceKeeps(db, q.server, q.libraries.value, q.now, run);
    }
  }

  lemma StartKeeps(db: Db, s: Settings, q: Request, other: RunId)
    requires Inv(db) && q.runId !in db.runs && other != q.runId && Start(db, s, q).Success?
    ensures Inv(Start(db, s, q).value)
    ensures KeepsScope(db.rows, Start(db, s, q).value.rows, other)
    ensures Remembers(Stamp(db, q).rows, Start(db, s, q).value.rows, q.runId)
  {
    StampKeeps(db, q, other);
    OpenedKeeps(Stamp(db, q), s, q);
    var stamped := Opened(Stamp(db, q), s, q);
    forall k | k in stamped.rows
      ensures stamped.rows[k].runId != Some(q.runId)
    {
      assert RowOk(Stamp(db, q), k, stamped.rows[k]);
    }
    if q.libraries.value != {} {
      MarkKeeps(stamped, s, q.server, q.libraries.value, q.now, q.runId, other);
      MarkRemembers(stamped, s, q.server, q.libraries.value, q.now, q.runId);
      ScopeChains(db.rows, stamped.rows, Start(db, s, q).value.rows, other);
    }
  }

  lemma ScopeChains(first: Rows, mid: Rows, last: Rows, run: RunId)
    requires KeepsScope(first, mid, run) && KeepsScope(mid, last, run)
    ensures KeepsScope(first, last, run)
  {
    forall k | k in last && last[k].runId == Some(run)
      ensures k in first && first[k].runId == Some(run) && last[k].previous == first[k].previous
    {
      assert k in mid && mid[k].runId == Some(run);
    }
  }

  lemma RetryFailedKeeps(db: Db, server: Server, now: int, run: RunId)
    requires Inv(db)
    ensures Inv(RetryFailed(db, server, now))
    ensures KeepsScope(db.rows, RetryFailed(db, server, now).rows, run)
  {
    RetryFailedAgrees(db, server, now);
    var after := RetryFailed(db, server, now);
    forall k | k in after.rows
      ensures RowOk(after, k, after.rows[k])
    {
      assert RowOk(db, k, db.rows[k]);
    }
    assert forall a :: IsOpen(after, a) <==> IsOpen(db, a);
  }

  // ---------------------------------------------------------------------- closing

  lemma FinishKeeps(db: Db, run: RunId, status: RunStatus, detail: Detail, t: Tallies, now: int, other: RunId)
    requires Inv(db) && status != Running
    ensures Inv(Finish(db, run, status, detail, t, now))
    ensures KeepsScope(db.rows, Finish(db, run, status, detail, t, now).rows, other)
  {
    if IsOpen(db, run) {
      var after := Finish(db, run, status, detail, t, now);
      assert forall a :: IsOpen(after, a) <==> IsOpen(db, a) && a != run;
      forall k | k in after.rows
        ensures RowOk(after, k, after.rows[k])
      {
        assert RowOk(db, k, db.rows[k]);
      }
      forall r | r in after.renders
        ensures Agrees(after.rows, after.renders, r)
      {
        assert Agrees(db.rows, db.renders, r);
        SameArtSameFold(db.rows, after.rows, r);
      }
    }
  }

  lemma CancelledRowOk(db: Db, run: RunId, now: int, k: Key)
    requires k in db.rows && RowOk(db, k, db.rows[k])
    ensures var r := CancelledRow(db.rows[k], run, now);
            r.Some? ==>
              && RowOk(db, k, r.value) && r.value.runId != Some(run)
              && (r.value.runId.Some? ==> r.value == db.rows[k])
  {
  }

  lemma CancelKeepsRows(db: Db, run: RunId, now: int, k: Key)
    requires Inv(db) && IsOpen(db, run) && k in Cancel(db, run, now).rows
    ensures var after := Cancel(db, run, now);
            && RowOk(after, k, after.rows[k])
            && (after.rows[k].runId.Some? ==> k in db.rows && after.rows[k] == db.rows[k])
  {
    CancelClosesWith(db, run, now);
    CancelledRowsAt(db.rows, run, now, k);
    CancelledRowOk(db, run, now, k);
    RowOkFrame(db, Cancel(db, run, now), k, Cancel(db, run, now).rows[k]);
  }

  lemma CancelKeepsRuns(db: Db, run: RunId, now: int)
    requires RunsOk(db) && IsOpen(db, run)
    ensures RunsOk(Cancel(db, run, now))
  {
    CancelClosesWith(db, run, now);
    CancelledRunOk(db, run, now);
    CloseKeepsRuns(db, Cancel(db, run, now), run,
                   Closed(db.runs[run], Cancelled, CancelSentence(db.rows, run), RunTallies(db.rows, run), now));
  }

  lemma CloseKeepsRuns(db: Db, after: Db, run: RunId, closed: Run)
    requires RunsOk(db) && run in db.runs && RunOk(closed) && closed.finishedAt.Some?
    requires after.runs == db.runs[run := closed]
    ensures RunsOk(after)
  {
    assert forall a :: IsOpen(after, a) <==> IsOpen(db, a) && a != run;
  }

  lemma CancelKeeps(db: Db, run: RunId, now: int, other: RunId)
    requires Inv(db) && IsOpen(db, run)
    ensures Inv(Cancel(db, run, now))
    ensures KeepsScope(db.rows, Cancel(db, run, now).rows, other)
  {
    CancelAgrees(db, run, now);
    CancelKeepsRuns(db, run, now);
    forall k | k in Cancel(db, run, now).rows {
      CancelKeepsRows(db, run, now, k);
    }
  }

  lemma CancelledRunOk(db: Db, run: RunId, now: int)
    requires IsOpen(db, run)
    ensures RunOk(Closed(db.runs[run], Cancelled, CancelSentence(db.rows, run), RunTallies(db.rows, run), now))
  {
  }

  /** A write to one run's own columns that does not change whether it is open. */
  lemma RunNoteKeeps(db: Db, run: RunId, noted: Run)
    requires Inv(db) && run in db.runs && RunOk(noted)
    requires noted.server == db.runs[run].server && noted.finishedAt == db.runs[run].finishedAt
    ensures Inv(db.(runs := db.runs[run := noted]))
  {
    var after := db.(runs := db.runs[run := noted]);
    assert forall a :: IsOpen(after, a) <==> IsOpen(db, a);
    forall k | k in after.rows
      ensures RowOk(after, k, after.rows[k])
    {
      RowOkFrame(db, after, k, db.rows[k]);
    }
    assert forall r :: r in after.renders ==> Agrees(db.rows, db.renders, r);
  }

  /** The count that reaches the limit lands on the run being closed, so the
      close can be taken first and the note after it. */
  lemma CloseThenNote(db: Db, run: RunId, t: Tallies, idle: nat, now: int)
    requires IsOpen(db, run)
    ensures var detail := if t.due == 0 then Finished(t.done, t.failed) else Stopped(t.due, t.done, t.failed);
            var noted := db.(runs := db.runs[run := db.runs[run].(lastDrainedAt := Some(now), idleDrains := idle)]);
            var closed := Finish(db, run, Ok, detail, t, now);
            Finish(noted, run, Ok, detail, t, now) ==
            closed.(runs := closed.runs[run := closed.runs[run].(lastDrainedAt := Some(now), idleDrains := idle)])
  {
  }

  lemma CloseThenNoteKeeps(db: Db, run: RunId, t: Tallies, idle: nat, now: int, other: RunId)
    requires Inv(db) && IsOpen(db, run)
    ensures var detail := if t.due == 0 then Finished(t.done, t.failed) else Stopped(t.due, t.done, t.failed);
            var noted := db.(runs := db.runs[run := db.runs[run].(lastDrainedAt := Some(now), idleDrains := idle)]);
            Inv(Finish(noted, run, Ok, detail, t, now)) && KeepsScope(db.rows, Finish(noted, run, Ok, detail, t, now).rows, other)
  {
    var detail := if t.due == 0 then Finished(t.done, t.failed) else Stopped(t.due, t.done, t.failed);
    CloseThenNote(db, run, t, idle, now);
    FinishKeeps(db, run, Ok, detail, t, now, other);
    var closed := Finish(db, run, Ok, detail, t, now);
    RunNoteKeeps(closed, run, closed.runs[run].(lastDrainedAt := Some(now), idleDrains := idle));
  }

  lemma SettleKeeps(db: Db, run: RunId, t: Tallies, spent: nat, before: Tallies, beforeSpent: nat, idleRead: nat, now: int, other: RunId)
    requires Inv(db) && run in db.runs
    ensures Inv(SettleWith(db, run, t, spent, before, beforeSpent, idleRead, now))
    ensures KeepsScope(db.rows, SettleWith(db, run, t, spent, before, beforeSpent, idleRead, now).rows, other)
  {
    var idle := if (t, spent) != (before, beforeSpent) then 0 else idleRead + 1;
    var noted := db.runs[run].(lastDrainedAt := Some(now), idleDrains := idle);
    if !IsOpen(db, run) || (t.due > 0 && idle < MAX_IDLE_DRAINS) {
      RunNoteKeeps(db, run, noted);
    } else {
      CloseThenNoteKeeps(db, run, t, idle, now, other);
    }
  }

  // ------------------------------------------------------------------- base case

  /** The arming migration: every pending row without a horizon becomes due. */
  function ArmStranded(rows: Rows, now: int): Rows {
    map k | k in rows ::
      if rows[k].status == Pending && rows[k].nextAttemptAt.None? then rows[k].(nextAttemptAt := Some(now)) else rows[k]
  }

  /** It makes the invariant hold of any database sound in every other respect,
      and leaves such a database alone once it holds. */
  lemma ArmingMakesSound(db: Db, now: int)
    requires RunsOk(db) && AllAgree(db)
    requires forall k :: k in db.rows ==> RowOk(db, k, db.rows[k].(nextAttemptAt := Some(now)))
    ensures Inv(db.(rows := ArmStranded(db.rows, now)))
    ensures Inv(db) <==> ArmStranded(db.rows, now) == db.rows
    ensures ArmStranded(db.rows, now).Keys == db.rows.Keys
    ensures forall k :: k in db.rows ==>
              ArmStranded(db.rows, now)[k] ==
              if db.rows[k].status == Pending && db.rows[k].nextAttemptAt.None?
              then db.rows[k].(nextAttemptAt := Some(now)) else db.rows[k]
  {
    var armed := db.(rows := ArmStranded(db.rows, now));
    forall r | r in armed.renders
      ensures Agrees(armed.rows, armed.renders, r)
    {
      assert Agrees(db.rows, db.renders, r);
      SameArtSameFold(db.rows, armed.rows, r);
    }
    forall k | k in db.rows
      ensures RowOk(armed, k, armed.rows[k])
      ensures RowOk(db, k, db.rows[k]) <==> armed.rows[k] == db.rows[k]
    {
      assert RowOk(db, k, db.rows[k].(nextAttemptAt := Some(now)));
    }
    assert forall a :: IsOpen(armed, a) <==> IsOpen(db, a);
  }
}
