/** One run drained with no other writer: which rows a batch takes, when a batch
    counts as idle, and why every run closes (`drain_catch_ups`). */
module Drain {

  import opened Options
  import opened Outcomes
  import opened Database
  import opened CatchUp
  import opened RetryPass
  import opened Sums

  const BATCH := 500

  // ---------------------------------------------------------------- selection

  /** What the due query of either table asks; no server means every server,
      and no run means the rows no run armed, never every row. */
  predicate Due(rows: Rows, server: Option<Server>, run: Option<RunId>, now: int, k: Key) {
    && k in rows
    && rows[k].status == Pending
    && rows[k].nextAttemptAt.Some? && rows[k].nextAttemptAt.value <= now
    && (server.Some? ==> k.server == server.value)
    && rows[k].runId == run
  }

  function DueIn(rows: Rows, table: Table, server: Option<Server>, run: Option<RunId>, now: int): set<Key> {
    set k | k in rows && k.table == table && Due(rows, server, run, now, k)
  }

  /** `keys` is what one table's query returns: distinct due rows in horizon
      order, at most `BATCH` of them, none left out for a later one. */
  ghost predicate IsSelection(rows: Rows, due: set<Key>, keys: seq<Key>)
    requires forall k :: k in due ==> k in rows && rows[k].nextAttemptAt.Some?
  {
    && (forall i :: 0 <= i < |keys| ==> keys[i] in due)
    && (forall i, j :: 0 <= i < j < |keys| ==>
                         keys[i] != keys[j] && rows[keys[i]].nextAttemptAt.value <= rows[keys[j]].nextAttemptAt.value)
    && |keys| <= BATCH
    && (forall k :: k in due && k !in keys ==>
          |keys| == BATCH && forall i :: 0 <= i < |keys| ==> rows[keys[i]].nextAttemptAt.value <= rows[k].nextAttemptAt.value)
  }

  function KeysOf(jobs: seq<Job>): (keys: seq<Key>)
    ensures |keys| == |jobs| && forall i :: 0 <= i < |jobs| ==> keys[i] == jobs[i].key
  {
    seq(|jobs|, i requires 0 <= i < |jobs| => jobs[i].key)
  }

  /** A whole batch: the artwork selection, then the metadata one. */
  ghost predicate IsBatch(rows: Rows, server: Option<Server>, run: Option<RunId>, now: int, keys: seq<Key>) {
    exists art: seq<Key>, meta: seq<Key> ::
      && keys == art + meta
      && IsSelection(rows, DueIn(rows, Artwork, server, run, now), art)
      && IsSelection(rows, DueIn(rows, Metadata, server, run, now), meta)
  }

  /** A batch is duplicate-free, and every row of it is due in its scope. */
  lemma BatchIsDue(rows: Rows, server: Option<Server>, run: Option<RunId>, now: int, keys: seq<Key>)
    requires IsBatch(rows, server, run, now, keys)
    ensures forall i, j :: 0 <= i < j < |keys| ==> keys[i] != keys[j]
    ensures forall i :: 0 <= i < |keys| ==> Due(rows, server, run, now, keys[i])
  {
    var art: seq<Key>, meta: seq<Key> :|
      && keys == art + meta
      && IsSelection(rows, DueIn(rows, Artwork, server, run, now), art)
      && IsSelection(rows, DueIn(rows, Metadata, server, run, now), meta);
    forall i | 0 <= i < |keys|
      ensures Due(rows, server, run, now, keys[i])
      ensures keys[i].table == (if i < |art| then Artwork else Metadata)
    {
      assert keys[i] == if i < |art| then art[i] else meta[i - |art|];
    }
    forall i, j | 0 <= i < j < |keys|
      ensures keys[i] != keys[j]
    {
      if j < |art| {
        assert keys[i] == art[i] && keys[j] == art[j];
      } else if i >= |art| {
        assert keys[i] == meta[i - |art|] && keys[j] == meta[j - |art|];
      }
    }
  }

  /** Read off the rows: a batch takes pending rows whose horizon has come, of the
      server it was asked for, and of the run it was asked for or of none. */
  lemma BatchTakesOnly(rows: Rows, server: Option<Server>, run: Option<RunId>, now: int, keys: seq<Key>, i: nat)
    requires IsBatch(rows, server, run, now, keys) && i < |keys|
    ensures var k := keys[i];
            && k in rows && rows[k].status == Pending && rows[k].runId == run
            && rows[k].nextAttemptAt.Some? && rows[k].nextAttemptAt.value <= now
            && (server == None || server == Some(k.server))
  {
    BatchIsDue(rows, server, run, now, keys);
  }

  /** It takes at most 500 of each table, artwork before metadata, and within a table
      no row before one whose horizon came earlier. */
  lemma BatchOrder(rows: Rows, server: Option<Server>, run: Option<RunId>, now: int, keys: seq<Key>) returns (artwork: nat)
    requires IsBatch(rows, server, run, now, keys)
    ensures artwork <= 500 && artwork <= |keys| <= artwork + 500
    ensures forall i :: 0 <= i < |keys| ==> keys[i].table == if i < artwork then Artwork else Metadata
    ensures forall i :: 0 <= i < |keys| ==> keys[i] in rows && rows[keys[i]].nextAttemptAt.Some?
    ensures forall i, j :: 0 <= i < j < |keys| && keys[i].table == keys[j].table ==>
              rows[keys[i]].nextAttemptAt.value <= rows[keys[j]].nextAttemptAt.value
  {
    var art: seq<Key>, meta: seq<Key> :|
      && keys == art + meta
      && IsSelection(rows, DueIn(rows, Artwork, server, run, now), art)
      && IsSelection(rows, DueIn(rows, Metadata, server, run, now), meta);
    artwork := |art|;
    forall i | 0 <= i < |keys|
      ensures keys[i] == (if i < |art| then art[i] else meta[i - |art|])
      ensures keys[i].table == (if i < artwork then Artwork else Metadata)
    {
    }
  }

  /** And of those it leaves out only what comes after 500 others of its table. */
  lemma BatchLeavesOnly(rows: Rows, server: Option<Server>, run: Option<RunId>, now: int, keys: seq<Key>, k: Key)
    requires IsBatch(rows, server, run, now, keys)
    requires k in rows && rows[k].status == Pending && rows[k].runId == run
    requires rows[k].nextAttemptAt.Some? && rows[k].nextAttemptAt.value <= now
    requires (server == None || server == Some(k.server)) && k !in keys
    ensures exists taken: seq<Key> ::
              && |taken| == 500 && (forall i, j :: 0 <= i < j < 500 ==> taken[i] != taken[j])
              && forall i :: 0 <= i < 500 ==>
                   && taken[i] in keys && taken[i].table == k.table
                   && rows[taken[i]].nextAttemptAt.value <= rows[k].nextAttemptAt.value
  {
    var art: seq<Key>, meta: seq<Key> :|
      && keys == art + meta
      && IsSelection(rows, DueIn(rows, Artwork, server, run, now), art)
      && IsSelection(rows, DueIn(rows, Metadata, server, run, now), meta);
    var taken := if k.table == Artwork then art else meta;
    assert k in DueIn(rows, k.table, server, run, now) && k !in taken;
    assert forall i :: 0 <= i < |taken| ==> taken[i] in keys;
  }

  // -------------------------------------------------------------- closing a batch

  /** What the drain does with its counts: note the batch, and close the run
      when nothing is due or it has been idle too long. */
  function SettleWith(
    db: Db, run: RunId, t: Tallies, spent: nat, before: Tallies, beforeSpent: nat, idleRead: nat, now: int): Db
    requires run in db.runs
  {
    var idle := if (t, spent) != (before, beforeSpent) then 0 else idleRead + 1;
    var noted := db.(runs := db.runs[run := db.runs[run].(lastDrainedAt := Some(now), idleDrains := idle)]);
    if t.due == 0 then Finish(noted, run, Ok, Finished(t.done, t.failed), t, now)
    else if idle >= MAX_IDLE_DRAINS then Finish(noted, run, Ok, Stopped(t.due, t.done, t.failed), t, now)
    else noted
  }

  ghost function Settle(db: Db, run: RunId, before: Tallies, beforeSpent: nat, idleRead: nat, now: int): Db
    requires run in db.runs
  {
    SettleWith(db, run, RunTallies(db.rows, run), AttemptsSpent(db.rows, run), before, beforeSpent, idleRead, now)
  }

  /** One completed drain of one run. */
  ghost function DrainOnce(db: Db, run: RunId, jobs: seq<Job>, now: int, budget: nat): Db
    requires IsOpen(db, run) && Distinct(jobs) && AllDue(db.rows, jobs)
  {
    PassMoves(db, jobs, budget);
    Settle(Pass(db, jobs, budget), run, RunTallies(db.rows, run), AttemptsSpent(db.rows, run), db.runs[run].idleDrains, now)
  }

  // ------------------------------------------------------------- the idle test

  /** Some row of the run changed its status or its budget. */
  ghost predicate Moved(before: Rows, after: Rows, run: RunId) {
    exists k ::
      && k in InRun(before, run)
      && (k !in after || before[k].status != after[k].status || before[k].attempts != after[k].attempts)
  }

  ghost predicate Drained(before: Rows, after: Rows, budget: nat) {
    before.Keys == after.Keys && forall k :: k in before ==> Moves(before[k], after[k], budget)
  }

  lemma DrainedKeepsTheRun(before: Rows, after: Rows, run: RunId, budget: nat)
    requires Drained(before, after, budget)
    ensures InRun(after, run) == InRun(before, run)
    ensures DueKeys(after, run) <= DueKeys(before, run)
  {
    forall k | k in before
      ensures after[k].runId == before[k].runId
      ensures after[k].status == Pending ==> before[k].status == Pending
    {
      assert Moves(before[k], after[k], budget);
    }
  }

  /** The counts cannot tell a batch from one that did nothing exactly when it
      did nothing: no status histogram and no budget sum can move in two rows
      and cancel out. */
  lemma IdleTestIsComplete(before: Rows, after: Rows, run: RunId, budget: nat)
    requires Drained(before, after, budget)
    ensures (RunTallies(after, run), AttemptsSpent(after, run)) == (RunTallies(before, run), AttemptsSpent(before, run))
            <==> !Moved(before, after, run)
  {
    DrainedKeepsTheRun(before, after, run, budget);
    if !Moved(before, after, run) {
      UnmovedCountsAgree(before, after, run);
    }
    if (RunTallies(after, run), AttemptsSpent(after, run)) == (RunTallies(before, run), AttemptsSpent(before, run)) {
      SubsetCards(DueKeys(after, run), DueKeys(before, run));
      forall k | k in InRun(before, run)
        ensures before[k].status == after[k].status && before[k].attempts <= after[k].attempts
      {
        assert Moves(before[k], after[k], budget);
        assert k in DueKeys(before, run) <==> k in DueKeys(after, run);
      }
      SumEqual(AttemptsIn(before, run), AttemptsIn(after, run));
      assert forall k :: k in InRun(before, run) ==>
          before[k].attempts == AttemptsIn(before, run)[k] == AttemptsIn(after, run)[k] == after[k].attempts;
    }
  }

  lemma UnmovedCountsAgree(before: Rows, after: Rows, run: RunId)
    requires before.Keys == after.Keys && InRun(after, run) == InRun(before, run) && !Moved(before, after, run)
    ensures RunTallies(after, run) == RunTallies(before, run)
    ensures AttemptsSpent(after, run) == AttemptsSpent(before, run)
  {
    assert forall k :: k in InRun(before, run) ==>
        before[k].status == after[k].status && before[k].attempts == after[k].attempts;
    assert DueKeys(after, run) == DueKeys(before, run);
    assert DoneKeys(after, run) == DoneKeys(before, run);
    assert FailedKeys(after, run) == FailedKeys(before, run);
    assert AttemptsIn(after, run) == AttemptsIn(before, run);
  }

  // --------------------------------------------------------------- termination

  function Weight(r: Row, run: RunId, budget: nat): nat {
    if r.runId != Some(run) || r.status != Pending then 0
    else if r.attempts < budget then 1 + budget - r.attempts
    else 1
  }

  function Weights(rows: Rows, run: RunId, budget: nat): map<Key, nat> {
    map k | k in rows :: Weight(rows[k], run, budget)
  }

  /** The work a run can still do: one for each row due, and one for each
      attempt it may still spend. */
  ghost function Work(rows: Rows, run: RunId, budget: nat): nat {
    Sum(Weights(rows, run, budget))
  }

  lemma WorkOnlyFalls(before: Rows, after: Rows, run: RunId, budget: nat)
    requires Drained(before, after, budget)
    ensures Work(after, run, budget) <= Work(before, run, budget)
    ensures Moved(before, after, run) ==> Work(after, run, budget) < Work(before, run, budget)
  {
    var low, high := Weights(after, run, budget), Weights(before, run, budget);
    forall k | k in before
      ensures low[k] <= high[k]
      ensures k in InRun(before, run) && (before[k].status != after[k].status || before[k].attempts != after[k].attempts) ==>
                low[k] < high[k]
    {
      assert Moves(before[k], after[k], budget);
    }
    SumPointwise(low, high);
    if Moved(before, after, run) {
      var k :| k in InRun(before, run) && (k !in after || before[k].status != after[k].status || before[k].attempts != after[k].attempts);
      assert k in low && low[k] < high[k];
    }
  }

  /** How many more drains an open run can survive. */
  ghost function DrainsLeft(db: Db, run: RunId, budget: nat): int
    requires run in db.runs
  {
    MAX_IDLE_DRAINS * Work(db.rows, run, budget) + MAX_IDLE_DRAINS - db.runs[run].idleDrains
  }

  ghost predicate IdleInRange(db: Db, run: RunId) {
    IsOpen(db, run) ==> db.runs[run].idleDrains < MAX_IDLE_DRAINS
  }

  /** What a close writes on a run, by whether anything was left due. */
  function CloseNote(r: Run, t: Tallies, idle: nat, now: int): Run {
    Closed(r.(lastDrainedAt := Some(now), idleDrains := idle), Ok,
           if t.due == 0 then Finished(t.done, t.failed) else Stopped(t.due, t.done, t.failed), t, now)
  }

  /** What settling an open run leaves, by whether it closed. */
  lemma SettleWithLeaves(db: Db, run: RunId, t: Tallies, spent: nat, before: Tallies, beforeSpent: nat, idleRead: nat, now: int)
    requires IsOpen(db, run)
    ensures var idle := if (t, spent) != (before, beforeSpent) then 0 else idleRead + 1;
            var after := SettleWith(db, run, t, spent, before, beforeSpent, idleRead, now);
            && run in after.runs && after.runs[run].idleDrains == idle
            && after.renders == db.renders && after.items == db.items
            && (IsOpen(after, run) <==> t.due > 0 && idle < MAX_IDLE_DRAINS)
            && (IsOpen(after, run) ==> after.rows == db.rows)
            && (!IsOpen(after, run) ==>
                  after.rows == Released(db.rows, run) && after.runs[run] == CloseNote(db.runs[run], t, idle, now))
  {
  }

  /** A settle notes the instant and the idle count on its own run, open or closed, and
      writes no other run, no render and no item. */
  lemma SettleTouchesOneRun(db: Db, run: RunId, t: Tallies, spent: nat, before: Tallies, beforeSpent: nat, idleRead: nat, now: int)
    requires run in db.runs
    ensures var after := SettleWith(db, run, t, spent, before, beforeSpent, idleRead, now);
            && run in after.runs && after.runs == db.runs[run := after.runs[run]]
            && after.runs[run].server == db.runs[run].server && after.runs[run].cadence == db.runs[run].cadence
            && after.runs[run].lastDrainedAt == Some(now)
            && after.runs[run].idleDrains == (if (t, spent) != (before, beforeSpent) then 0 else idleRead + 1)
            && after.renders == db.renders && after.items == db.items
  {
  }

  lemma SettleLeaves(db: Db, run: RunId, before: Tallies, beforeSpent: nat, idleRead: nat, now: int)
    requires IsOpen(db, run)
    ensures var t := RunTallies(db.rows, run);
            var idle := if (t, AttemptsSpent(db.rows, run)) != (before, beforeSpent) then 0 else idleRead + 1;
            var after := Settle(db, run, before, beforeSpent, idleRead, now);
            && run in after.runs && after.runs[run].idleDrains == idle
            && after.renders == db.renders && after.items == db.items
            && (IsOpen(after, run) <==> t.due > 0 && idle < MAX_IDLE_DRAINS)
            && (IsOpen(after, run) ==> after.rows == db.rows)
            && (!IsOpen(after, run) ==>
                  after.rows == Released(db.rows, run) && after.runs[run] == CloseNote(db.runs[run], t, idle, now))
  {
    SettleWithLeaves(db, run, RunTallies(db.rows, run), AttemptsSpent(db.rows, run), before, beforeSpent, idleRead, now);
  }

  /** One drain, through the idle test: what it left the run's counter at. */
  lemma DrainIdles(db: Db, run: RunId, jobs: seq<Job>, now: int, budget: nat)
    requires IsOpen(db, run) && Distinct(jobs) && AllDue(db.rows, jobs)
    ensures var passed := Pass(db, jobs, budget);
            && passed.runs == db.runs && Drained(db.rows, passed.rows, budget)
            && ((RunTallies(passed.rows, run), AttemptsSpent(passed.rows, run)) != (RunTallies(db.rows, run), AttemptsSpent(db.rows, run))
                <==> Moved(db.rows, passed.rows, run))
  {
    PassMoves(db, jobs, budget);
    IdleTestIsComplete(db.rows, Pass(db, jobs, budget).rows, run, budget);
  }

  /** Whatever the servers answer, one drain closes the run or leaves it with
      fewer drains to live. */
  lemma DrainMakesProgress(db: Db, run: RunId, jobs: seq<Job>, now: int, budget: nat)
    requires IsOpen(db, run) && IdleInRange(db, run) && Distinct(jobs) && AllDue(db.rows, jobs)
    ensures var after := DrainOnce(db, run, jobs, now, budget);
            && run in after.runs && IdleInRange(after, run)
            && (IsOpen(after, run) ==>
                  && 0 < DrainsLeft(after, run, budget) < DrainsLeft(db, run, budget)
                  && after.runs[run].idleDrains ==
                     if Moved(db.rows, Pass(db, jobs, budget).rows, run) then 0 else db.runs[run].idleDrains + 1)
  {
    var passed := Pass(db, jobs, budget);
    DrainIdles(db, run, jobs, now, budget);
    SettleLeaves(passed, run, RunTallies(db.rows, run), AttemptsSpent(db.rows, run), db.runs[run].idleDrains, now);
    WorkOnlyFalls(db.rows, passed.rows, run, budget);
  }

  /** One completed drain: what the world answered, and when. */
  datatype Tick = Tick(jobs: seq<Job>, now: int)

  /** A drain after a drain, until the run closes. */
  ghost function Drains(db: Db, run: RunId, ticks: seq<Tick>, budget: nat): Db
    requires Drainable(db, run, ticks, budget)
    decreases |ticks|, 1
  {
    if ticks == [] then db
    else
      var before := Drains(db, run, ticks[..|ticks| - 1], budget);
      var last := ticks[|ticks| - 1];
      if IsOpen(before, run) then
        BatchIsDue(before.rows, Some(before.runs[run].server), Some(run), last.now, KeysOf(last.jobs));
        DrainOnce(before, run, last.jobs, last.now, budget)
      else before
  }

  /** Each tick's batch is what the due queries returned when it was taken. */
  ghost predicate Drainable(db: Db, run: RunId, ticks: seq<Tick>, budget: nat)
    decreases |ticks|, 0
  {
    ticks == [] ||
    (var init, last := ticks[..|ticks| - 1], ticks[|ticks| - 1];
     && Drainable(db, run, init, budget)
     && var before := Drains(db, run, init, budget);
        IsOpen(before, run) ==>
          IsBatch(before.rows, Some(before.runs[run].server), Some(run), last.now, KeysOf(last.jobs)))
  }

  /** The last of a history of drains, on what the ones before it left. */
  lemma DrainsSnoc(db: Db, run: RunId, ticks: seq<Tick>, budget: nat)
    requires Drainable(db, run, ticks, budget) && ticks != []
    ensures var init, last := ticks[..|ticks| - 1], ticks[|ticks| - 1];
            && Drainable(db, run, init, budget)
            && var before := Drains(db, run, init, budget);
               if IsOpen(before, run)
               then && Distinct(last.jobs) && AllDue(before.rows, last.jobs)
                    && Drains(db, run, ticks, budget) == DrainOnce(before, run, last.jobs, last.now, budget)
               else Drains(db, run, ticks, budget) == before
  {
    var init, last := ticks[..|ticks| - 1], ticks[|ticks| - 1];
    var before := Drains(db, run, init, budget);
    if IsOpen(before, run) {
      BatchIsDue(before.rows, Some(before.runs[run].server), Some(run), last.now, KeysOf(last.jobs));
    }
  }

  lemma {:induction false} DrainsLeftFalls(db: Db, run: RunId, ticks: seq<Tick>, budget: nat)
    requires IsOpen(db, run) && IdleInRange(db, run) && Drainable(db, run, ticks, budget)
    ensures var after := Drains(db, run, ticks, budget);
            && IdleInRange(after, run)
            && (IsOpen(after, run) ==> 0 < DrainsLeft(after, run, budget) <= DrainsLeft(db, run, budget) - |ticks|)
    decreases |ticks|
  {
    if ticks != [] {
      var init, last := ticks[..|ticks| - 1], ticks[|ticks| - 1];
      DrainsLeftFalls(db, run, init, budget);
      var before := Drains(db, run, init, budget);
      if IsOpen(before, run) {
        BatchIsDue(before.rows, Some(before.runs[run].server), Some(run), last.now, KeysOf(last.jobs));
        DrainMakesProgress(before, run, last.jobs, last.now, budget);
      }
    }
  }

  /** Every catch-up closes: after that many drains it is over, whatever the
      servers answered, whichever rows raised and whichever commits failed. */
  lemma EveryRunCloses(db: Db, run: RunId, ticks: seq<Tick>, budget: nat)
    requires IsOpen(db, run) && IdleInRange(db, run) && Drainable(db, run, ticks, budget)
    requires |ticks| >= DrainsLeft(db, run, budget)
    ensures !IsOpen(Drains(db, run, ticks, budget), run)
  {
    DrainsLeftFalls(db, run, ticks, budget);
  }

  /** Which of the drains moved a row of the run. */
  ghost function Moving(db: Db, run: RunId, ticks: seq<Tick>, budget: nat): seq<bool>
    requires Drainable(db, run, ticks, budget)
    decreases |ticks|
  {
    if ticks == [] then []
    else
      var init, last := ticks[..|ticks| - 1], ticks[|ticks| - 1];
      var before := Drains(db, run, init, budget);
      var passed := Pass(before, last.jobs, budget);
      Moving(db, run, init, budget) + [Moved(before.rows, passed.rows, run)]
  }

  /** The length of the trailing stretch of drains that moved nothing. */
  function Trailing(moving: seq<bool>): nat {
    if moving == [] || moving[|moving| - 1] then 0 else Trailing(moving[..|moving| - 1]) + 1
  }

  lemma TrailingStep(moving: seq<bool>, moved: bool)
    ensures Trailing(moving + [moved]) == if moved then 0 else Trailing(moving) + 1
  {
    assert (moving + [moved])[..|moving|] == moving;
  }

  /** `idle_drains` is a function of history: the unmoved drains since the last
      one that moved something. */
  lemma {:induction false} IdleDrainsIsTheTrailingStretch(db: Db, run: RunId, ticks: seq<Tick>, budget: nat)
    requires IsOpen(db, run) && db.runs[run].idleDrains == 0 && Drainable(db, run, ticks, budget)
    requires IsOpen(Drains(db, run, ticks, budget), run)
    ensures Drains(db, run, ticks, budget).runs[run].idleDrains == Trailing(Moving(db, run, ticks, budget))
    decreases |ticks|
  {
    if ticks != [] {
      var init, last := ticks[..|ticks| - 1], ticks[|ticks| - 1];
      var before := Drains(db, run, init, budget);
      DrainsSnoc(db, run, ticks, budget);
      IdleDrainsIsTheTrailingStretch(db, run, init, budget);
      TrailingStep(Moving(db, run, init, budget), Moved(before.rows, Pass(before, last.jobs, budget).rows, run));
      assert IdleInRange(before, run) by {
        DrainsLeftFalls(db, run, init, budget);
      }
      DrainMakesProgress(before, run, last.jobs, last.now, budget);
    }
  }

  /** How a drain ends a run: `ok` with nothing due, or `ok` with what it left
      after the last two drains moved nothing; otherwise it stays open. */
  lemma WhyADrainCloses(db: Db, run: RunId, jobs: seq<Job>, now: int, budget: nat)
    requires IsOpen(db, run) && IdleInRange(db, run) && Distinct(jobs) && AllDue(db.rows, jobs)
    ensures var passed := Pass(db, jobs, budget);
            var after := DrainOnce(db, run, jobs, now, budget);
            var t := RunTallies(passed.rows, run);
            && (!IsOpen(after, run) <==>
                  t.due == 0 || (db.runs[run].idleDrains == 1 && !Moved(db.rows, passed.rows, run)))
            && (!IsOpen(after, run) ==>
                  && after.runs[run].status == Ok
                  && after.runs[run].detail == Some(if t.due == 0 then Finished(t.done, t.failed) else Stopped(t.due, t.done, t.failed))
                  && InRun(after.rows, run) == {}
                  && ProgressOf(after, run) == Progress(t.due, t.done, t.failed, t.Total()))
  {
    var passed := Pass(db, jobs, budget);
    DrainIdles(db, run, jobs, now, budget);
    SettleLeaves(passed, run, RunTallies(db.rows, run), AttemptsSpent(db.rows, run), db.runs[run].idleDrains, now);
    var after := DrainOnce(db, run, jobs, now, budget);
    if !IsOpen(after, run) {
      ClosedServes(after, run, RunTallies(passed.rows, run));
      assert InRun(Released(passed.rows, run), run) == {};
    }
  }

  // ---------------------------------------------------------------- budgets over a run

  predicate BelowBudget(r: Row, budget: nat) {
    r.status == Pending ==> r.attempts < budget
  }

  lemma DrainKeepsBelowBudget(db: Db, run: RunId, jobs: seq<Job>, now: int, budget: nat, k: Key)
    requires IsOpen(db, run) && Distinct(jobs) && AllDue(db.rows, jobs)
    requires k in db.rows && BelowBudget(db.rows[k], budget)
    ensures var after := DrainOnce(db, run, jobs, now, budget).rows;
            k in after && BelowBudget(after[k], budget)
  {
    var passed := Pass(db, jobs, budget);
    DrainIdles(db, run, jobs, now, budget);
    assert Moves(db.rows[k], passed.rows[k], budget);
    SettleLeaves(passed, run, RunTallies(db.rows, run), AttemptsSpent(db.rows, run), db.runs[run].idleDrains, now);
  }

  lemma {:induction false} DrainsKeepBelowBudget(db: Db, run: RunId, ticks: seq<Tick>, budget: nat, k: Key)
    requires Drainable(db, run, ticks, budget) && k in db.rows && BelowBudget(db.rows[k], budget)
    ensures var after := Drains(db, run, ticks, budget).rows;
            k in after && BelowBudget(after[k], budget)
    decreases |ticks|
  {
    if ticks != [] {
      var init, last := ticks[..|ticks| - 1], ticks[|ticks| - 1];
      DrainsSnoc(db, run, ticks, budget);
      DrainsKeepBelowBudget(db, run, init, budget, k);
      var before := Drains(db, run, init, budget);
      if IsOpen(before, run) {
        DrainKeepsBelowBudget(before, run, last.jobs, last.now, budget, k);
      }
    }
  }

  /** Every row a start armed is pending only below its budget, through any drains
      of the run and after its close. */
  lemma StartedRowsStayBelowBudget(db: Db, s: Settings, server: Server, present: set<string>, now: int, run: RunId,
                                   ticks: seq<Tick>, budget: nat, k: Key)
    requires NoneArmed(db.rows, server, run) && budget >= 1
    requires Drainable(Mark(db, s, server, present, now, run), run, ticks, budget)
    requires k in DueKeys(MarkedRows(db, s, server, present, now, run), run)
    ensures var after := Drains(Mark(db, s, server, present, now, run), run, ticks, budget).rows;
            k in after && BelowBudget(after[k], budget)
  {
    MarkedRowsAt(db, s, server, present, now, run, k);
    DrainsKeepBelowBudget(Mark(db, s, server, present, now, run), run, ticks, budget, k);
  }

  // ------------------------------------------------------- what a cancel may lose

  /** No unsettled row the run created has ever been delivered or written. */
  ghost predicate CreatedUndelivered(rows: Rows, run: RunId) {
    forall k :: k in DueKeys(rows, run) && rows[k].previous.None? ==> rows[k].terminalAt.None?
  }

  lemma DrainedKeepsCreatedUndelivered(before: Rows, after: Rows, run: RunId, budget: nat)
    requires Drained(before, after, budget) && CreatedUndelivered(before, run)
    ensures CreatedUndelivered(after, run)
  {
    forall k | k in DueKeys(after, run) && after[k].previous.None?
      ensures after[k].terminalAt.None?
    {
      assert Moves(before[k], after[k], budget);
      assert k in DueKeys(before, run);
    }
  }

  lemma DrainKeepsCreatedUndelivered(db: Db, run: RunId, jobs: seq<Job>, now: int, budget: nat)
    requires IsOpen(db, run) && Distinct(jobs) && AllDue(db.rows, jobs) && CreatedUndelivered(db.rows, run)
    ensures CreatedUndelivered(DrainOnce(db, run, jobs, now, budget).rows, run)
  {
    var passed := Pass(db, jobs, budget);
    DrainIdles(db, run, jobs, now, budget);
    DrainedKeepsCreatedUndelivered(db.rows, passed.rows, run, budget);
    SettleLeaves(passed, run, RunTallies(db.rows, run), AttemptsSpent(db.rows, run), db.runs[run].idleDrains, now);
  }

  lemma {:induction false} DrainsKeepCreatedUndelivered(db: Db, run: RunId, ticks: seq<Tick>, budget: nat)
    requires Drainable(db, run, ticks, budget) && CreatedUndelivered(db.rows, run)
    ensures CreatedUndelivered(Drains(db, run, ticks, budget).rows, run)
    decreases |ticks|
  {
    if ticks != [] {
      var init, last := ticks[..|ticks| - 1], ticks[|ticks| - 1];
      DrainsKeepCreatedUndelivered(db, run, init, budget);
      var before := Drains(db, run, init, budget);
      if IsOpen(before, run) {
        BatchIsDue(before.rows, Some(before.runs[run].server), Some(run), last.now, KeysOf(last.jobs));
        DrainKeepsCreatedUndelivered(before, run, last.jobs, last.now, budget);
      }
    }
  }

  lemma RemovesADeliveryIff(rows: Rows, run: RunId, now: int)
    ensures (exists k :: k in rows && rows[k].terminalAt.Some? && k !in CancelledRows(rows, run, now))
            <==> !CreatedUndelivered(rows, run)
  {
    forall k | k in rows
      ensures k !in CancelledRows(rows, run, now) <==> k in RemovedKeys(rows, run)
    {
      CancelledRowsAt(rows, run, now, k);
    }
  }

  /** A cancel loses the record of a delivery exactly for the unsettled rows
      its run created that carry one... */
  lemma CancelLosesADeliveryIff(db: Db, run: RunId, now: int)
    requires IsOpen(db, run)
    ensures (exists k :: k in db.rows && db.rows[k].terminalAt.Some? && k !in Cancel(db, run, now).rows)
            <==> !CreatedUndelivered(db.rows, run)
  {
    CancelClosesWith(db, run, now);
    RemovesADeliveryIff(db.rows, run, now);
  }

  /** ...and the drain never makes one: after a start and any drains, a cancel
      undoes nothing that was delivered or written. */
  lemma DrainsThenCancelLoseNoDelivery(db: Db, run: RunId, ticks: seq<Tick>, budget: nat, now: int, k: Key)
    requires Drainable(db, run, ticks, budget) && CreatedUndelivered(db.rows, run)
    requires IsOpen(Drains(db, run, ticks, budget), run)
    requires k in Drains(db, run, ticks, budget).rows && Drains(db, run, ticks, budget).rows[k].terminalAt.Some?
    ensures var before := Drains(db, run, ticks, budget);
            var after := Cancel(before, run, now).rows;
            k in after && after[k].terminalAt == before.rows[k].terminalAt && after[k].fingerprint == before.rows[k].fingerprint
  {
    DrainsKeepCreatedUndelivered(db, run, ticks, budget);
    var before := Drains(db, run, ticks, budget);
    CancelLosesADeliveryIff(before, run, now);
    CancelClosesWith(before, run, now);
    CancelledRowsAt(before.rows, run, now, k);
  }

  lemma MarkCreatesUndelivered(db: Db, s: Settings, server: Server, present: set<string>, now: int, run: RunId)
    requires NoneArmed(db.rows, server, run)
    ensures CreatedUndelivered(MarkedRows(db, s, server, present, now, run), run)
  {
    var marked := MarkedRows(db, s, server, present, now, run);
    forall k | k in DueKeys(marked, run)
      ensures marked[k].previous.None? ==> marked[k].terminalAt.None?
    {
      MarkedRowsAt(db, s, server, present, now, run, k);
    }
  }
}
