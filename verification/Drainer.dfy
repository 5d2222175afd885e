/** The retry pass and the catch-up drain as they run: loops over detached rows
    with a savepoint and a commit each, against the tables in place. */
module Drainer {

  import opened Options
  import opened Outcomes
  import opened Database
  import opened CatchUp
  import opened RetryPass
  import opened Drain
  import opened Store
  import opened Sums

  /** One pass: its tables, and the counters its closures update. */
  class PassRun {
    const tables: Tables
    var uploaded: nat
    var written: nat
    var stillPending: nat
    var perServer: map<Server, Count>

    constructor (tables: Tables)
      ensures this.tables == tables && Counters() == NO_LEDGER
    {
      this.tables := tables;
      uploaded, written, stillPending, perServer := 0, 0, 0, map[];
    }

    function Counters(): Ledger
      reads this
    {
      Ledger(uploaded, written, stillPending, perServer)
    }

    method TallyDue(name: Server)
      modifies this
      ensures Counters() == RetryPass.TallyDue(old(Counters()), name)
    {
      var c := if name in perServer then perServer[name] else NO_COUNT;
      perServer := perServer[name := c.(due := c.due + 1)];
    }

    method TallyOutcome(name: Server, o: Outcome)
      modifies this
      ensures Counters() == RetryPass.TallyOutcome(old(Counters()), name, o)
    {
      var c := if name in perServer then perServer[name] else NO_COUNT;
      match o {
        case DidUpload => uploaded := uploaded + 1; c := c.(uploaded := c.uploaded + 1);
        case DidWrite => written := written + 1; c := c.(written := c.written + 1);
        case StayedPending => stillPending := stillPending + 1; c := c.(pending := c.pending + 1);
        case DidFail => c := c.(failed := c.failed + 1);
        case DidSkip => c := c.(skipped := c.skipped + 1);
      }
      perServer := perServer[name := c];
    }

    /** What every branch does after its record: tally, then roll the render up.
        An unforeseen exception can come before the tally or after it. */
    method Conclude(k: Key, o: Outcome, fault: Fault) returns (raised: bool)
      modifies this, tables`renders
      ensures raised <==> fault != NoFault
      ensures Counters() == if fault == BeforeOutcome then old(Counters()) else RetryPass.TallyOutcome(old(Counters()), k.server, o)
      ensures !raised ==>
                tables.State() == if k.table == Artwork then Database.Rollup(old(tables.State()), k.owner) else old(tables.State())
    {
      if fault == BeforeOutcome {
        return true;
      }
      TallyOutcome(k.server, o);
      if fault == AfterOutcome {
        return true;
      }
      if k.table == Artwork {
        var _ := tables.Rollup(k.owner);
      }
      return false;
    }

    /** A counted failure, and the second record once the budget is spent. */
    method TryOnce(k: Key, a: Answer, budget: nat) returns (o: Outcome)
      modifies tables`rows
      ensures var tried := Tries(k.table, Find(old(tables.rows), k), a.at, budget);
              tables.rows == old(tables.rows)[k := tried.0] && o == tried.1
    {
      var attempts := tables.Record(k, TryCall(a.at));
      if attempts.value >= budget {
        var _ := tables.Record(k, FailCall(a.at));
        return DidFail;
      }
      return StayedPending;
    }

    /** The composition, and the upload of its bytes if there are any. */
    method ComposeAndSend(k: Key, a: Answer) returns (o: Outcome)
      requires k.table == Artwork
      modifies tables`rows
      ensures var sent := Sends(Find(old(tables.rows), k), a);
              tables.rows == old(tables.rows)[k := sent.0] && o == sent.1
    {
      match a.composed {
        case Nothing =>
          var _ := tables.Record(k, SkipCall(a.at));
          return DidSkip;
        case ComposeError =>
          var _ := tables.Record(k, FailCall(a.at));
          return DidFail;
        case Bytes(fingerprint) =>
          if !a.uploadTaken {
            var _ := tables.Record(k, FailCall(a.at));
            return DidFail;
          }
          var _ := tables.Record(k, UploadCall(fingerprint, a.at));
          return DidUpload;
      }
    }

    /** One artwork row, from the server's answers to its record. */
    method Deliver(k: Key, a: Answer, budget: nat) returns (o: Outcome)
      requires k.table == Artwork
      modifies tables`rows
      ensures var done := Delivers(Find(old(tables.rows), k), a, budget);
              tables.rows == old(tables.rows)[k := done.0] && o == done.1
    {
      if !a.configured {
        var _ := tables.Record(k, FailCall(a.at));
        return DidFail;
      }
      if !a.toggleOn {
        var _ := tables.Record(k, SkipCall(a.at));
        return DidSkip;
      }
      if a.resolution == Mismatch {
        var _ := tables.Record(k, FailCall(a.at));
        return DidFail;
      }
      if a.resolution == Missing {
        var _ := tables.Record(k, WaitCall(a.at));
        return StayedPending;
      }
      if a.resolution == Transport {
        o := TryOnce(k, a, budget);
        return;
      }
      if a.identity == Some(Mismatch) {
        var _ := tables.Record(k, FailCall(a.at));
        return DidFail;
      }
      if a.identity == Some(Transport) {
        var _ := tables.Record(k, WaitCall(a.at));
        return StayedPending;
      }
      if a.identity == Some(Missing) {
        var attempts := tables.Record(k, TryCall(a.at));
        if attempts.value < budget {
          return StayedPending;
        }
        // The budget is spent: fall through and send without the overlays.
      }
      o := ComposeAndSend(k, a);
    }

    /** One metadata row; `None` when a server missing a method raised instead. */
    method WriteFacts(k: Key, a: Answer, budget: nat) returns (o: Option<Outcome>)
      requires k.table == Metadata
      modifies tables`rows
      ensures o.None? <==> RaisesMiswired(Metadata, a)
      ensures o.Some? ==>
                var done := Writes(Find(old(tables.rows), k), a, budget);
                tables.rows == old(tables.rows)[k := done.0] && o.value == done.1
    {
      if !a.configured {
        var _ := tables.Record(k, FailCall(a.at));
        return Some(DidFail);
      }
      if !a.operationsOn {
        var _ := tables.Record(k, SkipCall(a.at));
        return Some(DidSkip);
      }
      if !a.toggleOn {
        var _ := tables.Record(k, SkipCall(a.at));
        return Some(DidSkip);
      }
      if a.resolution == Mismatch {
        var _ := tables.Record(k, FailCall(a.at));
        return Some(DidFail);
      }
      if a.resolution == Missing {
        var _ := tables.Record(k, WaitCall(a.at));
        return Some(StayedPending);
      }
      if a.resolution == Transport {
        var tried := TryOnce(k, a, budget);
        return Some(tried);
      }
      match a.applied {
        case Exempt =>
          var _ := tables.Record(k, SkipCall(a.at));
          return Some(DidSkip);
        case Miswired =>
          return None;
        case Rejected =>
          var tried := TryOnce(k, a, budget);
          return Some(tried);
        case Took =>
          var _ := tables.Record(k, WriteCall(a.at));
          return Some(DidWrite);
      }
    }

    /** The body of the `try`: the row's attempt, up to whatever it raises. */
    method AttemptRow(j: Job, budget: nat) returns (raised: bool)
      requires this as object != tables
      modifies this, tables`rows, tables`renders
      ensures raised <==> FaultOf(j.key.table, j.answer) != NoFault
      ensures Counters() ==
              if FaultOf(j.key.table, j.answer) == BeforeOutcome then old(Counters())
              else RetryPass.TallyOutcome(old(Counters()), j.key.server,
                                          Attempt(j.key.table, Find(old(tables.rows), j.key), j.answer, budget).1)
      ensures !raised ==>
                tables.State() == AfterRow(old(tables.State()), j.key,
                                           Attempt(j.key.table, Find(old(tables.rows), j.key), j.answer, budget).0)
    {
      var o: Outcome;
      match j.key.table {
        case Artwork =>
          o := Deliver(j.key, j.answer, budget);
        case Metadata =>
          var wrote := WriteFacts(j.key, j.answer, budget);
          if wrote.None? {
            return true;
          }
          o := wrote.value;
      }
      raised := Conclude(j.key, o, j.answer.fault);
    }

    /** One row: its savepoint, its attempt, and its commit, which puts the
        counters back where they were when it fails. */
    method RunRow(j: Job, budget: nat)
      requires this as object != tables
      modifies this, tables`rows, tables`renders
      ensures tables.State() == RowStep(old(tables.State()), j, budget)
      ensures Counters() == LedgerStep(old(Counters()), j.key.server,
                                       Attempt(j.key.table, Find(old(tables.rows), j.key), j.answer, budget).1,
                                       FaultOf(j.key.table, j.answer), j.answer.commits)
    {
      var name := j.key.server;
      var before := Counters();
      var savedRows, savedRenders := tables.rows, tables.renders;
      TallyDue(name);
      var raised := AttemptRow(j, budget);
      if raised {
        tables.rows, tables.renders := savedRows, savedRenders;
        TallyOutcome(name, StayedPending);
      }
      if !j.answer.commits {
        tables.rows, tables.renders := savedRows, savedRenders;
        uploaded, written, stillPending, perServer := before.uploaded, before.written, before.stillPending, before.perServer;
        TallyDue(name);
        TallyOutcome(name, StayedPending);
      }
    }

    /** The whole pass: both due queries first, then row by row. */
    method RetryPendingDeliveries(server: Option<Server>, run: Option<RunId>, answers: Key -> Answer, now: int, budget: nat)
      returns (jobs: seq<Job>)
      requires this as object != tables && Counters() == NO_LEDGER
      modifies this, tables`rows, tables`renders
      ensures IsBatch(old(tables.rows), server, run, now, KeysOf(jobs))
      ensures tables.State() == Pass(old(tables.State()), jobs, budget)
      ensures Counters() == LedgerOf(old(tables.State()), jobs, budget)
    {
      var due := tables.SelectDue(Artwork, server, run, now);
      var metadataDue := tables.SelectDue(Metadata, server, run, now);
      var keys := due + metadataDue;
      jobs := seq(|keys|, i requires 0 <= i < |keys| => Job(keys[i], answers(keys[i])));
      assert KeysOf(jobs) == due + metadataDue;
      RunRows(jobs, budget);
    }

    method RunRows(jobs: seq<Job>, budget: nat)
      requires this as object != tables && Counters() == NO_LEDGER
      modifies this, tables`rows, tables`renders
      ensures tables.State() == Pass(old(tables.State()), jobs, budget)
      ensures Counters() == LedgerOf(old(tables.State()), jobs, budget)
    {
      ghost var start := tables.State();
      for i := 0 to |jobs|
        invariant tables.State() == Pass(start, jobs[..i], budget)
        invariant Counters() == LedgerOf(start, jobs[..i], budget)
      {
        assert jobs[..i + 1][..i] == jobs[..i];
        RunRow(jobs[i], budget);
      }
      assert jobs[..|jobs|] == jobs;
    }

    /** The two sums of the head sentence. */
    method Totals() returns (failed: nat, skipped: nat)
      ensures failed == Sum(FailedBy(Counters())) && skipped == Sum(SkippedBy(Counters()))
    {
      failed, skipped := 0, 0;
      var left := perServer.Keys;
      ghost var f, s := FailedBy(Counters()), SkippedBy(Counters());
      assert f - left == map[] && s - left == map[];
      while left != {}
        invariant left <= perServer.Keys
        invariant failed == Sum(f - left) && skipped == Sum(s - left)
        decreases |left|
      {
        var n :| n in left;
        SumWithOneMore(f, left, n);
        SumWithOneMore(s, left, n);
        failed, skipped := failed + perServer[n].failed, skipped + perServer[n].skipped;
        left := left - {n};
      }
      assert f - left == f && s - left == s;
    }
  }

  // ----------------------------------------------------------------- the drain

  /** What one run's turn came to. */
  datatype Clause =
    | Waiting
    | FinishedClause(t: Tallies)
    | StoppedClause(t: Tallies)
    | StillDue(t: Tallies)
    | FailedClause

  /** Something outside a row raises: before the batch, or with the batch already
      committed row by row and the drain's own note not. */
  datatype Trouble = NoTrouble | BeforeBatch | AfterBatch

  predicate Ready(r: Run, now: int) {
    r.lastDrainedAt.None? || now - r.lastDrainedAt.value >= r.cadence
  }

  /** What one run's turn does to the tables. */
  ghost predicate Turn(before: Db, after: Db, run: RunId, trouble: Trouble, now: int, budget: nat)
    requires IsOpen(before, run)
  {
    if !Ready(before.runs[run], now) || trouble == BeforeBatch then after == before
    else
      exists jobs: seq<Job> ::
        && Distinct(jobs) && AllDue(before.rows, jobs)
        && IsBatch(before.rows, Some(before.runs[run].server), Some(run), now, KeysOf(jobs))
        && after == if trouble == AfterBatch then Pass(before, jobs, budget) else DrainOnce(before, run, jobs, now, budget)
  }

  /** The drain's own note on its run, and the close when there is one. */
  method CloseBatch(tables: Tables, run: RunId, before: Tallies, beforeSpent: nat, idleRead: nat, now: int) returns (c: Clause)
    requires IsOpen(tables.State(), run)
    modifies tables`runs, tables`rows
    ensures tables.State() == Settle(old(tables.State()), run, before, beforeSpent, idleRead, now)
    ensures var t, closed := CatchUp.RunTallies(old(tables.rows), run), !IsOpen(tables.State(), run);
            c == if !closed then StillDue(t) else if t.due == 0 then FinishedClause(t) else StoppedClause(t)
  {
    var t := tables.RunTallies(run);
    var spent := tables.AttemptsSpent(run);
    var idle := if (t, spent) != (before, beforeSpent) then 0 else idleRead + 1;
    tables.runs := tables.runs[run := tables.runs[run].(lastDrainedAt := Some(now), idleDrains := idle)];
    if t.due == 0 {
      var _ := tables.FinishCatchUp(run, Ok, Finished(t.done, t.failed), Some(t), now);
      c := FinishedClause(t);
    } else if idle >= MAX_IDLE_DRAINS {
      var _ := tables.FinishCatchUp(run, Ok, Stopped(t.due, t.done, t.failed), Some(t), now);
      c := StoppedClause(t);
    } else {
      c := StillDue(t);
    }
  }

  method DrainRun(tables: Tables, run: RunId, answers: Key -> Answer, trouble: Trouble, now: int, budget: nat) returns (c: Clause)
    requires IsOpen(tables.State(), run)
    modifies tables
    ensures Turn(old(tables.State()), tables.State(), run, trouble, now, budget)
    ensures c == Waiting <==> !Ready(old(tables.runs)[run], now)
    ensures c == FailedClause <==> Ready(old(tables.runs)[run], now) && trouble != NoTrouble
    ensures c.FinishedClause? || c.StoppedClause? <==> !IsOpen(tables.State(), run)
  {
    var r := tables.runs[run];
    if r.lastDrainedAt.Some? && now - r.lastDrainedAt.value < r.cadence {
      return Waiting;
    }
    if trouble == BeforeBatch {
      return FailedClause;
    }
    ghost var start := tables.State();
    var before := tables.RunTallies(run);
    var beforeSpent := tables.AttemptsSpent(run);
    var pass := new PassRun(tables);
    var jobs := pass.RetryPendingDeliveries(Some(r.server), Some(run), answers, now, budget);
    JobsAreDue(start.rows, Some(r.server), Some(run), now, jobs);
    assert tables.runs == start.runs;
    if trouble == AfterBatch {
      return FailedClause;
    }
    c := CloseBatch(tables, run, before, beforeSpent, r.idleDrains, now);
    assert tables.State() == DrainOnce(start, run, jobs, now, budget);
  }

  lemma JobsAreDue(rows: Rows, server: Option<Server>, run: Option<RunId>, now: int, jobs: seq<Job>)
    requires IsBatch(rows, server, run, now, KeysOf(jobs))
    ensures Distinct(jobs) && AllDue(rows, jobs)
  {
    BatchIsDue(rows, server, run, now, KeysOf(jobs));
    assert forall i :: 0 <= i < |jobs| ==> KeysOf(jobs)[i] == jobs[i].key;
  }

  /** The runs' turns one after another, each found open by its own turn. */
  ghost predicate Turns(start: Db, end: Db, order: seq<RunId>, trouble: RunId -> Trouble, now: int, budget: nat)
    decreases |order|
  {
    if order == [] then end == start
    else
      var init, last := order[..|order| - 1], order[|order| - 1];
      exists mid: Db ::
        && Turns(start, mid, init, trouble, now, budget)
        && IsOpen(mid, last) && Turn(mid, end, last, trouble(last), now, budget)
  }

  /** Every open run gets its turn, in order, and one run's trouble costs no
      other run its own. */
  method DrainCatchUps(tables: Tables, order: seq<RunId>, answers: Key -> Answer, trouble: RunId -> Trouble, now: int, budget: nat)
    returns (clauses: seq<Clause>)
    requires forall a :: a in order <==> IsOpen(tables.State(), a)
    requires forall i, j :: 0 <= i < j < |order| ==> order[i] < order[j]
    modifies tables
    ensures |clauses| == |order|
    ensures Turns(old(tables.State()), tables.State(), order, trouble, now, budget)
  {
    clauses := [];
    ghost var start := tables.State();
    for i := 0 to |order|
      invariant |clauses| == i
      invariant Turns(start, tables.State(), order[..i], trouble, now, budget)
      invariant forall n :: i <= n < |order| ==> IsOpen(tables.State(), order[n])
    {
      ghost var mid := tables.State();
      var c := DrainRun(tables, order[i], answers, trouble(order[i]), now, budget);
      TurnsStep(start, mid, tables.State(), order, i, trouble, now, budget);
      clauses := clauses + [c];
    }
    assert order[..|order|] == order;
  }

  lemma TurnsStep(start: Db, mid: Db, end: Db, order: seq<RunId>, i: nat, trouble: RunId -> Trouble, now: int, budget: nat)
    requires i < |order| && Turns(start, mid, order[..i], trouble, now, budget)
    requires forall n, m :: 0 <= n < m < |order| ==> order[n] < order[m]
    requires forall n :: i <= n < |order| ==> IsOpen(mid, order[n])
    requires Turn(mid, end, order[i], trouble(order[i]), now, budget)
    ensures Turns(start, end, order[..i + 1], trouble, now, budget)
    ensures forall n :: i < n < |order| ==> IsOpen(end, order[n])
  {
    assert order[..i + 1][..i] == order[..i];
    forall n | i < n < |order|
      ensures IsOpen(end, order[n])
    {
      TurnLeavesOthersOpen(mid, end, order[i], trouble(order[i]), now, budget, order[n]);
    }
  }

  lemma DrainLeavesOthers(db: Db, run: RunId, jobs: seq<Job>, now: int, budget: nat, other: RunId)
    requires IsOpen(db, run) && Distinct(jobs) && AllDue(db.rows, jobs) && other != run
    ensures IsOpen(DrainOnce(db, run, jobs, now, budget), other) <==> IsOpen(db, other)
    ensures IsOpen(Pass(db, jobs, budget), other) <==> IsOpen(db, other)
  {
    var passed := Pass(db, jobs, budget);
    PassMoves(db, jobs, budget);
    SettleTouchesOneRun(passed, run, RunTallies(passed.rows, run), AttemptsSpent(passed.rows, run),
                        RunTallies(db.rows, run), AttemptsSpent(db.rows, run), db.runs[run].idleDrains, now);
  }

  /** Between two batches of a run lies its cadence: drained at `now` and left open,
      it is ready again exactly when that long has passed. */
  lemma ReadyAfterTheCadence(db: Db, run: RunId, jobs: seq<Job>, now: int, budget: nat, later: int)
    requires IsOpen(db, run) && Distinct(jobs) && AllDue(db.rows, jobs)
    ensures var after := DrainOnce(db, run, jobs, now, budget);
            run in after.runs && (Ready(after.runs[run], later) <==> later - now >= db.runs[run].cadence)
  {
    var passed := Pass(db, jobs, budget);
    PassMoves(db, jobs, budget);
    SettleTouchesOneRun(passed, run, RunTallies(passed.rows, run), AttemptsSpent(passed.rows, run),
                        RunTallies(db.rows, run), AttemptsSpent(db.rows, run), db.runs[run].idleDrains, now);
  }

  lemma TurnLeavesOthersOpen(before: Db, after: Db, run: RunId, trouble: Trouble, now: int, budget: nat, other: RunId)
    requires IsOpen(before, run) && Turn(before, after, run, trouble, now, budget)
    requires IsOpen(before, other) && other != run
    ensures IsOpen(after, other)
  {
    if Ready(before.runs[run], now) && trouble != BeforeBatch {
      var jobs: seq<Job> :|
        && Distinct(jobs) && AllDue(before.rows, jobs)
        && IsBatch(before.rows, Some(before.runs[run].server), Some(run), now, KeysOf(jobs))
        && after == if trouble == AfterBatch then Pass(before, jobs, budget) else DrainOnce(before, run, jobs, now, budget);
      DrainLeavesOthers(before, run, jobs, now, budget, other);
    }
  }
}
