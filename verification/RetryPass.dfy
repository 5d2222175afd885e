/** The retry pass over both outcome tables: what one due row becomes for every
    way its servers can answer, and what the pass keeps when rows raise or
    commits fail (`retry_pending_deliveries`). */
module RetryPass {

  import opened Options
  import opened Outcomes
  import opened Database
  import opened Sums

  datatype Resolution = Found | Mismatch | Missing | Transport
  datatype Composed = Nothing | Bytes(fingerprint: Option<string>) | ComposeError
  datatype Applied = Exempt | Took | Rejected | Miswired

  /** Where an unforeseen exception leaves the row: before its outcome was
      tallied, or after (a roll-up that raises, a savepoint that will not release). */
  datatype Fault = NoFault | BeforeOutcome | AfterOutcome

  /** Everything the world can answer about one due row. `identity` is `None`
      when the row's own server is the identity server or the item has no
      identity there; `toggleOn` is the row's library's own upload or write
      switch. */
  datatype Answer = Answer(
    configured: bool,
    operationsOn: bool,
    toggleOn: bool,
    resolution: Resolution,
    identity: Option<Resolution>,
    composed: Composed,
    uploadTaken: bool,
    applied: Applied,
    fault: Fault,
    commits: bool,
    at: int)

  datatype Outcome = DidUpload | DidWrite | StayedPending | DidFail | DidSkip

  function FailCall(at: int): Call { Call(Failed, None, None, true, false, false, false, at) }
  function SkipCall(at: int): Call { Call(Skipped, None, None, true, false, false, false, at) }
  function WriteCall(at: int): Call { Call(Written, None, None, true, false, false, false, at) }

  function UploadCall(fingerprint: Option<string>, at: int): Call {
    Call(Uploaded, None, fingerprint, true, false, false, false, at)
  }

  /** A wait spends no budget; a try does. */
  function WaitCall(at: int): Call { Call(Pending, Some(RETRY_SECONDS), None, false, false, false, false, at) }
  function TryCall(at: int): Call { Call(Pending, Some(RETRY_SECONDS), None, true, false, false, false, at) }

  type Attempted = (Row, Outcome)

  function Fails(table: Table, stored: Option<Row>, at: int): Attempted {
    (Upserted(table, stored, FailCall(at)), DidFail)
  }

  function Skips(table: Table, stored: Option<Row>, at: int): Attempted {
    (Upserted(table, stored, SkipCall(at)), DidSkip)
  }

  function Waits(table: Table, stored: Option<Row>, at: int): Attempted {
    (Upserted(table, stored, WaitCall(at)), StayedPending)
  }

  /** A counted failure: `pending` until the budget is spent, then `failed`. */
  function Tries(table: Table, stored: Option<Row>, at: int, budget: nat): Attempted {
    var row := Upserted(table, stored, TryCall(at));
    if Returned(table, stored, TryCall(at)) >= budget then Fails(table, Some(row), at) else (row, StayedPending)
  }

  function Sends(stored: Option<Row>, a: Answer): Attempted {
    match a.composed
    case Nothing => Skips(Artwork, stored, a.at)
    case ComposeError => Fails(Artwork, stored, a.at)
    case Bytes(fingerprint) =>
      if a.uploadTaken then (Upserted(Artwork, stored, UploadCall(fingerprint, a.at)), DidUpload)
      else Fails(Artwork, stored, a.at)
  }

  /** The identity server does not have the item: a counted wait, until the
      budget is spent and the delivery goes out without its overlays. */
  function SendsWithoutIdentity(stored: Option<Row>, a: Answer, budget: nat): Attempted {
    var row := Upserted(Artwork, stored, TryCall(a.at));
    if Returned(Artwork, stored, TryCall(a.at)) < budget then (row, StayedPending) else Sends(Some(row), a)
  }

  function Delivers(stored: Option<Row>, a: Answer, budget: nat): Attempted {
    if !a.configured then Fails(Artwork, stored, a.at)
    else if !a.toggleOn then Skips(Artwork, stored, a.at)
    else match a.resolution
      case Mismatch => Fails(Artwork, stored, a.at)
      case Missing => Waits(Artwork, stored, a.at)
      case Transport => Tries(Artwork, stored, a.at, budget)
      case Found =>
        match a.identity
        case None => Sends(stored, a)
        case Some(Found) => Sends(stored, a)
        case Some(Mismatch) => Fails(Artwork, stored, a.at)
        case Some(Missing) => SendsWithoutIdentity(stored, a, budget)
        case Some(Transport) => Waits(Artwork, stored, a.at)
  }

  function Writes(stored: Option<Row>, a: Answer, budget: nat): Attempted {
    if !a.configured then Fails(Metadata, stored, a.at)
    else if !a.operationsOn || !a.toggleOn then Skips(Metadata, stored, a.at)
    else match a.resolution
      case Mismatch => Fails(Metadata, stored, a.at)
      case Missing => Waits(Metadata, stored, a.at)
      case Transport => Tries(Metadata, stored, a.at, budget)
      case Found =>
        match a.applied
        case Exempt => Skips(Metadata, stored, a.at)
        case Took => (Upserted(Metadata, stored, WriteCall(a.at)), DidWrite)
        case Rejected => Tries(Metadata, stored, a.at, budget)
        case Miswired => Waits(Metadata, stored, a.at)  // never recorded: `FaultOf` says it raises
  }

  function Attempt(table: Table, stored: Option<Row>, a: Answer, budget: nat): Attempted {
    match table
    case Artwork => Delivers(stored, a, budget)
    case Metadata => Writes(stored, a, budget)
  }

  /** A server missing a method is a wiring bug and raises out of the row. */
  predicate RaisesMiswired(table: Table, a: Answer) {
    && table == Metadata && a.configured && a.operationsOn && a.toggleOn
    && a.resolution == Found && a.applied == Miswired
  }

  function FaultOf(table: Table, a: Answer): Fault {
    if RaisesMiswired(table, a) then BeforeOutcome else a.fault
  }

  /** The row's outcome is durable: nothing raised, and its commit landed. */
  predicate Lands(table: Table, a: Answer) {
    FaultOf(table, a) == NoFault && a.commits
  }

  ghost function AfterRow(db: Db, k: Key, row: Row): Db {
    var written := db.(rows := db.rows[k := row]);
    if k.table == Artwork then Rollup(written, k.owner) else written
  }

  datatype Job = Job(key: Key, answer: Answer)

  ghost function RowStep(db: Db, j: Job, budget: nat): Db {
    if Lands(j.key.table, j.answer)
    then AfterRow(db, j.key, Attempt(j.key.table, Find(db.rows, j.key), j.answer, budget).0)
    else db
  }

  ghost function Pass(db: Db, jobs: seq<Job>, budget: nat): Db {
    if jobs == [] then db
    else RowStep(Pass(db, jobs[..|jobs| - 1], budget), jobs[|jobs| - 1], budget)
  }

  /** A row that raises anywhere, or whose commit fails, leaves the database as it was;
      any other leaves its attempt, and no other row is written. */
  lemma OnlyACommitLands(db: Db, j: Job, budget: nat)
    ensures !j.answer.commits || j.answer.fault != NoFault || RaisesMiswired(j.key.table, j.answer) ==>
              RowStep(db, j, budget) == db
    ensures j.answer.commits && j.answer.fault == NoFault && !RaisesMiswired(j.key.table, j.answer) ==>
              RowStep(db, j, budget).rows ==
              db.rows[j.key := Attempt(j.key.table, Find(db.rows, j.key), j.answer, budget).0]
  {
  }

  // ---------------------------------------------------------------- isolation

  function Landing(jobs: seq<Job>): seq<Job> {
    if jobs == [] then []
    else
      var last := jobs[|jobs| - 1];
      Landing(jobs[..|jobs| - 1]) + (if Lands(last.key.table, last.answer) then [last] else [])
  }

  /** Rows that raise, or whose commit fails, might as well not have been
      taken: the database is the one the other rows alone would have left. */
  lemma {:induction false} FailureIsIsolated(db: Db, jobs: seq<Job>, budget: nat)
    ensures Pass(db, jobs, budget) == Pass(db, Landing(jobs), budget)
  {
    if jobs != [] {
      var init, last := jobs[..|jobs| - 1], jobs[|jobs| - 1];
      FailureIsIsolated(db, init, budget);
      if Lands(last.key.table, last.answer) {
        assert Landing(jobs)[..|Landing(jobs)| - 1] == Landing(init);
      } else {
        assert Landing(jobs) == Landing(init);
      }
    }
  }

  lemma PassSnoc(db: Db, jobs: seq<Job>, j: Job, budget: nat)
    ensures Pass(db, jobs + [j], budget) == RowStep(Pass(db, jobs, budget), j, budget)
  {
    assert (jobs + [j])[..|jobs|] == jobs;
  }

  /** A row's failure is its own: dropping it from the middle of a pass changes
      nothing for the rows before or behind it. */
  lemma {:induction false} DroppingAFailedRowChangesNothing(db: Db, before: seq<Job>, failed: Job, behind: seq<Job>, budget: nat)
    requires !Lands(failed.key.table, failed.answer)
    ensures Pass(db, before + [failed] + behind, budget) == Pass(db, before + behind, budget)
  {
    if behind == [] {
      assert before + [failed] + behind == before + [failed];
      assert before + behind == before;
      PassSnoc(db, before, failed, budget);
    } else {
      var init, last := behind[..|behind| - 1], behind[|behind| - 1];
      DroppingAFailedRowChangesNothing(db, before, failed, init, budget);
      assert before + [failed] + behind == (before + [failed] + init) + [last];
      assert before + behind == (before + init) + [last];
      PassSnoc(db, before + [failed] + init, last, budget);
      PassSnoc(db, before + init, last, budget);
    }
  }

  // -------------------------------------------------------------- one row moves

  /** What an attempt can do to a pending row: settle it, fail it, or leave it
      pending with the budget untouched or raised short of its limit. Its scope
      and what was delivered before are kept. */
  ghost predicate Moves(before: Row, after: Row, budget: nat) {
    && after.runId == before.runId && after.previous == before.previous
    && (before.status != Pending ==> after == before)
    && (after.status == Pending ==>
          && (after.nextAttemptAt.Some? || after == before)
          && (after.attempts == before.attempts || before.attempts < after.attempts < budget))
    && (after.status == Absent ==> after == before)
    && (after.status == Pending ==> after.terminalAt == before.terminalAt)
    && (before.terminalAt.Some? ==> after.terminalAt.Some?)
    && (before.fingerprint.Some? ==> after.fingerprint.Some?)
  }

  lemma CallMoves(table: Table, r: Row, c: Call, budget: nat)
    requires r.status == Pending && c.status != Absent
    requires !c.leaveRun && !c.keepNextAttempt && !c.resetAttempts
    requires c.status == Pending ==> !c.countAttempt && c.retryIn.Some?
    ensures Moves(r, Upserted(table, Some(r), c), budget)
  {
  }

  lemma TriesMoves(table: Table, r: Row, at: int, budget: nat)
    requires r.status == Pending
    ensures Moves(r, Tries(table, Some(r), at, budget).0, budget)
  {
  }

  lemma SendsMoves(r: Row, a: Answer, budget: nat)
    requires r.status == Pending
    ensures Moves(r, Sends(Some(r), a).0, budget)
    ensures Sends(Some(r), a).0.status in {Failed, Skipped, Uploaded}
  {
  }

  lemma SendsWithoutIdentityMoves(r: Row, a: Answer, budget: nat)
    requires r.status == Pending
    ensures Moves(r, SendsWithoutIdentity(Some(r), a, budget).0, budget)
  {
    var row := Upserted(Artwork, Some(r), TryCall(a.at));
    SendsMoves(row, a, budget);
  }

  lemma AttemptMoves(table: Table, r: Row, a: Answer, budget: nat)
    requires r.status == Pending
    ensures Moves(r, Attempt(table, Some(r), a, budget).0, budget)
  {
    CallMoves(table, r, FailCall(a.at), budget);
    CallMoves(table, r, SkipCall(a.at), budget);
    CallMoves(table, r, WaitCall(a.at), budget);
    CallMoves(table, r, WriteCall(a.at), budget);
    TriesMoves(table, r, a.at, budget);
    SendsMoves(r, a, budget);
    SendsWithoutIdentityMoves(r, a, budget);
  }

  /** This attempt is the one that spends the last of the row's budget. */
  predicate Spends(r: Row, budget: nat) {
    r.attempts + 1 >= budget
  }

  /** The server and its own switches let the row through. */
  predicate LetThrough(table: Table, a: Answer) {
    a.configured && a.toggleOn && (table == Metadata ==> a.operationsOn)
  }

  /** The server has the item, and so has the identity server if there is one to
      ask -- or it has been waited for long enough. */
  predicate Composes(r: Row, a: Answer, budget: nat) {
    && LetThrough(Artwork, a) && a.resolution == Found
    && (a.identity.None? || a.identity == Some(Found) || (a.identity == Some(Missing) && Spends(r, budget)))
  }

  /** What an artwork attempt comes to, word by word, for every answer. */
  lemma ArtworkOutcomeIff(r: Row, a: Answer, budget: nat)
    requires r.status == Pending
    ensures var (after, _) := Attempt(Artwork, Some(r), a, budget);
            && (after.status == Uploaded <==> Composes(r, a, budget) && a.composed.Bytes? && a.uploadTaken)
            && (after.status == Skipped <==>
                  a.configured && (!a.toggleOn || (Composes(r, a, budget) && a.composed.Nothing?)))
            && (after.status == Failed <==>
                  || !a.configured
                  || (LetThrough(Artwork, a) && a.resolution == Mismatch)
                  || (LetThrough(Artwork, a) && a.resolution == Transport && Spends(r, budget))
                  || (LetThrough(Artwork, a) && a.resolution == Found && a.identity == Some(Mismatch))
                  || (Composes(r, a, budget) && (a.composed.ComposeError? || (a.composed.Bytes? && !a.uploadTaken))))
            && (after.status == Pending <==>
                  && LetThrough(Artwork, a)
                  && (|| a.resolution == Missing
                      || (a.resolution == Transport && !Spends(r, budget))
                      || (a.resolution == Found && a.identity == Some(Transport))
                      || (a.resolution == Found && a.identity == Some(Missing) && !Spends(r, budget))))
  {
  }

  /** What a metadata attempt comes to, word by word, for every answer that does not
      raise out of the row. */
  lemma MetadataOutcomeIff(r: Row, a: Answer, budget: nat)
    requires r.status == Pending && !RaisesMiswired(Metadata, a)
    ensures var (after, _) := Attempt(Metadata, Some(r), a, budget);
            && (after.status == Written <==> LetThrough(Metadata, a) && a.resolution == Found && a.applied == Took)
            && (after.status == Skipped <==>
                  || (a.configured && (!a.operationsOn || !a.toggleOn))
                  || (LetThrough(Metadata, a) && a.resolution == Found && a.applied == Exempt))
            && (after.status == Failed <==>
                  || !a.configured
                  || (LetThrough(Metadata, a) && a.resolution == Mismatch)
                  || (LetThrough(Metadata, a) && a.resolution == Transport && Spends(r, budget))
                  || (LetThrough(Metadata, a) && a.resolution == Found && a.applied == Rejected && Spends(r, budget)))
            && (after.status == Pending <==>
                  && LetThrough(Metadata, a)
                  && (|| a.resolution == Missing
                      || (a.resolution == Transport && !Spends(r, budget))
                      || (a.resolution == Found && a.applied == Rejected && !Spends(r, budget))))
  {
  }

  /** The word recorded and the word counted are one. */
  function WordOf(o: Outcome): Status {
    match o
    case DidUpload => Uploaded
    case DidWrite => Written
    case StayedPending => Pending
    case DidFail => Failed
    case DidSkip => Skipped
  }

  /** The rest of the row after an attempt: a delivery is stamped with the attempt's
      instant and, for artwork, the fingerprint that was composed, a wait is six hours
      long, and the budget is spent by a failed try alone. */
  lemma AttemptLeaves(table: Table, r: Row, a: Answer, budget: nat)
    requires r.status == Pending && !RaisesMiswired(table, a)
    ensures var (after, o) := Attempt(table, Some(r), a, budget);
            && after.status == WordOf(o)
            && after.attemptedAt == Some(a.at)
            && after.nextAttemptAt == (if after.status == Pending then Some(a.at + 21600) else None)
            && after.terminalAt == (if after.status in {Uploaded, Written} then Some(a.at) else r.terminalAt)
            && after.fingerprint == (if after.status == Uploaded && a.composed.fingerprint.Some?
                                     then a.composed.fingerprint else r.fingerprint)
            && (after.status in {Uploaded, Written, Skipped} ==> after.attempts == 0)
            && (after.status == Pending ==>
                  after.attempts == r.attempts + if a.resolution == Missing || (a.resolution == Found && table == Artwork && a.identity == Some(Transport)) then 0 else 1)
            && (after.status == Failed ==>
                  after.attempts == r.attempts +
                    if LetThrough(table, a)
                       && (|| a.resolution == Transport
                           || (a.resolution == Found && table == Artwork && a.identity == Some(Missing))
                           || (a.resolution == Found && table == Metadata))
                    then 2 else 1)
  {
    if table == Artwork {
      ArtworkOutcomeIff(r, a, budget);
    } else {
      MetadataOutcomeIff(r, a, budget);
    }
  }

  /** Nothing a pass records is written over an absent row. */
  lemma AttemptLeavesAbsent(table: Table, r: Row, a: Answer, budget: nat)
    requires r.status == Absent
    ensures Attempt(table, Some(r), a, budget).0 == r
  {
  }

  ghost predicate Distinct(jobs: seq<Job>) {
    forall i, j :: 0 <= i < j < |jobs| ==> jobs[i].key != jobs[j].key
  }

  ghost predicate AllDue(rows: Rows, jobs: seq<Job>) {
    forall i :: 0 <= i < |jobs| ==> jobs[i].key in rows && rows[jobs[i].key].status == Pending
  }

  lemma RowStepMoves(db: Db, j: Job, budget: nat)
    requires j.key in db.rows && db.rows[j.key].status == Pending
    ensures var after := RowStep(db, j, budget);
            && after.rows.Keys == db.rows.Keys
            && after.runs == db.runs && after.items == db.items
            && after.renders.Keys == db.renders.Keys
            && Moves(db.rows[j.key], after.rows[j.key], budget)
            && (forall k :: k in db.rows && k != j.key ==> after.rows[k] == db.rows[k])
  {
    AttemptMoves(j.key.table, db.rows[j.key], j.answer, budget);
    assert Find(db.rows, j.key) == Some(db.rows[j.key]);
  }

  /** A pass moves the rows it took, each by one attempt, and no other row. */
  lemma {:induction false} PassMoves(db: Db, jobs: seq<Job>, budget: nat)
    requires Distinct(jobs) && AllDue(db.rows, jobs)
    ensures var after := Pass(db, jobs, budget);
            && after.rows.Keys == db.rows.Keys
            && after.runs == db.runs && after.items == db.items
            && after.renders.Keys == db.renders.Keys
            && (forall k :: k in db.rows ==> Moves(db.rows[k], after.rows[k], budget))
            && (forall k :: k in db.rows && (forall i :: 0 <= i < |jobs| ==> jobs[i].key != k) ==>
                              after.rows[k] == db.rows[k])
  {
    if jobs != [] {
      var n := |jobs| - 1;
      var init, last := jobs[..n], jobs[n];
      assert forall i :: 0 <= i < n ==> init[i] == jobs[i];
      PassMoves(db, init, budget);
      RowStepMoves(Pass(db, init, budget), last, budget);
      forall k | k in db.rows && (forall i :: 0 <= i < |jobs| ==> jobs[i].key != k)
        ensures k != last.key && forall i :: 0 <= i < n ==> init[i].key != k
      {
        assert jobs[n].key != k;
      }
    }
  }

  /** Every cached column is right after a pass, whichever rows raised or
      failed to commit. */
  lemma {:induction false} PassAgrees(db: Db, jobs: seq<Job>, budget: nat)
    requires AllAgree(db)
    ensures AllAgree(Pass(db, jobs, budget))
  {
    if jobs != [] {
      var mid := Pass(db, jobs[..|jobs| - 1], budget);
      PassAgrees(db, jobs[..|jobs| - 1], budget);
      RowStepAgrees(mid, jobs[|jobs| - 1], budget);
    }
  }

  lemma AfterRowAgrees(db: Db, k: Key, row: Row)
    requires AllAgree(db)
    ensures AllAgree(AfterRow(db, k, row))
  {
    var written := db.(rows := db.rows[k := row]);
    if k.table == Artwork {
      RollupAgrees(db, written, k.owner);
    } else {
      forall r | r in db.renders
        ensures Agrees(written.rows, written.renders, r)
      {
        assert Agrees(db.rows, db.renders, r);
        SameArtSameFold(db.rows, written.rows, r);
      }
    }
  }

  lemma RowStepAgrees(db: Db, j: Job, budget: nat)
    requires AllAgree(db)
    ensures AllAgree(RowStep(db, j, budget))
  {
    AfterRowAgrees(db, j.key, Attempt(j.key.table, Find(db.rows, j.key), j.answer, budget).0);
  }

  // ------------------------------------------------------------------- budgets

  /** A row that stays pending is below its budget, if it was when it was armed. */
  lemma PendingStaysBelowBudget(table: Table, r: Row, a: Answer, budget: nat)
    requires r.status == Pending && r.attempts < budget
    ensures var after := Attempt(table, Some(r), a, budget).0;
            after.status == Pending ==> after.attempts < budget
  {
    AttemptMoves(table, r, a, budget);
  }

  /** A row over many passes; a pass selects it while it is pending. */
  function Passes(table: Table, r: Row, answers: seq<Answer>, budget: nat): Row {
    if answers == [] then r
    else
      var before := Passes(table, r, answers[..|answers| - 1], budget);
      if before.status == Pending && Lands(table, answers[|answers| - 1])
      then Attempt(table, Some(before), answers[|answers| - 1], budget).0
      else before
  }

  /** Over any number of passes, however its servers answer, a row armed below its
      budget is never pending at or above it; one armed at zero needs only that
      there is a budget. */
  lemma {:induction false} ArmedStaysBelowBudget(table: Table, r: Row, answers: seq<Answer>, budget: nat)
    requires r.status == Pending ==> r.attempts < budget
    ensures var after := Passes(table, r, answers, budget);
            after.status == Pending ==> after.attempts < budget
  {
    if answers != [] {
      var init, last := answers[..|answers| - 1], answers[|answers| - 1];
      ArmedStaysBelowBudget(table, r, init, budget);
      var before := Passes(table, r, init, budget);
      if before.status == Pending {
        PendingStaysBelowBudget(table, before, last, budget);
      }
    }
  }

  /** The row's server is asked at all, and the row's outcome lands. */
  predicate Asked(table: Table, a: Answer) {
    a.configured && a.toggleOn && (table == Metadata ==> a.operationsOn) && Lands(table, a)
  }

  /** A server that is down costs one attempt a pass, and the row fails at
      exactly the pass that spends the last of its budget. */
  lemma {:induction false} TransportFailsAtExactlyTheBudget(table: Table, r: Row, answers: seq<Answer>, budget: nat)
    requires budget >= 1 && r.status == Pending && r.attempts == 0
    requires forall i :: 0 <= i < |answers| ==> Asked(table, answers[i]) && answers[i].resolution == Transport
    ensures var after := Passes(table, r, answers, budget);
            if |answers| < budget
            then after.status == Pending && after.attempts == |answers|
            else after.status == Failed && after.attempts == budget + 1
  {
    if answers != [] {
      TransportFailsAtExactlyTheBudget(table, r, answers[..|answers| - 1], budget);
    }
  }

  /** A server that has not scanned the file yet costs nothing, however long. */
  lemma {:induction false} MissesNeverFail(table: Table, r: Row, answers: seq<Answer>, budget: nat)
    requires r.status == Pending
    requires forall i :: 0 <= i < |answers| ==> Asked(table, answers[i]) && answers[i].resolution == Missing
    ensures var after := Passes(table, r, answers, budget);
            after.status == Pending && after.attempts == r.attempts
  {
    if answers != [] {
      MissesNeverFail(table, r, answers[..|answers| - 1], budget);
    }
  }

  /** A stale identity delays a delivery by its budget and no longer: the pass
      that spends the last of it sends without the overlays. */
  lemma {:induction false} IdentityMissesDeliverAtTheBudget(r: Row, answers: seq<Answer>, budget: nat)
    requires budget >= 1 && r.status == Pending && r.attempts == 0
    requires forall i :: 0 <= i < |answers| ==>
                          && Asked(Artwork, answers[i]) && answers[i].resolution == Found
                          && answers[i].identity == Some(Missing)
                          && answers[i].composed.Bytes? && answers[i].uploadTaken
    ensures var after := Passes(Artwork, r, answers, budget);
            if |answers| < budget
            then after.status == Pending && after.attempts == |answers|
            else after.status == Uploaded && after.attempts == 0 && after.terminalAt == Some(answers[budget - 1].at)
  {
    if answers != [] {
      var init := answers[..|answers| - 1];
      IdentityMissesDeliverAtTheBudget(r, init, budget);
    }
  }

  // ---------------------------------------------------------------- the ledger

  datatype Count = Count(due: nat, uploaded: nat, written: nat, pending: nat, failed: nat, skipped: nat)

  const NO_COUNT := Count(0, 0, 0, 0, 0, 0)

  /** The pass's own counters: three totals, and six per server. */
  datatype Ledger = Ledger(uploaded: nat, written: nat, stillPending: nat, perServer: map<Server, Count>)

  const NO_LEDGER := Ledger(0, 0, 0, map[])

  function CountAt(l: Ledger, server: Server): Count {
    if server in l.perServer then l.perServer[server] else NO_COUNT
  }

  function TallyDue(l: Ledger, server: Server): Ledger {
    var c := CountAt(l, server);
    l.(perServer := l.perServer[server := c.(due := c.due + 1)])
  }

  function Bump(c: Count, o: Outcome): Count {
    match o
    case DidUpload => c.(uploaded := c.uploaded + 1)
    case DidWrite => c.(written := c.written + 1)
    case StayedPending => c.(pending := c.pending + 1)
    case DidFail => c.(failed := c.failed + 1)
    case DidSkip => c.(skipped := c.skipped + 1)
  }

  function TallyOutcome(l: Ledger, server: Server, o: Outcome): Ledger {
    Ledger(if o == DidUpload then l.uploaded + 1 else l.uploaded,
           if o == DidWrite then l.written + 1 else l.written,
           if o == StayedPending then l.stillPending + 1 else l.stillPending,
           l.perServer[server := Bump(CountAt(l, server), o)])
  }

  /** One row's clause: a failed commit and a row that raised both read `pending`. */
  function LedgerStep(l: Ledger, server: Server, o: Outcome, fault: Fault, commits: bool): Ledger {
    var due := TallyDue(l, server);
    if !commits || fault == BeforeOutcome then TallyOutcome(due, server, StayedPending)
    else if fault == AfterOutcome then TallyOutcome(TallyOutcome(due, server, o), server, StayedPending)
    else TallyOutcome(due, server, o)
  }

  ghost function LedgerOf(db: Db, jobs: seq<Job>, budget: nat): Ledger {
    if jobs == [] then NO_LEDGER
    else
      var init, last := jobs[..|jobs| - 1], jobs[|jobs| - 1];
      var now := Pass(db, init, budget);
      LedgerStep(LedgerOf(db, init, budget), last.key.server,
                 Attempt(last.key.table, Find(now.rows, last.key), last.answer, budget).1,
                 FaultOf(last.key.table, last.answer), last.answer.commits)
  }

  /** The row was tallied twice: its outcome, and then `pending` because
      something raised after it. */
  predicate CountedTwice(j: Job) {
    FaultOf(j.key.table, j.answer) == AfterOutcome && j.answer.commits
  }

  function Twice(jobs: seq<Job>): nat {
    CountIf(jobs, (j: Job) => CountedTwice(j))
  }

  function TwiceOn(jobs: seq<Job>, server: Server): nat {
    CountIf(jobs, (j: Job) => CountedTwice(j) && j.key.server == server)
  }

  function JobsOn(jobs: seq<Job>, server: Server): nat {
    CountIf(jobs, (j: Job) => j.key.server == server)
  }

  function Outcomes5(c: Count): nat {
    c.uploaded + c.written + c.pending + c.failed + c.skipped
  }

  lemma BumpAddsOne(c: Count, o: Outcome)
    ensures Outcomes5(Bump(c, o)) == Outcomes5(c) + 1 && Bump(c, o).due == c.due
  {
  }

  lemma TallyDueAt(l: Ledger, on: Server, server: Server)
    ensures CountAt(TallyDue(l, on), server) ==
            if on == server then CountAt(l, server).(due := CountAt(l, server).due + 1) else CountAt(l, server)
  {
  }

  lemma TallyOutcomeAt(l: Ledger, on: Server, o: Outcome, server: Server)
    ensures CountAt(TallyOutcome(l, on, o), server) ==
            if on == server then Bump(CountAt(l, server), o) else CountAt(l, server)
  {
  }

  /** A row adds one to `due` and one outcome, or two when it was tallied twice. */
  predicate Adds(before: Count, after: Count, rows: nat, extra: nat) {
    after.due == before.due + rows && Outcomes5(after) == Outcomes5(before) + rows + extra
  }

  lemma LedgerStepElsewhere(l: Ledger, on: Server, o: Outcome, fault: Fault, commits: bool, server: Server)
    requires on != server
    ensures CountAt(LedgerStep(l, on, o, fault, commits), server) == CountAt(l, server)
  {
    var due := TallyDue(l, on);
    TallyDueAt(l, on, server);
    TallyOutcomeAt(due, on, StayedPending, server);
    TallyOutcomeAt(due, on, o, server);
    TallyOutcomeAt(TallyOutcome(due, on, o), on, StayedPending, server);
  }

  lemma LedgerStepHere(l: Ledger, on: Server, o: Outcome, fault: Fault, commits: bool)
    ensures Adds(CountAt(l, on), CountAt(LedgerStep(l, on, o, fault, commits), on), 1,
                 if fault == AfterOutcome && commits then 1 else 0)
  {
    var due := TallyDue(l, on);
    TallyDueAt(l, on, on);
    var c := CountAt(due, on);
    if !commits || fault == BeforeOutcome {
      TallyOutcomeAt(due, on, StayedPending, on);
      BumpAddsOne(c, StayedPending);
    } else {
      TallyOutcomeAt(due, on, o, on);
      BumpAddsOne(c, o);
      if fault == AfterOutcome {
        TallyOutcomeAt(TallyOutcome(due, on, o), on, StayedPending, on);
        BumpAddsOne(Bump(c, o), StayedPending);
      }
    }
  }

  lemma LedgerStepCounts(l: Ledger, on: Server, o: Outcome, fault: Fault, commits: bool, server: Server)
    ensures Adds(CountAt(l, server), CountAt(LedgerStep(l, on, o, fault, commits), server),
                 if on == server then 1 else 0,
                 if on == server && fault == AfterOutcome && commits then 1 else 0)
  {
    if on == server {
      LedgerStepHere(l, on, o, fault, commits);
    } else {
      LedgerStepElsewhere(l, on, o, fault, commits, server);
    }
  }

  lemma TwiceOnStep(init: seq<Job>, last: Job, server: Server)
    ensures JobsOn(init + [last], server) == JobsOn(init, server) + (if last.key.server == server then 1 else 0)
    ensures TwiceOn(init + [last], server) ==
            TwiceOn(init, server) + (if CountedTwice(last) && last.key.server == server then 1 else 0)
  {
    assert (init + [last])[..|init|] == init;
  }

  lemma {:induction false} LedgerCounts(db: Db, jobs: seq<Job>, budget: nat, server: Server)
    ensures var c := CountAt(LedgerOf(db, jobs, budget), server);
            c.due == JobsOn(jobs, server) && Outcomes5(c) == c.due + TwiceOn(jobs, server)
  {
    if jobs != [] {
      var init, last := jobs[..|jobs| - 1], jobs[|jobs| - 1];
      var o := Attempt(last.key.table, Find(Pass(db, init, budget).rows, last.key), last.answer, budget).1;
      var fault := FaultOf(last.key.table, last.answer);
      assert jobs == init + [last];
      LedgerCounts(db, init, budget, server);
      TwiceOnStep(init, last, server);
      LedgerStepCounts(LedgerOf(db, init, budget), last.key.server, o, fault, last.answer.commits, server);
      assert LedgerOf(db, jobs, budget) ==
             LedgerStep(LedgerOf(db, init, budget), last.key.server, o, fault, last.answer.commits);
    }
  }

  /** Per server, `due` is the rows looked at and the five outcomes add up to
      it, over by exactly the rows counted twice: they balance if and only if
      nothing raised after a row's outcome and then committed. */
  lemma LedgerBalances(db: Db, jobs: seq<Job>, budget: nat, server: Server)
    ensures var c := CountAt(LedgerOf(db, jobs, budget), server);
            && c.due == JobsOn(jobs, server)
            && Outcomes5(c) == c.due + TwiceOn(jobs, server)
            && (Outcomes5(c) == c.due <==>
                  forall i :: 0 <= i < |jobs| && jobs[i].key.server == server ==> !CountedTwice(jobs[i]))
  {
    LedgerCounts(db, jobs, budget, server);
    CountIfZero(jobs, (j: Job) => CountedTwice(j) && j.key.server == server);
  }

  /** One thing the pass says it did for a row of a server. */
  datatype Report = Report(server: Server, outcome: Outcome)

  /** What is said of one row: its outcome, but `pending` when its commit failed or it
      raised before it had one, and `pending` as well when it raised after. */
  function ReportsOf(server: Server, o: Outcome, fault: Fault, commits: bool): seq<Report> {
    if !commits || fault == BeforeOutcome then [Report(server, StayedPending)]
    else if fault == AfterOutcome then [Report(server, o), Report(server, StayedPending)]
    else [Report(server, o)]
  }

  ghost function Reports(db: Db, jobs: seq<Job>, budget: nat): seq<Report> {
    if jobs == [] then []
    else
      var init, last := jobs[..|jobs| - 1], jobs[|jobs| - 1];
      Reports(db, init, budget)
      + ReportsOf(last.key.server, Attempt(last.key.table, Find(Pass(db, init, budget).rows, last.key), last.answer, budget).1,
                  FaultOf(last.key.table, last.answer), last.answer.commits)
  }

  function Said(reports: seq<Report>, server: Server, o: Outcome): nat {
    CountIf(reports, (r: Report) => r == Report(server, o))
  }

  function SaidAnywhere(reports: seq<Report>, o: Outcome): nat {
    CountIf(reports, (r: Report) => r.outcome == o)
  }

  function CounterOf(c: Count, o: Outcome): nat {
    match o
    case DidUpload => c.uploaded
    case DidWrite => c.written
    case StayedPending => c.pending
    case DidFail => c.failed
    case DidSkip => c.skipped
  }

  /** The ledger and the reports agree, counter by counter. */
  ghost predicate Accounts(l: Ledger, reports: seq<Report>, server: Server) {
    && (forall o :: CounterOf(CountAt(l, server), o) == Said(reports, server, o))
    && l.uploaded == SaidAnywhere(reports, DidUpload)
    && l.written == SaidAnywhere(reports, DidWrite)
    && l.stillPending == SaidAnywhere(reports, StayedPending)
  }

  lemma SaidSnoc(reports: seq<Report>, r: Report, server: Server, o: Outcome)
    ensures Said(reports + [r], server, o) == Said(reports, server, o) + if r == Report(server, o) then 1 else 0
    ensures SaidAnywhere(reports + [r], o) == SaidAnywhere(reports, o) + if r.outcome == o then 1 else 0
  {
    assert (reports + [r])[..|reports|] == reports;
  }

  lemma TallyAccounts(l: Ledger, reports: seq<Report>, on: Server, o: Outcome, server: Server)
    requires Accounts(l, reports, server)
    ensures Accounts(TallyOutcome(l, on, o), reports + [Report(on, o)], server)
  {
    TallyOutcomeAt(l, on, o, server);
    forall p {
      SaidSnoc(reports, Report(on, o), server, p);
    }
    SaidSnoc(reports, Report(on, o), server, DidUpload);
    SaidSnoc(reports, Report(on, o), server, DidWrite);
    SaidSnoc(reports, Report(on, o), server, StayedPending);
  }

  lemma TallyDueAccounts(l: Ledger, reports: seq<Report>, on: Server, server: Server)
    requires Accounts(l, reports, server)
    ensures Accounts(TallyDue(l, on), reports, server)
  {
    TallyDueAt(l, on, server);
  }

  /** Every counter of the pass, per server and in all, counts exactly what was said of
      the rows under its word. */
  lemma {:induction false} LedgerAccounts(db: Db, jobs: seq<Job>, budget: nat, server: Server)
    ensures Accounts(LedgerOf(db, jobs, budget), Reports(db, jobs, budget), server)
  {
    if jobs != [] {
      var init, last := jobs[..|jobs| - 1], jobs[|jobs| - 1];
      LedgerAccounts(db, init, budget, server);
      var o := Attempt(last.key.table, Find(Pass(db, init, budget).rows, last.key), last.answer, budget).1;
      StepAccounts(LedgerOf(db, init, budget), Reports(db, init, budget), last.key.server, o,
                   FaultOf(last.key.table, last.answer), last.answer.commits, server);
    }
  }

  lemma StepAccounts(l: Ledger, reports: seq<Report>, on: Server, o: Outcome, fault: Fault, commits: bool, server: Server)
    requires Accounts(l, reports, server)
    ensures Accounts(LedgerStep(l, on, o, fault, commits), reports + ReportsOf(on, o, fault, commits), server)
  {
    var due := TallyDue(l, on);
    TallyDueAccounts(l, reports, on, server);
    if !commits || fault == BeforeOutcome {
      TallyAccounts(due, reports, on, StayedPending, server);
    } else {
      TallyAccounts(due, reports, on, o, server);
      if fault == AfterOutcome {
        TallyAccounts(TallyOutcome(due, on, o), reports + [Report(on, o)], on, StayedPending, server);
        assert reports + [Report(on, o)] + [Report(on, StayedPending)] == reports + [Report(on, o), Report(on, StayedPending)];
      }
    }
  }

  function FailedBy(l: Ledger): map<Server, nat> { map n | n in l.perServer :: l.perServer[n].failed }
  function SkippedBy(l: Ledger): map<Server, nat> { map n | n in l.perServer :: l.perServer[n].skipped }

  lemma TallySums(l: Ledger, server: Server, c: Count)
    ensures var after := l.(perServer := l.perServer[server := c]);
            && Sum(FailedBy(after)) == Sum(FailedBy(l)) - CountAt(l, server).failed + c.failed
            && Sum(SkippedBy(after)) == Sum(SkippedBy(l)) - CountAt(l, server).skipped + c.skipped
  {
    var after := l.(perServer := l.perServer[server := c]);
    SumAdd(FailedBy(l), server, c.failed);
    SumAdd(SkippedBy(l), server, c.skipped);
    assert FailedBy(after) == FailedBy(l)[server := c.failed];
    assert SkippedBy(after) == SkippedBy(l)[server := c.skipped];
  }

  /** The head of the sentence: done, still pending, failed and skipped. */
  ghost function Head(l: Ledger): nat {
    l.uploaded + l.written + l.stillPending + Sum(FailedBy(l)) + Sum(SkippedBy(l))
  }

  lemma TallyOutcomeAddsOne(l: Ledger, server: Server, o: Outcome)
    ensures Head(TallyOutcome(l, server, o)) == Head(l) + 1
  {
    var c := CountAt(l, server);
    var t := TallyOutcome(l, server, o);
    TallySums(l, server, t.perServer[server]);
    assert FailedBy(t) == FailedBy(l.(perServer := t.perServer));
    assert SkippedBy(t) == SkippedBy(l.(perServer := t.perServer));
  }

  lemma TallyDueAddsNone(l: Ledger, server: Server)
    ensures Head(TallyDue(l, server)) == Head(l)
  {
    TallySums(l, server, TallyDue(l, server).perServer[server]);
  }

  /** The head sentence adds up to the rows selected, over by the rows counted
      twice, whatever raised and whatever failed to commit. */
  lemma {:induction false} HeadAddsUp(db: Db, jobs: seq<Job>, budget: nat)
    ensures Head(LedgerOf(db, jobs, budget)) == |jobs| + Twice(jobs)
  {
    if jobs == [] {
      assert FailedBy(NO_LEDGER) == map[] && SkippedBy(NO_LEDGER) == map[];
    } else {
      var init, last := jobs[..|jobs| - 1], jobs[|jobs| - 1];
      HeadAddsUp(db, init, budget);
      var l, server := LedgerOf(db, init, budget), last.key.server;
      var o := Attempt(last.key.table, Find(Pass(db, init, budget).rows, last.key), last.answer, budget).1;
      TallyDueAddsNone(l, server);
      TallyOutcomeAddsOne(TallyDue(l, server), server, StayedPending);
      TallyOutcomeAddsOne(TallyDue(l, server), server, o);
      TallyOutcomeAddsOne(TallyOutcome(TallyDue(l, server), server, o), server, StayedPending);
    }
  }
}
