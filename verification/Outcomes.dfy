/** One outcome row and the upsert every outcome goes through
    (`_upsert_outcome`, `record`, `record_metadata`).

    The two outcome tables differ in their terminal word alone, so they share
    one row type; `terminalAt` is `uploaded_at` or `written_at`. */
module Outcomes {

  import opened Options

  type Server = string
  type RunId = nat

  const RETRY_SECONDS := 6 * 60 * 60

  datatype Table = Artwork | Metadata

  datatype Status = Pending | Failed | Skipped | Absent | Uploaded | Written

  function Terminal(table: Table): Status {
    match table
    case Artwork => Uploaded
    case Metadata => Written
  }

  predicate InVocabulary(table: Table, status: Status) {
    status in {Pending, Failed, Skipped, Absent} || status == Terminal(table)
  }

  datatype Row = Row(
    status: Status,
    attempts: nat,
    attemptedAt: Option<int>,
    nextAttemptAt: Option<int>,
    terminalAt: Option<int>,
    fingerprint: Option<string>,
    runId: Option<RunId>,
    previous: Option<Status>)

  /** The arguments of one `record` call, with the clock it read. */
  datatype Call = Call(
    status: Status,
    retryIn: Option<int>,
    fingerprint: Option<string>,
    countAttempt: bool,
    resetAttempts: bool,
    leaveRun: bool,
    keepNextAttempt: bool,
    at: int)

  /** What the code accepts: a word outside the table's vocabulary raises, and
      so does a `pending` with no delay to add to the clock. */
  predicate Accepts(table: Table, c: Call) {
    && InVocabulary(table, c.status)
    && (c.status == Pending ==> c.retryIn.Some?)
    && (table == Metadata ==> c.fingerprint.None?)
  }

  predicate Unsettled(status: Status) {
    status == Pending || status == Failed
  }

  /** The call spends retry budget. */
  predicate Counts(c: Call) {
    c.countAttempt && Unsettled(c.status)
  }

  /** The call forgets the budget spent before it: it settles the row, or it
      starts the row over. */
  predicate Clears(c: Call) {
    !Unsettled(c.status) || c.resetAttempts
  }

  function Horizon(c: Call): Option<int> {
    if c.status == Pending && c.retryIn.Some? then Some(c.at + c.retryIn.value) else None
  }

  /** The row an upsert leaves, by what each column means. */
  function Upserted(table: Table, stored: Option<Row>, c: Call): Row {
    var settles := c.status == Terminal(table);
    var spent := if Counts(c) then 1 else 0;
    match stored
    case None =>
      Row(c.status, spent, Some(c.at), Horizon(c),
          if settles then Some(c.at) else None,
          if settles then c.fingerprint else None, None, None)
    case Some(r) =>
      if r.status == Absent then r
      else
        Row(c.status,
            (if Clears(c) then 0 else r.attempts) + spent,
            Some(c.at),
            if c.keepNextAttempt && r.nextAttemptAt.Some? then r.nextAttemptAt else Horizon(c),
            if settles then Some(c.at) else r.terminalAt,
            if settles && c.fingerprint.Some? then c.fingerprint else r.fingerprint,
            if c.leaveRun then None else r.runId,
            if c.leaveRun then None else r.previous)
  }

  /** What the upsert returns: the budget now spent, zero for an absent row. */
  function Returned(table: Table, stored: Option<Row>, c: Call): nat {
    if stored.Some? && stored.value.status == Absent then 0
    else Upserted(table, stored, c).attempts
  }

  /** The upsert as the code builds it: all inserted values first, then the
      columns a conflict updates, popped or overwritten case by case. */
  method UpsertOutcome(table: Table, stored: Option<Row>, c: Call)
    returns (r: Result<(Row, nat), string>)
    ensures r.Success? <==> Accepts(table, c)
    ensures r.Success? ==> r.value == (Upserted(table, stored, c), Returned(table, stored, c))
  {
    if !InVocabulary(table, c.status) {
      return Failure("not an outcome status");
    }
    if c.status == Pending && c.retryIn.None? {
      return Failure("no delay for a pending row");
    }
    if table == Metadata && c.fingerprint.Some? {
      return Failure("unexpected keyword argument");
    }
    var counted := c.countAttempt && (c.status == Pending || c.status == Failed);
    var isTerminal := c.status == Terminal(table);
    var values := Row(c.status, 0, Some(c.at), None, None, None, None, None);
    if c.status == Pending {
      values := values.(nextAttemptAt := Some(c.at + c.retryIn.value));
    }
    if counted {
      values := values.(attempts := 1);
    }
    if isTerminal {
      values := values.(terminalAt := Some(c.at), fingerprint := c.fingerprint);
    }
    if stored.None? {
      return Success((values, values.attempts));
    }
    var row := stored.value;
    if row.status == Absent {
      return Success((row, 0));
    }
    // Every column the update names starts at the inserted value...
    var updated := values;
    if !c.leaveRun {
      updated := updated.(runId := row.runId, previous := row.previous);
    }
    if c.keepNextAttempt && row.nextAttemptAt.Some? {
      updated := updated.(nextAttemptAt := row.nextAttemptAt);
    }
    // ...and the ones it does not name keep what is stored.
    if !isTerminal {
      updated := updated.(terminalAt := row.terminalAt, fingerprint := row.fingerprint);
    } else if c.fingerprint.None? {
      updated := updated.(fingerprint := row.fingerprint);
    }
    if counted {
      if !c.resetAttempts {
        updated := updated.(attempts := row.attempts + 1);
      }
    } else if (c.status == Pending || c.status == Failed) && !c.resetAttempts {
      updated := updated.(attempts := row.attempts);
    }
    return Success((updated, updated.attempts));
  }

  // ---------------------------------------------------------------- histories

  /** The row after a whole history of calls. */
  function Replay(table: Table, start: Option<Row>, calls: seq<Call>): Option<Row> {
    if calls == [] then start
    else Some(Upserted(table, Replay(table, start, calls[..|calls| - 1]), calls[|calls| - 1]))
  }

  /** The row is not absent yet when call `i` of the history arrives. */
  ghost predicate Reaches(start: Option<Row>, calls: seq<Call>, i: int)
    requires 0 <= i <= |calls|
  {
    && !(start.Some? && start.value.status == Absent)
    && forall j | 0 <= j < i :: calls[j].status != Absent
  }

  /** Nothing after position `i` forgets what was spent there. */
  ghost predicate Remembered(start: Option<Row>, calls: seq<Call>, i: int)
    requires -1 <= i < |calls|
  {
    forall j | i < j < |calls| && Reaches(start, calls, j) :: !Clears(calls[j])
  }

  /** The counted outcomes since the last settle or reset. */
  ghost function Streak(start: Option<Row>, calls: seq<Call>): set<int> {
    set i | 0 <= i < |calls| && Counts(calls[i]) && Reaches(start, calls, i) && Remembered(start, calls, i)
  }

  lemma {:induction false} AbsentIsFinal(table: Table, start: Option<Row>, calls: seq<Call>)
    ensures !Reaches(start, calls, |calls|) <==>
            Replay(table, start, calls).Some? && Replay(table, start, calls).value.status == Absent
  {
    if calls != [] {
      var init := calls[..|calls| - 1];
      AbsentIsFinal(table, start, init);
      assert forall j | 0 <= j < |init| :: init[j] == calls[j];
      assert Reaches(start, calls, |init|) <==> Reaches(start, init, |init|);
    }
  }

  lemma RememberedStep(start: Option<Row>, init: seq<Call>, c: Call, i: int)
    requires -1 <= i < |init|
    ensures Remembered(start, init + [c], i) <==>
            Remembered(start, init, i) && !(Reaches(start, init, |init|) && Clears(c))
  {
    var calls, n := init + [c], |init|;
    ReachesStep(start, init, c);
    if Remembered(start, calls, i) {
      assert Reaches(start, calls, n) ==> !Clears(calls[n]);
      forall j | i < j < n && Reaches(start, init, j)
        ensures !Clears(init[j])
      {
        assert calls[j] == init[j] && Reaches(start, calls, j);
      }
    }
  }

  lemma ReachesStep(start: Option<Row>, init: seq<Call>, c: Call)
    ensures forall i | 0 <= i <= |init| :: Reaches(start, init + [c], i) <==> Reaches(start, init, i)
  {
    forall i | 0 <= i <= |init|
      ensures Reaches(start, init + [c], i) <==> Reaches(start, init, i)
    {
      assert forall j | 0 <= j < i :: (init + [c])[j] == init[j];
    }
  }

  lemma StreakStep(start: Option<Row>, init: seq<Call>, c: Call)
    ensures Streak(start, init + [c]) ==
            if !Reaches(start, init, |init|) then Streak(start, init)
            else (if Clears(c) then {} else Streak(start, init)) + (if Counts(c) then {|init|} else {})
  {
    var calls, n := init + [c], |init|;
    ReachesStep(start, init, c);
    forall i | 0 <= i < n
      ensures calls[i] == init[i]
      ensures Remembered(start, calls, i) <==>
              Remembered(start, init, i) && !(Reaches(start, init, n) && Clears(c))
    {
      RememberedStep(start, init, c, i);
    }
    assert calls[n] == c && Remembered(start, calls, n);
  }

  /** The retry counter is a function of the history alone: the counted
      outcomes since the last settle or reset, plus what the row started with
      when nothing in the history forgot it. */
  lemma {:induction false} AttemptsAreTheStreak(table: Table, start: Option<Row>, calls: seq<Call>)
    ensures var end := Replay(table, start, calls);
            (if end.Some? then end.value.attempts else 0) ==
            |Streak(start, calls)| +
            (if start.Some? && Remembered(start, calls, -1) then start.value.attempts else 0)
  {
    if calls == [] {
      assert Streak(start, calls) == {};
    } else {
      var n := |calls| - 1;
      var init, c := calls[..n], calls[n];
      assert calls == init + [c];
      AttemptsAreTheStreak(table, start, init);
      StreakStep(start, init, c);
      RememberedStep(start, init, c, -1);
      AbsentIsFinal(table, start, init);
      assert n !in Streak(start, init);
    }
  }

  /** No sequence of `record` calls moves a row off `absent`, or changes
      anything else about it. */
  lemma {:induction false} RecordNeverLeavesAbsent(table: Table, r: Row, calls: seq<Call>)
    requires r.status == Absent
    ensures Replay(table, Some(r), calls) == Some(r)
  {
    if calls != [] {
      RecordNeverLeavesAbsent(table, r, calls[..|calls| - 1]);
    }
  }

  /** The clock never runs backwards over the history, nor behind `since`. */
  ghost predicate ClockFrom(since: int, calls: seq<Call>) {
    && (forall i | 0 <= i < |calls| :: since <= calls[i].at)
    && (forall i, j | 0 <= i < j < |calls| :: calls[i].at <= calls[j].at)
  }

  /** What a server was given is never forgotten: the terminal timestamp and
      the delivered fingerprint never revert to null, and the timestamp only
      grows. */
  lemma {:induction false} DeliveryIsNeverErased(table: Table, r: Row, calls: seq<Call>, since: int)
    requires r.terminalAt.Some? ==> r.terminalAt.value <= since
    requires ClockFrom(since, calls)
    ensures var end := Replay(table, Some(r), calls);
            && end.Some?
            && (r.terminalAt.Some? ==> end.value.terminalAt.Some? && r.terminalAt.value <= end.value.terminalAt.value)
            && (r.fingerprint.Some? ==> end.value.fingerprint.Some?)
            && (end.value.terminalAt.Some? && calls != [] ==>
                  end.value.terminalAt.value <= calls[|calls| - 1].at)
  {
    if calls != [] {
      var init := calls[..|calls| - 1];
      DeliveryIsNeverErased(table, r, init, since);
    }
  }

  /** Call `i` of the history is applied, and delivers. */
  ghost predicate DeliversAt(table: Table, start: Option<Row>, calls: seq<Call>, i: int)
    requires 0 <= i < |calls|
  {
    Reaches(start, calls, i) && calls[i].status == Terminal(table)
  }

  /** The call delivers, and names its fingerprint where that is asked. */
  ghost predicate Named(table: Table, start: Option<Row>, calls: seq<Call>, i: int, named: bool)
    requires 0 <= i < |calls|
  {
    DeliversAt(table, start, calls, i) && (named ==> calls[i].fingerprint.Some?)
  }

  /** The last such position of the history; -1 when there is none. */
  ghost function LastDelivery(table: Table, start: Option<Row>, calls: seq<Call>, named: bool): (i: int)
    ensures -1 <= i < |calls|
  {
    if calls == [] then -1
    else if Named(table, start, calls, |calls| - 1, named) then |calls| - 1
    else LastDelivery(table, start, calls[..|calls| - 1], named)
  }

  lemma {:induction false} LastDeliveryIsLast(table: Table, start: Option<Row>, calls: seq<Call>, named: bool)
    ensures var i := LastDelivery(table, start, calls, named);
            && (i >= 0 ==> Named(table, start, calls, i, named))
            && forall j :: i < j < |calls| ==> !Named(table, start, calls, j, named)
  {
    if calls != [] {
      var init, c := calls[..|calls| - 1], calls[|calls| - 1];
      LastDeliveryIsLast(table, start, init, named);
      assert calls == init + [c];
      ReachesStep(start, init, c);
      assert forall j :: 0 <= j < |init| ==> (Named(table, start, calls, j, named) <==> Named(table, start, init, j, named));
    }
  }

  function StampOf(r: Option<Row>): Option<int> {
    if r.Some? then r.value.terminalAt else None
  }

  function FingerprintOf(r: Option<Row>): Option<string> {
    if r.Some? then r.value.fingerprint else None
  }

  lemma StampStep(table: Table, stored: Option<Row>, c: Call)
    ensures var applied := !(stored.Some? && stored.value.status == Absent) && c.status == Terminal(table);
            && StampOf(Some(Upserted(table, stored, c))) == (if applied then Some(c.at) else StampOf(stored))
            && FingerprintOf(Some(Upserted(table, stored, c))) == (if applied && c.fingerprint.Some? then c.fingerprint else FingerprintOf(stored))
  {
  }

  lemma LastDeliveryStep(table: Table, start: Option<Row>, init: seq<Call>, c: Call, named: bool)
    ensures LastDelivery(table, start, init + [c], named) ==
            if Reaches(start, init, |init|) && c.status == Terminal(table) && (named ==> c.fingerprint.Some?)
            then |init| else LastDelivery(table, start, init, named)
  {
    ReachesStep(start, init, c);
    assert (init + [c])[..|init|] == init;
  }

  lemma ReplayStep(table: Table, start: Option<Row>, init: seq<Call>, c: Call)
    ensures Replay(table, start, init + [c]) == Some(Upserted(table, Replay(table, start, init), c))
  {
    assert (init + [c])[..|init|] == init;
  }

  lemma {:induction false} StampIsTheLast(table: Table, start: Option<Row>, calls: seq<Call>)
    ensures var last := LastDelivery(table, start, calls, false);
            StampOf(Replay(table, start, calls)) == if last >= 0 then Some(calls[last].at) else StampOf(start)
  {
    if calls != [] {
      var init, c := calls[..|calls| - 1], calls[|calls| - 1];
      StampIsTheLast(table, start, init);
      assert calls == init + [c];
      AbsentIsFinal(table, start, init);
      ReplayStep(table, start, init, c);
      StampStep(table, Replay(table, start, init), c);
      LastDeliveryStep(table, start, init, c, false);
    }
  }

  lemma {:induction false} FingerprintIsTheLastNamed(table: Table, start: Option<Row>, calls: seq<Call>)
    ensures var last := LastDelivery(table, start, calls, true);
            FingerprintOf(Replay(table, start, calls)) == if last >= 0 then calls[last].fingerprint else FingerprintOf(start)
  {
    if calls != [] {
      var init, c := calls[..|calls| - 1], calls[|calls| - 1];
      FingerprintIsTheLastNamed(table, start, init);
      assert calls == init + [c];
      AbsentIsFinal(table, start, init);
      ReplayStep(table, start, init, c);
      StampStep(table, Replay(table, start, init), c);
      LastDeliveryStep(table, start, init, c, true);
    }
  }

  /** From any row, over any history: the row remembers when it was last delivered,
      and the fingerprint the last delivery that named one named; with no such
      delivery it keeps what it started with. */
  lemma TerminalStampIsTheLastDelivery(table: Table, start: Option<Row>, calls: seq<Call>)
    ensures var last := LastDelivery(table, start, calls, false);
            StampOf(Replay(table, start, calls)) == if last >= 0 then Some(calls[last].at) else StampOf(start)
    ensures var last := LastDelivery(table, start, calls, true);
            FingerprintOf(Replay(table, start, calls)) == if last >= 0 then calls[last].fingerprint else FingerprintOf(start)
  {
    StampIsTheLast(table, start, calls);
    FingerprintIsTheLastNamed(table, start, calls);
  }

  // ------------------------------------------------------------- the other columns

  /** The last call applied decides the word, the instant, and -- unless it keeps a
      horizon that is there -- the horizon: its delay from then for `pending`, and
      none for any other word. */
  lemma LastCallDecides(table: Table, start: Option<Row>, init: seq<Call>, c: Call)
    requires Reaches(start, init, |init|) && Accepts(table, c)
    ensures var end := Replay(table, start, init + [c]);
            && end.Some? && end.value.status == c.status && end.value.attemptedAt == Some(c.at)
            && (c.keepNextAttempt && HorizonOf(Replay(table, start, init)).Some? ==>
                  end.value.nextAttemptAt == HorizonOf(Replay(table, start, init)))
            && (!c.keepNextAttempt || HorizonOf(Replay(table, start, init)).None? ==>
                  end.value.nextAttemptAt == if c.status == Pending then Some(c.at + c.retryIn.value) else None)
  {
    ReplayStep(table, start, init, c);
    AbsentIsFinal(table, start, init);
  }

  function AttemptsOf(r: Option<Row>): nat {
    if r.Some? then r.value.attempts else 0
  }

  /** The budget the last call applied leaves, which is also what it returns: none
      for a word that settles, and otherwise what was spent before, forgotten on a
      reset, and one more when the call counts. On an absent row a call returns zero
      and spends nothing, whatever the row says it spent. */
  lemma LastCallSpends(table: Table, start: Option<Row>, init: seq<Call>, c: Call)
    requires Accepts(table, c)
    ensures var was := Replay(table, start, init);
            var end := Replay(table, start, init + [c]);
            var returned := Returned(table, was, c);
            && (!Reaches(start, init, |init|) ==> returned == 0 && AttemptsOf(end) == AttemptsOf(was))
            && (Reaches(start, init, |init|) && c.status != Pending && c.status != Failed ==>
                  returned == 0 && AttemptsOf(end) == 0)
            && (Reaches(start, init, |init|) && (c.status == Pending || c.status == Failed) ==>
                  && returned == AttemptsOf(end)
                  && returned == (if c.resetAttempts then 0 else AttemptsOf(was)) + (if c.countAttempt then 1 else 0))
  {
    ReplayStep(table, start, init, c);
    AbsentIsFinal(table, start, init);
  }

  function HorizonOf(r: Option<Row>): Option<int> {
    if r.Some? then r.value.nextAttemptAt else None
  }

  /** A run's horizon outlives every call that says to keep it. */
  lemma {:induction false} KeptHorizonStays(table: Table, r: Row, calls: seq<Call>)
    requires r.nextAttemptAt.Some? && forall i :: 0 <= i < |calls| ==> calls[i].keepNextAttempt
    ensures HorizonOf(Replay(table, Some(r), calls)) == r.nextAttemptAt
  {
    if calls != [] {
      KeptHorizonStays(table, r, calls[..|calls| - 1]);
    }
  }

  /** Some call of the history is applied and leaves the run. */
  ghost predicate LeavesRun(start: Option<Row>, calls: seq<Call>) {
    exists i :: 0 <= i < |calls| && Reaches(start, calls, i) && calls[i].leaveRun
  }

  lemma LeavesRunStep(start: Option<Row>, init: seq<Call>, c: Call)
    ensures LeavesRun(start, init + [c]) <==> LeavesRun(start, init) || (Reaches(start, init, |init|) && c.leaveRun)
  {
    var calls := init + [c];
    ReachesStep(start, init, c);
    if i :| 0 <= i < |init| && Reaches(start, init, i) && init[i].leaveRun {
      assert Reaches(start, calls, i) && calls[i].leaveRun;
    }
    if Reaches(start, init, |init|) && c.leaveRun {
      assert Reaches(start, calls, |init|) && calls[|init|].leaveRun;
    }
    if i :| 0 <= i < |calls| && Reaches(start, calls, i) && calls[i].leaveRun && i < |init| {
      assert init[i] == calls[i] && Reaches(start, init, i);
    }
  }

  /** A row keeps both scope columns through any records until one leaves the run,
      and from then on has neither: no record ever puts a row into a run. */
  lemma {:induction false} ScopeIsKeptUntilLeft(table: Table, r: Row, calls: seq<Call>)
    ensures var end := Replay(table, Some(r), calls);
            && end.Some?
            && end.value.runId == (if LeavesRun(Some(r), calls) then None else r.runId)
            && end.value.previous == (if LeavesRun(Some(r), calls) then None else r.previous)
  {
    if calls != [] {
      var init, c := calls[..|calls| - 1], calls[|calls| - 1];
      ScopeIsKeptUntilLeft(table, r, init);
      assert calls == init + [c];
      AbsentIsFinal(table, Some(r), init);
      ReplayStep(table, Some(r), init, c);
      LeavesRunStep(Some(r), init, c);
    }
  }
}
