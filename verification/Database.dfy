/** The tables a delivery touches, as values, and the roll-up of an item's
    artwork rows into its render (`rollup`, `rollup_stamped_renders`). */
module Database {

  import opened Options
  import opened Outcomes

  /** The unique key of an outcome row: a render's id for artwork, an item's
      for metadata, and the server. */
  datatype Key = Key(table: Table, owner: nat, server: Server)

  datatype Item = Item(library: string, hasFacts: bool, hasOverrides: bool)

  datatype Render = Render(
    item: nat,
    rendered: bool,
    background: bool,
    badge: Option<string>,
    uploadStatus: Status,
    uploadedAt: Option<int>)

  datatype RunStatus = Running | Ok | Cancelled

  datatype Detail =
    | Finished(done: nat, failed: nat)
    | Stopped(due: nat, done: nat, failed: nat)
    | CancelDetail(total: nat, done: nat, failed: nat, restored: nat, removed: nat)

  datatype Run = Run(
    server: Server,
    cadence: nat,
    lastDrainedAt: Option<int>,
    idleDrains: nat,
    finishedAt: Option<int>,
    status: RunStatus,
    detail: Option<Detail>,
    processed: Option<nat>,
    failed: Option<nat>,
    deferred: Option<nat>)

  type Rows = map<Key, Row>
  type Renders = map<nat, Render>

  datatype Db = Db(items: map<nat, Item>, renders: Renders, rows: Rows, runs: map<RunId, Run>)

  predicate IsOpen(db: Db, run: RunId) {
    run in db.runs && db.runs[run].finishedAt.None?
  }

  predicate OwnerExists(db: Db, k: Key) {
    match k.table
    case Artwork => k.owner in db.renders && db.renders[k.owner].item in db.items
    case Metadata => k.owner in db.items
  }

  /** `record` and `record_metadata`, as one write. */
  function Record(db: Db, k: Key, c: Call): Db
    requires Accepts(k.table, c)
  {
    db.(rows := db.rows[k := Upserted(k.table, Find(db.rows, k), c)])
  }

  // ------------------------------------------------------------------ roll-up

  function ArtRows(rows: Rows, render: nat): set<Key> {
    set k | k in rows && k.table == Artwork && k.owner == render
  }

  function Statuses(rows: Rows, render: nat): set<Status> {
    set k | k in ArtRows(rows, render) :: rows[k].status
  }

  /** `failed` over `pending` over `uploaded` over everything else. */
  function Ladder(statuses: set<Status>): Status {
    if Failed in statuses then Failed
    else if Pending in statuses then Pending
    else if Uploaded in statuses then Uploaded
    else Skipped
  }

  /** The cached column says what the rows say. A render with no rows has
      nothing to agree with. */
  predicate Agrees(rows: Rows, renders: Renders, render: nat) {
    render in renders && ArtRows(rows, render) != {} ==>
      renders[render].uploadStatus == Ladder(Statuses(rows, render))
  }

  predicate AllAgree(db: Db) {
    forall render :: render in db.renders ==> Agrees(db.rows, db.renders, render)
  }

  ghost function Pick<T>(s: set<T>): (x: T)
    requires s != {}
    ensures x in s
  {
    var x :| x in s; x
  }

  ghost function MaxOf(s: set<int>): (m: int)
    requires s != {}
    ensures m in s && forall x :: x in s ==> x <= m
  {
    var x := Pick(s);
    var rest := s - {x};
    assert s == {x} + rest;
    if rest == {} then x
    else
      var m := MaxOf(rest);
      if m < x then x else m
  }

  function UploadTimes(rows: Rows, render: nat): set<int> {
    set k | k in ArtRows(rows, render) && rows[k].terminalAt.Some? :: rows[k].terminalAt.value
  }

  ghost function LatestUpload(rows: Rows, render: nat): Option<int> {
    var times := UploadTimes(rows, render);
    if times == {} then None else Some(MaxOf(times))
  }

  ghost function RolledUp(rows: Rows, render: nat, r: Render): Render {
    var latest := LatestUpload(rows, render);
    r.(uploadStatus := Ladder(Statuses(rows, render)),
       uploadedAt := if latest.Some? then latest else r.uploadedAt)
  }

  /** `rollup`: one render, both cached columns. */
  ghost function Rollup(db: Db, render: nat): Db {
    if render in db.renders
    then db.(renders := db.renders[render := RolledUp(db.rows, render, db.renders[render])])
    else db
  }

  /** `rollup_stamped_renders`: the status of many renders at once; a render
      whose rows are all gone keeps the status it carries. */
  function RollupMany(rows: Rows, renders: Renders, chosen: set<nat>): Renders {
    map r | r in renders ::
      if r in chosen && ArtRows(rows, r) != {}
      then renders[r].(uploadStatus := Ladder(Statuses(rows, r)))
      else renders[r]
  }

  /** The renders a set-shaped write names by the instant it stamped. */
  function Stamped(rows: Rows, server: Server, now: int): set<nat> {
    set k | && k in rows && k.table == Artwork && k.server == server
            && (|| (rows[k].status == Absent && rows[k].attemptedAt == Some(now))
                || (rows[k].status == Pending && rows[k].nextAttemptAt == Some(now)))
      :: k.owner
  }

  /** The artwork rows of one render say the same in both states. */
  ghost predicate SameArt(before: Rows, after: Rows, render: nat) {
    forall k: Key | k.table == Artwork && k.owner == render ::
      && (k in before <==> k in after)
      && (k in before ==> before[k].status == after[k].status)
  }

  lemma SameArtSameFold(before: Rows, after: Rows, render: nat)
    requires SameArt(before, after, render)
    ensures ArtRows(before, render) == ArtRows(after, render)
    ensures Statuses(before, render) == Statuses(after, render)
  {
    forall s | s in Statuses(before, render)
      ensures s in Statuses(after, render)
    {
      var k :| k in ArtRows(before, render) && before[k].status == s;
      assert k in ArtRows(after, render) && after[k].status == s;
    }
    forall s | s in Statuses(after, render)
      ensures s in Statuses(before, render)
    {
      var k :| k in ArtRows(after, render) && after[k].status == s;
      assert k in ArtRows(before, render) && before[k].status == s;
    }
  }

  /** A set-shaped write that re-rolls every render it touched leaves every
      cached column right. */
  lemma RollupManyAgrees(before: Rows, after: Rows, renders: Renders, chosen: set<nat>)
    requires forall r :: r in renders ==> Agrees(before, renders, r)
    requires forall r :: r in renders && r !in chosen ==> SameArt(before, after, r)
    ensures var rolled := RollupMany(after, renders, chosen);
            forall r :: r in rolled ==> Agrees(after, rolled, r)
  {
    var rolled := RollupMany(after, renders, chosen);
    forall r | r in rolled
      ensures Agrees(after, rolled, r)
    {
      if r !in chosen {
        SameArtSameFold(before, after, r);
      }
    }
  }

  /** One row's write followed by its render's roll-up leaves every cached
      column right, whatever the write was. */
  lemma RollupAgrees(before: Db, after: Db, render: nat)
    requires AllAgree(before)
    requires after.renders == before.renders
    requires forall r :: r in before.renders && r != render ==> SameArt(before.rows, after.rows, r)
    ensures AllAgree(Rollup(after, render))
  {
    var done := Rollup(after, render);
    forall r | r in done.renders
      ensures Agrees(done.rows, done.renders, r)
    {
      if r != render {
        assert Agrees(before.rows, before.renders, r);
        SameArtSameFold(before.rows, after.rows, r);
      }
    }
  }

  /** What the ladder means, server by server: a single failing server shows,
      a single waiting one hides a success, a single success outranks every
      server with nothing to say, and `absent` says nothing. */
  lemma LadderMeaning(rows: Rows, render: nat)
    ensures var l := Ladder(Statuses(rows, render));
            && (l == Failed <==> exists k :: k in ArtRows(rows, render) && rows[k].status == Failed)
            && (l == Pending <==>
                  && (exists k :: k in ArtRows(rows, render) && rows[k].status == Pending)
                  && (forall k :: k in ArtRows(rows, render) ==> rows[k].status != Failed))
            && (l == Uploaded <==>
                  && (exists k :: k in ArtRows(rows, render) && rows[k].status == Uploaded)
                  && (forall k :: k in ArtRows(rows, render) ==> !Unsettled(rows[k].status)))
            && (l == Skipped <==>
                  forall k :: k in ArtRows(rows, render) ==> rows[k].status in {Skipped, Absent, Written})
  {
    assert forall k :: k in ArtRows(rows, render) ==> rows[k].status in Statuses(rows, render);
  }

  // ------------------------------------------------- the render's delivery date

  /** Some row still holds a delivery at least as recent as the render's. */
  ghost predicate Backed(db: Db, render: nat) {
    render in db.renders && db.renders[render].uploadedAt.Some? ==>
      exists t :: t in UploadTimes(db.rows, render) && db.renders[render].uploadedAt.value <= t
  }

  /** A roll-up never blanks a render's delivery date, and moves it back
      exactly when every delivery the rows still hold is older. */
  lemma RollupMovesDateBackIff(db: Db, render: nat)
    requires render in db.renders && db.renders[render].uploadedAt.Some?
    ensures var was, now := db.renders[render].uploadedAt, Rollup(db, render).renders[render].uploadedAt;
            && now.Some?
            && (now.value < was.value <==>
                  UploadTimes(db.rows, render) != {} && !Backed(db, render))
  {
  }

  datatype Write = RecordRow(key: Key, call: Call) | RollupRender(render: nat)

  ghost predicate WriteOk(w: Write) {
    w.RecordRow? ==> Accepts(w.key.table, w.call)
  }

  ghost function AfterWrites(db: Db, writes: seq<Write>): Db
    requires forall i :: 0 <= i < |writes| ==> WriteOk(writes[i])
    decreases |writes|
  {
    if writes == [] then db
    else
      assert WriteOk(writes[0]);
      AfterWrites(match writes[0]
                  case RecordRow(k, c) => Record(db, k, c)
                  case RollupRender(r) => Rollup(db, r),
                  writes[1..])
  }

  /** No delivery recorded so far is later than `t`. */
  ghost predicate DeliveredBy(db: Db, t: int) {
    forall k :: k in db.rows && db.rows[k].terminalAt.Some? ==> db.rows[k].terminalAt.value <= t
  }

  lemma RecordBacks(db: Db, k: Key, c: Call, render: nat)
    requires Accepts(k.table, c) && Backed(db, render) && DeliveredBy(db, c.at)
    ensures Backed(Record(db, k, c), render)
  {
    if render in db.renders && db.renders[render].uploadedAt.Some? {
      var t :| t in UploadTimes(db.rows, render) && db.renders[render].uploadedAt.value <= t;
      var from :| from in ArtRows(db.rows, render) && db.rows[from].terminalAt == Some(t);
      var after := Record(db, k, c);
      assert from in ArtRows(after.rows, render);
      assert after.rows[from].terminalAt.value in UploadTimes(after.rows, render);
    }
  }

  /** Over any interleaving of records and roll-ups with a clock that does not
      run backwards, a render's delivery date never moves back. */
  lemma {:induction false} UploadedAtNeverMovesBack(db: Db, writes: seq<Write>, render: nat, start: int)
    requires render in db.renders && Backed(db, render) && DeliveredBy(db, start)
    requires forall i :: 0 <= i < |writes| ==> WriteOk(writes[i])
    requires forall i :: 0 <= i < |writes| && writes[i].RecordRow? ==> start <= writes[i].call.at
    requires forall i, j :: 0 <= i < j < |writes| && writes[i].RecordRow? && writes[j].RecordRow? ==>
                              writes[i].call.at <= writes[j].call.at
    ensures var end := AfterWrites(db, writes);
            && render in end.renders
            && Backed(end, render)
            && (db.renders[render].uploadedAt.Some? ==>
                  && end.renders[render].uploadedAt.Some?
                  && db.renders[render].uploadedAt.value <= end.renders[render].uploadedAt.value)
    decreases |writes|
  {
    if writes != [] {
      assert WriteOk(writes[0]);
      var rest := writes[1..];
      assert forall i :: 0 <= i < |rest| ==> rest[i] == writes[i + 1];
      match writes[0]
      case RecordRow(k, c) =>
        assert DeliveredBy(db, c.at);
        RecordBacks(db, k, c, render);
        assert DeliveredBy(Record(db, k, c), c.at);
        UploadedAtNeverMovesBack(Record(db, k, c), rest, render, c.at);
      case RollupRender(r) =>
        var next := Rollup(db, r);
        assert forall other :: UploadTimes(next.rows, other) == UploadTimes(db.rows, other);
        assert DeliveredBy(next, start);
        UploadedAtNeverMovesBack(next, rest, render, start);
    }
  }
}
