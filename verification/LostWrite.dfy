/** How a cancel can take away the only record that a server holds an item's
    metadata: a history of the whole system. */
module LostWrite {

  import opened Options
  import opened Outcomes
  import opened Database
  import opened Presence
  import opened CatchUp
  import opened RetryPass
  import opened Invariants
  import opened Protocol

  const RUN: RunId := 7
  const WRITES := Settings(true, 15, 3, true, {"plex"}, true, false, {})
  const START := Request("plex", true, None, Some({"Films"}), None, 5, RUN)

  function MetadataKey(item: nat): Key {
    Key(Metadata, item, "plex")
  }

  /** A catch-up creates the item's row, the item is written, a later pass fails to
      write it again while the run is open, and the run is cancelled. */
  function LossEvent(n: nat, item: nat): Event
    requires n < 4
  {
    match n
    case 0 => Starts(WRITES, START)
    case 1 => Records(MetadataKey(item), WriteCall(9))
    case 2 => Records(MetadataKey(item), Call(Pending, Some(RETRY_SECONDS), None, true, false, false, true, 10))
    case _ => Cancels("plex", RUN, 11)
  }

  function Loss(n: nat, item: nat): seq<Event>
    requires n <= 4
  {
    if n == 0 then [] else Loss(n - 1, item) + [LossEvent(n - 1, item)]
  }

  function RowAt(n: nat): Option<Row> {
    match n
    case 1 => Some(Created(5, RUN))
    case 2 => Some(Row(Written, 0, Some(9), None, Some(9), None, Some(RUN), None))
    case 3 => Some(Row(Pending, 1, Some(10), Some(10 + RETRY_SECONDS), Some(9), None, Some(RUN), None))
    case _ => None
  }

  ghost predicate Told(n: nat, db: Db, item: nat) {
    && item in db.items && db.items[item].library == "Films"
    && Find(db.rows, MetadataKey(item)) == RowAt(n)
    && (n == 0 ==> db.runs == map[])
    && (1 <= n < 4 ==> IsOpen(db, RUN) && db.runs[RUN].server == "plex")
  }

  /** Presence finds the library carried, and no row to speak of. */
  lemma StampTold(db: Db, item: nat)
    requires Told(0, db, item)
    ensures Find(Stamp(db, START).rows, MetadataKey(item)) == None && Stamp(db, START).items == db.items
  {
    PresenceRowsAt(db, "plex", {"Films"}, 5, MetadataKey(item));
  }

  lemma MarkTold(db: Db, item: nat)
    requires item in db.items && db.items[item].library == "Films" && MetadataKey(item) !in db.rows
    ensures Find(MarkedRows(db, WRITES, "plex", {"Films"}, 5, RUN), MetadataKey(item)) == RowAt(1)
  {
    MarkedRowsAt(db, WRITES, "plex", {"Films"}, 5, RUN, MetadataKey(item));
  }

  lemma StartTold(db: Db, item: nat)
    requires Told(0, db, item)
    ensures Start(db, WRITES, START).Success? && Told(1, Start(db, WRITES, START).value, item)
  {
    StampTold(db, item);
    assert Refused(db, WRITES, START).None?;
    MarkTold(Opened(Stamp(db, START), WRITES, START), item);
  }

  lemma RecordTold(n: nat, db: Db, item: nat)
    requires n in {1, 2} && Told(n, db, item)
    ensures var e := LossEvent(n, item);
            && e.Records? && Accepts(e.key.table, e.call) && OwnerExists(db, e.key)
            && Told(n + 1, OrdinaryRecord(db, e.key, e.call), item)
  {
  }

  lemma CancelWithTold(db: Db, item: nat, detail: Detail, t: Tallies)
    requires Told(3, db, item)
    ensures Told(4, CancelWith(db, RUN, detail, t, 11), item)
  {
    CancelWithLeaves(db, RUN, detail, t, 11);
    CancelledRowsAt(db.rows, RUN, 11, MetadataKey(item));
  }

  lemma CancelTold(db: Db, item: nat)
    requires Told(3, db, item)
    ensures Told(4, Cancel(db, RUN, 11), item)
  {
    CancelWithTold(db, item, CancelSentence(db.rows, RUN), RunTallies(db.rows, RUN));
  }

  lemma LossStep(n: nat, s: System, item: nat)
    requires n < 4 && Told(n, s.db, item)
    ensures Enabled(s, LossEvent(n, item)) && Told(n + 1, Next(s, LossEvent(n, item)).db, item)
  {
    if n == 0 {
      StartTold(s.db, item);
    } else if n == 3 {
      CancelTold(s.db, item);
    } else {
      RecordTold(n, s.db, item);
    }
  }

  lemma {:induction false} LossHappens(n: nat, s: System, item: nat)
    requires n <= 4 && Told(0, s.db, item)
    ensures CanHappen(s, Loss(n, item)) && Told(n, After(s, Loss(n, item)).db, item)
  {
    if n > 0 {
      var before, e := Loss(n - 1, item), LossEvent(n - 1, item);
      LossHappens(n - 1, s, item);
      LossStep(n - 1, After(s, before), item);
      OneMoreEvent(s, before, e);
    }
  }

  /** For any item, from a database without outcome rows: the row that records when
      the item was written is gone after the cancel, and nothing else records it. */
  lemma ACancelCanLoseAWrite(items: map<nat, Item>, renders: Renders, item: nat)
    requires item in items && items[item].library == "Films"
    ensures var s := System(Db(items, renders, map[], map[]), map[]);
            && Sound(s)
            && CanHappen(s, Loss(3, item)) && CanHappen(s, Loss(4, item))
            && var before, after := After(s, Loss(3, item)).db, After(s, Loss(4, item)).db;
               && MetadataKey(item) in before.rows && before.rows[MetadataKey(item)].terminalAt == Some(9)
               && MetadataKey(item) !in after.rows
  {
    var s := System(Db(items, renders, map[], map[]), map[]);
    FreshIsSound(items, renders);
    LossHappens(3, s, item);
    LossHappens(4, s, item);
  }
}
