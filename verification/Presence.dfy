/** Which libraries a server carries: the step that stamps `absent`, and the
    only one that takes a row off it (`apply_presence`). */
module Presence {

  import opened Options
  import opened Outcomes
  import opened Database

  /** Every key a set-shaped statement can reach for one server. */
  function Universe(db: Db, server: Server): set<Key> {
    (set i | i in db.items :: Key(Metadata, i, server)) +
    (set r | r in db.renders :: Key(Artwork, r, server))
  }

  function Library(db: Db, k: Key): string
    requires OwnerExists(db, k)
  {
    match k.table
    case Artwork => db.items[db.renders[k.owner].item].library
    case Metadata => db.items[k.owner].library
  }

  /** Presence may stamp or re-arm this key: the server's own, and not a
      background's, which it leaves alone whether or not the library is carried. */
  predicate Concerns(db: Db, server: Server, k: Key) {
    k.server == server && OwnerExists(db, k) && (k.table == Artwork ==> !db.renders[k.owner].background)
  }

  /** Stamping `absent`: a missing row is created so, and one that is there is
      stamped unless the server holds the delivery, or it says so already. */
  function AbsentOver(table: Table, stored: Option<Row>, now: int): Option<Row> {
    match stored
    case None => Some(Row(Absent, 0, Some(now), None, None, None, None, None))
    case Some(r) =>
      if r.status in {Terminal(table), Absent} then stored
      else Some(r.(status := Absent, attemptedAt := Some(now), nextAttemptAt := None, attempts := 0))
  }

  /** Re-arming: an absent row becomes due, and no other row is touched. */
  function RearmedOver(stored: Option<Row>, now: int): Option<Row> {
    if stored.Some? && stored.value.status == Absent
    then Some(stored.value.(status := Pending, nextAttemptAt := Some(now), attempts := 0))
    else stored
  }

  /** The row presence leaves at a key, or none. */
  function PresenceRow(db: Db, server: Server, present: set<string>, now: int, k: Key): Option<Row> {
    var stored := Find(db.rows, k);
    if !Concerns(db, server, k) then stored
    else if Library(db, k) !in present then AbsentOver(k.table, stored, now)
    else RearmedOver(stored, now)
  }

  function PresenceRows(db: Db, server: Server, present: set<string>, now: int): Rows {
    map k | k in db.rows.Keys + Universe(db, server) && PresenceRow(db, server, present, now, k).Some?
      :: PresenceRow(db, server, present, now, k).value
  }

  /** Some artwork row was stamped or re-armed, which is when the roll-up is owed. */
  predicate ArtworkMoved(before: Rows, after: Rows) {
    exists k :: k in after && k.table == Artwork && (k !in before || before[k] != after[k])
  }

  function ApplyPresence(db: Db, server: Server, present: set<string>, now: int): Db {
    var rows := PresenceRows(db, server, present, now);
    var renders :=
      if ArtworkMoved(db.rows, rows) then RollupMany(rows, db.renders, Stamped(rows, server, now))
      else db.renders;
    db.(rows := rows, renders := renders)
  }

  lemma PresenceRowsAt(db: Db, server: Server, present: set<string>, now: int, k: Key)
    ensures Find(PresenceRows(db, server, present, now), k) == PresenceRow(db, server, present, now, k)
  {
    if Concerns(db, server, k) {
      assert k in Universe(db, server);
    }
  }

  lemma PresenceAgrees(db: Db, server: Server, present: set<string>, now: int)
    requires AllAgree(db)
    ensures AllAgree(ApplyPresence(db, server, present, now))
  {
    var rows := PresenceRows(db, server, present, now);
    var chosen := Stamped(rows, server, now);
    forall k: Key
      ensures Find(rows, k) == PresenceRow(db, server, present, now, k)
      ensures k.table == Artwork && Find(rows, k) != Find(db.rows, k) ==>
                k in rows && k.owner in chosen && ArtworkMoved(db.rows, rows)
    {
      PresenceRowsAt(db, server, present, now, k);
    }
    forall r | r in db.renders && (r !in chosen || !ArtworkMoved(db.rows, rows))
      ensures SameArt(db.rows, rows, r)
    {
      assert forall k: Key | k.table == Artwork && k.owner == r :: Find(rows, k) == Find(db.rows, k);
    }
    if ArtworkMoved(db.rows, rows) {
      RollupManyAgrees(db.rows, rows, db.renders, chosen);
    } else {
      forall r | r in db.renders
        ensures Agrees(rows, db.renders, r)
      {
        assert Agrees(db.rows, db.renders, r);
        SameArtSameFold(db.rows, rows, r);
      }
    }
  }

  /** Both directions of the rule: after presence, a row is absent exactly when
      its library is not carried and the server never took the delivery, or
      when it was absent and presence had no say in it. */
  lemma AbsentIff(db: Db, server: Server, present: set<string>, now: int, k: Key)
    ensures var before, after := Find(db.rows, k), Find(PresenceRows(db, server, present, now), k);
            (after.Some? && after.value.status == Absent) <==>
              if Concerns(db, server, k)
              then Library(db, k) !in present && !(before.Some? && before.value.status == Terminal(k.table))
              else before.Some? && before.value.status == Absent
  {
    PresenceRowsAt(db, server, present, now, k);
  }

  /** Read off the tables: what presence leaves at each key of the server. A background
      and a key without an owner are let be; in a library that is not carried a missing
      row is created absent, and one that does not record the delivery becomes so; in a
      carried one an absent row is due at once. Nothing delivered is forgotten, and a
      row keeps its run. */
  lemma PresenceLeaves(db: Db, server: Server, present: set<string>, now: int, render: nat, item: nat, table: Table)
    requires table == Artwork ==> render in db.renders && db.renders[render].item == item
    requires item in db.items
    ensures var k := Key(table, if table == Artwork then render else item, server);
            var before, after := Find(db.rows, k), Find(PresenceRows(db, server, present, now), k);
            var carried := db.items[item].library in present;
            var stays := || (table == Artwork && db.renders[render].background)
                         || (carried && (before.None? || before.value.status != Absent))
                         || (!carried && before.Some? &&
                             before.value.status in {Absent, if table == Artwork then Uploaded else Written});
            && (stays ==> after == before)
            && (!stays ==> after.Some?)
            && (!stays && carried ==>
                  after.value == before.value.(status := Pending, nextAttemptAt := Some(now), attempts := 0))
            && (!stays && !carried ==>
                  && after.value.status == Absent && after.value.attemptedAt == Some(now)
                  && after.value.nextAttemptAt.None? && after.value.attempts == 0
                  && (before.Some? ==>
                        && after.value.terminalAt == before.value.terminalAt
                        && after.value.fingerprint == before.value.fingerprint
                        && after.value.runId == before.value.runId && after.value.previous == before.value.previous)
                  && (before.None? ==> after.value.terminalAt.None? && after.value.runId.None?))
  {
    PresenceRowsAt(db, server, present, now, Key(table, if table == Artwork then render else item, server));
  }
}
