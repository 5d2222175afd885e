/** The identity migration: rows that share a key are merged into the newest of
    them by moving everything that hangs off the stale row before it is deleted.

    The tables are compared pointwise, through `Find`, with what the rows read
    at the start say they must hold once the rows of `seen` have been looked at. */
module IdentityMerge {

  import opened Options

  type Id = nat

  /** The columns the merge reads or writes; `ratingKey` is the one about to go. */
  datatype Item = Item(parent: Option<Id>, updatedAt: int, ratingKey: string)

  type Items = map<Id, Item>

  /** Where a child row hangs: the item, and the rest of its table's unique key
      (the server of a ref, the art kind of a render, a field, a person...). */
  datatype Cell = Cell(item: Id, slot: string)

  type Child = map<Cell, string>

  datatype Update = Update(key: string, item: Id)

  // ---------------------------------------------------------- the specification

  /** The first row of `seen` with this key: the one its cluster ends up as. */
  function Leader(seen: seq<Id>, key: Id -> string, k: string): (r: Option<Id>)
    ensures r.Some? ==> r.value in seen && key(r.value) == k
    ensures r.None? ==> forall x :: x in seen ==> key(x) != k
  {
    if seen == [] then None
    else
      var n := |seen| - 1;
      var earlier := Leader(seen[..n], key, k);
      assert seen == seen[..n] + [seen[n]];
      if earlier.Some? then earlier else if key(seen[n]) == k then Some(seen[n]) else None
  }

  /** The first row of `seen` with this key that fills the slot itself. */
  function Holder(t: Child, seen: seq<Id>, key: Id -> string, k: string, slot: string): (r: Option<Id>)
    ensures r.Some? ==> r.value in seen && key(r.value) == k && Cell(r.value, slot) in t
    ensures r.None? ==> forall x :: x in seen && key(x) == k ==> Cell(x, slot) !in t
  {
    if seen == [] then None
    else
      var n := |seen| - 1;
      var earlier := Holder(t, seen[..n], key, k, slot);
      assert seen == seen[..n] + [seen[n]];
      if earlier.Some? then earlier
      else if key(seen[n]) == k && Cell(seen[n], slot) in t then Some(seen[n])
      else None
  }

  /** The row that stands for `x` once the rows of `seen` have been looked at. */
  function Rep(seen: seq<Id>, key: Id -> string, x: Id): Id {
    if x in seen then Leader(seen, key, key(x)).value else x
  }

  function RepOf(seen: seq<Id>, key: Id -> string, x: Option<Id>): Option<Id> {
    if x.Some? then Some(Rep(seen, key, x.value)) else None
  }

  /** The item table: the rows that stand for themselves, parents followed. */
  function RowAfter(items: Items, seen: seq<Id>, key: Id -> string, x: Id): Option<Item> {
    if x in items && Rep(seen, key, x) == x then Some(items[x].(parent := RepOf(seen, key, items[x].parent)))
    else None
  }

  /** A child table: what the first holder of the cluster had in the slot. */
  function CellAfter(t: Child, seen: seq<Id>, key: Id -> string, c: Cell): Option<string> {
    if c.item !in seen then Find(t, c)
    else if Rep(seen, key, c.item) != c.item then None
    else
      var holder := Holder(t, seen, key, key(c.item), c.slot);
      if holder.Some? then Some(t[Cell(holder.value, c.slot)]) else None
  }

  ghost predicate RowsTrack(now: Items, items: Items, seen: seq<Id>, key: Id -> string) {
    forall x :: Find(now, x) == RowAfter(items, seen, key, x)
  }

  ghost predicate CellsTrack(now: Child, t: Child, seen: seq<Id>, key: Id -> string) {
    forall c :: Find(now, c) == CellAfter(t, seen, key, c)
  }

  // ------------------------------------------------------------------ one merge

  function MergedRow(items: Items, survivor: Id, stale: Id, x: Id): Option<Item> {
    if x == stale || x !in items then None
    else Some(if items[x].parent == Some(stale) then items[x].(parent := Some(survivor)) else items[x])
  }

  /** The survivor keeps its own rows; the stale row's fill the slots it lacks. */
  function MergedCell(t: Child, survivor: Id, stale: Id, c: Cell): Option<string> {
    if c.item == stale then None
    else if c in t then Some(t[c])
    else if c.item == survivor then Find(t, Cell(stale, c.slot))
    else None
  }

  ghost predicate RowsMerged(now: Items, items: Items, survivor: Id, stale: Id) {
    forall x :: Find(now, x) == MergedRow(items, survivor, stale, x)
  }

  ghost predicate CellsMerged(now: Child, t: Child, survivor: Id, stale: Id) {
    forall c :: Find(now, c) == MergedCell(t, survivor, stale, c)
  }

  /** Looking at one more row moves that row alone. */
  lemma RepStep(seen: seq<Id>, key: Id -> string, row: Id, x: Id)
    requires row !in seen
    ensures Rep(seen + [row], key, x) ==
            if x != row then Rep(seen, key, x)
            else if Leader(seen, key, key(row)).Some? then Leader(seen, key, key(row)).value
            else row
    ensures Rep(seen, key, x) == row <==> x == row
  {
    assert (seen + [row])[..|seen|] == seen;
  }

  lemma HolderStep(t: Child, seen: seq<Id>, key: Id -> string, row: Id, k: string, slot: string)
    ensures Holder(t, seen + [row], key, k, slot) ==
            if Holder(t, seen, key, k, slot).Some? then Holder(t, seen, key, k, slot)
            else if key(row) == k && Cell(row, slot) in t then Some(row)
            else None
  {
    assert (seen + [row])[..|seen|] == seen;
  }

  /** One row of one merge. */
  lemma RowMerges(items: Items, now: Items, seen: seq<Id>, key: Id -> string, row: Id, survivor: Id, x: Id)
    requires row !in seen && Leader(seen, key, key(row)) == Some(survivor)
    requires Find(now, x) == RowAfter(items, seen, key, x)
    ensures MergedRow(now, survivor, row, x) == RowAfter(items, seen + [row], key, x)
  {
    RepStep(seen, key, row, x);
    if x in items && items[x].parent.Some? {
      RepStep(seen, key, row, items[x].parent.value);
    }
  }

  /** One cell of one merge: the survivor's own row if it has one by now, the
      stale row's otherwise, and every other item untouched. */
  lemma CellMerges(t: Child, now: Child, seen: seq<Id>, key: Id -> string, row: Id, survivor: Id, c: Cell)
    requires row !in seen && Leader(seen, key, key(row)) == Some(survivor)
    requires Find(now, c) == CellAfter(t, seen, key, c)
    requires Find(now, Cell(row, c.slot)) == CellAfter(t, seen, key, Cell(row, c.slot))
    ensures MergedCell(now, survivor, row, c) == CellAfter(t, seen + [row], key, c)
  {
    RepStep(seen, key, row, c.item);
    HolderStep(t, seen, key, row, key(c.item), c.slot);
  }

  /** A row whose key is new stands for itself, with what it had. */
  lemma NewKey(items: Items, t: Child, seen: seq<Id>, key: Id -> string, row: Id, x: Id, c: Cell)
    requires row !in seen && Leader(seen, key, key(row)).None?
    ensures RowAfter(items, seen + [row], key, x) == RowAfter(items, seen, key, x)
    ensures CellAfter(t, seen + [row], key, c) == CellAfter(t, seen, key, c)
  {
    RepStep(seen, key, row, x);
    if x in items && items[x].parent.Some? {
      RepStep(seen, key, row, items[x].parent.value);
    }
    RepStep(seen, key, row, c.item);
    HolderStep(t, seen, key, row, key(c.item), c.slot);
    if key(c.item) == key(row) && c.item in seen {
      assert false;
    }
  }

  lemma RowsMerge(items: Items, now: Items, after: Items, seen: seq<Id>, key: Id -> string, row: Id, survivor: Id)
    requires row !in seen && Leader(seen, key, key(row)) == Some(survivor)
    requires RowsTrack(now, items, seen, key) && RowsMerged(after, now, survivor, row)
    ensures RowsTrack(after, items, seen + [row], key)
  {
    forall x
      ensures Find(after, x) == RowAfter(items, seen + [row], key, x)
    {
      assert Find(after, x) == MergedRow(now, survivor, row, x);
      RowMerges(items, now, seen, key, row, survivor, x);
    }
  }

  lemma CellsMerge(t: Child, now: Child, after: Child, seen: seq<Id>, key: Id -> string, row: Id, survivor: Id)
    requires row !in seen && Leader(seen, key, key(row)) == Some(survivor)
    requires CellsTrack(now, t, seen, key) && CellsMerged(after, now, survivor, row)
    ensures CellsTrack(after, t, seen + [row], key)
  {
    forall c
      ensures Find(after, c) == CellAfter(t, seen + [row], key, c)
    {
      assert Find(after, c) == MergedCell(now, survivor, row, c);
      CellMerges(t, now, seen, key, row, survivor, c);
    }
  }

  lemma RowsStay(items: Items, now: Items, seen: seq<Id>, key: Id -> string, row: Id)
    requires row !in seen && Leader(seen, key, key(row)).None?
    requires RowsTrack(now, items, seen, key)
    ensures RowsTrack(now, items, seen + [row], key)
  {
    forall x
      ensures Find(now, x) == RowAfter(items, seen + [row], key, x)
    {
      NewKey(items, map[], seen, key, row, x, Cell(x, ""));
    }
  }

  lemma CellsStay(t: Child, now: Child, seen: seq<Id>, key: Id -> string, row: Id)
    requires row !in seen && Leader(seen, key, key(row)).None?
    requires CellsTrack(now, t, seen, key)
    ensures CellsTrack(now, t, seen + [row], key)
  {
    forall c
      ensures Find(now, c) == CellAfter(t, seen + [row], key, c)
    {
      NewKey(map[], t, seen, key, row, c.item, c);
    }
  }

  ghost predicate TablesTrack(now: seq<Child>, tables: seq<Child>, seen: seq<Id>, key: Id -> string) {
    |now| == |tables| && forall i :: 0 <= i < |tables| ==> CellsTrack(now[i], tables[i], seen, key)
  }

  ghost predicate TablesMerged(now: seq<Child>, tables: seq<Child>, survivor: Id, stale: Id) {
    |now| == |tables| && forall i :: 0 <= i < |tables| ==> CellsMerged(now[i], tables[i], survivor, stale)
  }

  lemma TablesMerge(tables: seq<Child>, now: seq<Child>, after: seq<Child>, seen: seq<Id>, key: Id -> string, row: Id, survivor: Id)
    requires row !in seen && Leader(seen, key, key(row)) == Some(survivor)
    requires TablesTrack(now, tables, seen, key) && TablesMerged(after, now, survivor, row)
    ensures TablesTrack(after, tables, seen + [row], key)
  {
    forall i | 0 <= i < |tables| {
      CellsMerge(tables[i], now[i], after[i], seen, key, row, survivor);
    }
  }

  lemma TablesStay(tables: seq<Child>, now: seq<Child>, seen: seq<Id>, key: Id -> string, row: Id)
    requires row !in seen && Leader(seen, key, key(row)).None?
    requires TablesTrack(now, tables, seen, key)
    ensures TablesTrack(now, tables, seen + [row], key)
  {
    forall i | 0 <= i < |tables| {
      CellsStay(tables[i], now[i], seen, key, row);
    }
  }

  /** The keys to write so far: each leader's own. */
  ghost predicate UpdatesTrack(updates: seq<Update>, seen: seq<Id>, key: Id -> string) {
    forall u :: u in updates <==> u.key == key(u.item) && u.item in seen && Rep(seen, key, u.item) == u.item
  }

  lemma UpdatesStep(updates: seq<Update>, seen: seq<Id>, key: Id -> string, row: Id)
    requires row !in seen && UpdatesTrack(updates, seen, key)
    ensures UpdatesTrack(if Leader(seen, key, key(row)).Some? then updates else updates + [Update(key(row), row)],
                         seen + [row], key)
  {
    forall u: Update {
      RepStep(seen, key, row, u.item);
    }
  }

  lemma NothingSeen(items: Items, tables: seq<Child>, key: Id -> string)
    ensures RowsTrack(items, items, [], key) && TablesTrack(tables, tables, [], key)
  {
  }

  // ---------------------------------------------------------------- the migration

  /** The rows in the order they are read. */
  ghost predicate Listed(items: Items, order: seq<Id>) {
    && (forall x :: x in items <==> x in order)
    && Distinct(order)
  }

  ghost predicate Distinct(order: seq<Id>) {
    forall i, j :: 0 <= i < j < |order| ==> order[i] != order[j]
  }

  /** The refs table as first filled: one row per item, its own rating key. */
  function Backfilled(items: Items): Child {
    map c | c in (set x | x in items :: Cell(x, "plex")) :: items[c.item].ratingKey
  }

  ghost predicate LeadersTrack(survivors: map<string, Id>, seen: seq<Id>, key: Id -> string) {
    forall k :: Find(survivors, k) == Leader(seen, key, k)
  }

  /** What one more row does to every cluster's first row. */
  lemma LeadersStep(seen: seq<Id>, key: Id -> string, row: Id)
    ensures forall k :: Leader(seen + [row], key, k) ==
                        if Leader(seen, key, k).Some? then Leader(seen, key, k)
                        else if key(row) == k then Some(row)
                        else None
  {
    assert (seen + [row])[..|seen|] == seen;
  }

  method MergeTable(t: Child, stale: Id, survivor: Id) returns (merged: Child)
    requires stale != survivor
    ensures CellsMerged(merged, t, survivor, stale)
  {
    // The stale row's child goes where the survivor already has one...
    var kept := map c | c in t && !(c.item == stale && Cell(survivor, c.slot) in t) :: t[c];
    // ...and follows the merge everywhere else.
    var moved := set c | c in kept && c.item == stale :: Cell(survivor, c.slot);
    merged := map c | c in kept.Keys + moved && c.item != stale ::
      if c in kept then kept[c] else kept[Cell(stale, c.slot)];
    forall c
      ensures Find(merged, c) == MergedCell(t, survivor, stale, c)
    {
      if c.item == survivor && Cell(stale, c.slot) in kept {
        assert c in moved;
      }
    }
  }

  class Catalog {
    var items: Items
    var children: seq<Child>
    var identity: map<Id, string>

    /** Deleting this row cascades to nothing. */
    ghost predicate NothingHangsOn(x: Id)
      reads this
    {
      && (forall y :: y in items && y != x ==> items[y].parent != Some(x))
      && (forall i, c :: 0 <= i < |children| && c in children[i] ==> c.item != x)
    }

    constructor (items: Items, children: seq<Child>)
      ensures this.items == items && this.children == children && identity == map[]
    {
      this.items, this.children, this.identity := items, children, map[];
    }

    /** The foreign keys cascade, so this is only ever asked of a row that
        nothing hangs off any more. */
    method DeleteItem(x: Id)
      requires NothingHangsOn(x)
      modifies this`items
      ensures items == old(items) - {x}
    {
      items := items - {x};
    }

    method MergeInto(stale: Id, survivor: Id)
      requires stale != survivor
      modifies this`items, this`children
      ensures RowsMerged(items, old(items), survivor, stale)
      ensures TablesMerged(children, old(children), survivor, stale)
    {
      for i := 0 to |children|
        invariant items == old(items) && |children| == |old(children)|
        invariant forall j :: 0 <= j < i ==> CellsMerged(children[j], old(children)[j], survivor, stale)
        invariant forall j :: i <= j < |children| ==> children[j] == old(children)[j]
      {
        var merged := MergeTable(children[i], stale, survivor);
        children := children[i := merged];
      }
      items := map x | x in items ::
        if items[x].parent == Some(stale) then items[x].(parent := Some(survivor)) else items[x];
      forall i, c | 0 <= i < |children| && c in children[i]
        ensures c.item != stale
      {
        assert Find(children[i], c) == MergedCell(old(children)[i], survivor, stale, c);
      }
      DeleteItem(stale);
      forall x
        ensures Find(items, x) == MergedRow(old(items), survivor, stale, x)
      {
        assert x in items <==> x in old(items) && x != stale;
      }
    }

    /** The loop over the rows as they were read: the first of a key survives, and
        every later one is merged into it. */
    method MergeRows(order: seq<Id>, key: Id -> string) returns (updates: seq<Update>)
      requires Distinct(order)
      modifies this`items, this`children
      ensures RowsTrack(items, old(items), order, key)
      ensures TablesTrack(children, old(children), order, key)
      ensures UpdatesTrack(updates, order, key)
    {
      NothingSeen(items, children, key);
      var survivors: map<string, Id> := map[];
      updates := [];
      for n := 0 to |order|
        invariant RowsTrack(items, old(items), order[..n], key)
        invariant TablesTrack(children, old(children), order[..n], key)
        invariant LeadersTrack(survivors, order[..n], key)
        invariant UpdatesTrack(updates, order[..n], key)
      {
        var row := order[n];
        ghost var seen := order[..n];
        assert row !in seen;
        assert order[..n + 1] == seen + [row];
        LeadersStep(seen, key, row);
        UpdatesStep(updates, seen, key, row);
        assert Find(survivors, key(row)) == Leader(seen, key, key(row));
        if key(row) in survivors {
          ghost var before, tables := items, children;
          MergeInto(row, survivors[key(row)]);
          RowsMerge(old(items), before, items, seen, key, row, survivors[key(row)]);
          TablesMerge(old(children), tables, children, seen, key, row, survivors[key(row)]);
          continue;
        }
        RowsStay(old(items), items, seen, key, row);
        TablesStay(old(children), children, seen, key, row);
        survivors := survivors[key(row) := row];
        updates := updates + [Update(key(row), row)];
      }
      assert order[..|order|] == order;
    }

    /** The migration. `order` is the table newest first; `key` is the identity
        rule over the rows as they were read. */
    method Upgrade(order: seq<Id>, key: Id -> string)
      requires Listed(items, order)
      modifies this
      ensures RowsTrack(items, old(items), order, key)
      ensures TablesTrack(children, [Backfilled(old(items))] + old(children), order, key)
      ensures identity.Keys == items.Keys && forall x :: x in identity ==> identity[x] == key(x)
    {
      // One ref per item, from the column about to go.
      children := [Backfilled(items)] + children;
      ghost var start := items;
      var updates := MergeRows(order, key);
      WriteKeys(updates);
      forall x
        ensures x in identity <==> x in items
        ensures x in identity ==> identity[x] == key(x)
      {
        assert Find(items, x) == RowAfter(start, order, key, x);
        assert Update(key(x), x) in updates <==> x in items;
      }
    }

    /** The survivors' own keys, written in one batch. */
    method WriteKeys(updates: seq<Update>)
      modifies this`identity
      ensures forall x :: x in identity <==> exists u :: u in updates && u.item == x
      ensures forall x :: x in identity ==> Update(identity[x], x) in updates
    {
      identity := map[];
      for i := 0 to |updates|
        invariant forall x :: x in identity <==> exists u :: u in updates[..i] && u.item == x
        invariant forall x :: x in identity ==> Update(identity[x], x) in updates[..i]
      {
        assert updates[..i + 1] == updates[..i] + [updates[i]];
        identity := identity[updates[i].item := updates[i].key];
      }
      assert updates[..|updates|] == updates;
    }
  }

  // ------------------------------------------------------------- what it all means

  /** Newest first, the id breaking a tie. */
  predicate Newer(items: Items, x: Id, y: Id)
    requires x in items && y in items
  {
    items[x].updatedAt > items[y].updatedAt || (items[x].updatedAt == items[y].updatedAt && x >= y)
  }

  ghost predicate NewestFirst(items: Items, order: seq<Id>)
    requires Listed(items, order)
  {
    forall i, j :: 0 <= i < j < |order| ==> Newer(items, order[i], order[j])
  }

  /** The leader comes before every other row of its cluster. */
  lemma {:induction false} LeaderIsFirst(seen: seq<Id>, key: Id -> string, i: nat)
    requires i < |seen|
    ensures exists p :: 0 <= p <= i && Leader(seen, key, key(seen[i])) == Some(seen[p])
  {
    var n := |seen| - 1;
    assert seen == seen[..n] + [seen[n]];
    if i < n {
      LeaderIsFirst(seen[..n], key, i);
      var p :| 0 <= p <= i && Leader(seen[..n], key, key(seen[..n][i])) == Some(seen[..n][p]);
      assert Leader(seen, key, key(seen[i])) == Some(seen[p]);
    } else {
      var earlier := Leader(seen[..n], key, key(seen[n]));
      if earlier.Some? {
        var p :| 0 <= p < n && seen[..n][p] == earlier.value;
        assert Leader(seen, key, key(seen[i])) == Some(seen[p]);
      } else {
        assert Leader(seen, key, key(seen[i])) == Some(seen[n]);
      }
    }
  }

  /** The holder of a slot comes before every other row of the cluster with that slot. */
  lemma {:induction false} HolderIsFirst(t: Child, seen: seq<Id>, key: Id -> string, i: nat, slot: string)
    requires i < |seen| && Cell(seen[i], slot) in t
    ensures exists p :: 0 <= p <= i && Holder(t, seen, key, key(seen[i]), slot) == Some(seen[p])
  {
    var n := |seen| - 1;
    assert seen == seen[..n] + [seen[n]];
    if i < n {
      HolderIsFirst(t, seen[..n], key, i, slot);
      var p :| 0 <= p <= i && Holder(t, seen[..n], key, key(seen[..n][i]), slot) == Some(seen[..n][p]);
      assert Holder(t, seen, key, key(seen[i]), slot) == Some(seen[p]);
    } else {
      var earlier := Holder(t, seen[..n], key, key(seen[n]), slot);
      if earlier.Some? {
        var p :| 0 <= p < n && seen[..n][p] == earlier.value;
        assert Holder(t, seen, key, key(seen[i]), slot) == Some(seen[p]);
      } else {
        assert Holder(t, seen, key, key(seen[i]), slot) == Some(seen[n]);
      }
    }
  }

  lemma LeaderIsNewest(items: Items, order: seq<Id>, key: Id -> string, x: Id)
    requires Listed(items, order) && NewestFirst(items, order) && x in items
    ensures Rep(order, key, x) in items && key(Rep(order, key, x)) == key(x)
    ensures Newer(items, Rep(order, key, x), x)
  {
    var i :| 0 <= i < |order| && order[i] == x;
    LeaderIsFirst(order, key, i);
  }

  lemma HolderIsNewest(items: Items, t: Child, order: seq<Id>, key: Id -> string, x: Id, slot: string)
    requires Listed(items, order) && NewestFirst(items, order) && x in items && Cell(x, slot) in t
    ensures Holder(t, order, key, key(x), slot).Some?
    ensures Holder(t, order, key, key(x), slot).value in items
    ensures Newer(items, Holder(t, order, key, key(x), slot).value, x)
  {
    var i :| 0 <= i < |order| && order[i] == x;
    HolderIsFirst(t, order, key, i, slot);
  }

  /** One row per key is left: exactly the newest of its cluster. */
  lemma OneNewestRowPerKey(items: Items, order: seq<Id>, key: Id -> string, now: Items, x: Id)
    requires Listed(items, order) && NewestFirst(items, order) && RowsTrack(now, items, order, key)
    ensures x in now <==> x in items && forall y :: y in items && key(y) == key(x) ==> Newer(items, x, y)
    ensures x in items ==> Rep(order, key, x) in now
    ensures forall y :: x in now && y in now && key(x) == key(y) ==> x == y
  {
    assert Find(now, x) == RowAfter(items, order, key, x);
    if x in items {
      var r := Rep(order, key, x);
      LeaderIsNewest(items, order, key, x);
      assert Find(now, r) == RowAfter(items, order, key, r);
      assert Rep(order, key, r) == r;
      forall y | y in items && key(y) == key(x) && r == x
        ensures Newer(items, x, y)
      {
        LeaderIsNewest(items, order, key, y);
      }
    }
    forall y | x in now && y in now && key(x) == key(y)
      ensures x == y
    {
      assert Find(now, y) == RowAfter(items, order, key, y);
    }
  }

  /** Every surviving parent pointer is the survivor of the original parent's
      cluster, and names a row that is still there if the original did. */
  lemma ParentsAreSurvivors(items: Items, order: seq<Id>, key: Id -> string, now: Items, x: Id)
    requires Listed(items, order) && RowsTrack(now, items, order, key) && x in now
    ensures x in items && now[x].parent.Some? == items[x].parent.Some?
    ensures items[x].parent.Some? && items[x].parent.value in items ==>
              && now[x].parent.value in now
              && Leader(order, key, key(items[x].parent.value)) == now[x].parent
    ensures now[x].(parent := None) == items[x].(parent := None)
  {
    assert Find(now, x) == RowAfter(items, order, key, x);
    if items[x].parent.Some? && items[x].parent.value in items {
      var r := Rep(order, key, items[x].parent.value);
      assert Find(now, r) == RowAfter(items, order, key, r);
    }
  }

  /** Each child table is the newest-wins union of its clusters: a slot of a
      surviving row is filled exactly when some row of its cluster filled it, with
      what the newest of those had, and nothing hangs off a row that is gone. */
  lemma ChildrenAreTheUnion(items: Items, t: Child, order: seq<Id>, key: Id -> string, now: Items, after: Child, c: Cell)
    requires Listed(items, order) && NewestFirst(items, order) && RowsTrack(now, items, order, key)
    requires CellsTrack(after, t, order, key) && forall d :: d in t ==> d.item in items
    ensures c in after <==> c.item in now && exists y :: y in items && key(y) == key(c.item) && Cell(y, c.slot) in t
    ensures forall y :: c in after && y in items && key(y) == key(c.item) && Cell(y, c.slot) in t
              && (forall z :: z in items && key(z) == key(y) && Cell(z, c.slot) in t ==> Newer(items, y, z))
              ==> after[c] == t[Cell(y, c.slot)]
  {
    assert Find(after, c) == CellAfter(t, order, key, c);
    assert Find(now, c.item) == RowAfter(items, order, key, c.item);
    forall y | c in after && y in items && key(y) == key(c.item) && Cell(y, c.slot) in t
               && forall z :: z in items && key(z) == key(y) && Cell(z, c.slot) in t ==> Newer(items, y, z)
      ensures after[c] == t[Cell(y, c.slot)]
    {
      HolderIsNewest(items, t, order, key, y, c.slot);
      var h := Holder(t, order, key, key(y), c.slot).value;
      assert Newer(items, y, h);
    }
  }

  /** After the merge a survivor has one Plex ref, and it is its own. */
  lemma RefsAreTheSurvivorsOwn(items: Items, order: seq<Id>, key: Id -> string, now: Items, refs: Child)
    requires Listed(items, order) && RowsTrack(now, items, order, key)
    requires CellsTrack(refs, Backfilled(items), order, key)
    ensures refs == Backfilled(now)
    ensures forall c :: c in refs <==> c.item in now && c.slot == "plex"
    ensures forall x :: x in now ==> x in items && refs[Cell(x, "plex")] == items[x].ratingKey
  {
    forall x | x in now
      ensures x in items && now[x].ratingKey == items[x].ratingKey
    {
      assert Find(now, x) == RowAfter(items, order, key, x);
    }
    forall c
      ensures Find(refs, c) == Find(Backfilled(now), c)
    {
      OneRef(items, order, key, now, c);
      assert Find(refs, c) == CellAfter(Backfilled(items), order, key, c);
    }
    SameFind(refs, Backfilled(now));
  }

  lemma OneRef(items: Items, order: seq<Id>, key: Id -> string, now: Items, c: Cell)
    requires Listed(items, order) && RowsTrack(now, items, order, key)
    ensures CellAfter(Backfilled(items), order, key, c) == Find(Backfilled(now), c)
  {
    var t, x := Backfilled(items), c.item;
    assert Find(now, x) == RowAfter(items, order, key, x);
    assert c in Backfilled(now) <==> x in now && c == Cell(x, "plex");
    assert c in t <==> x in items && c == Cell(x, "plex");
    if x in now {
      if c.slot == "plex" {
        OwnerHolds(items, order, key, x);
      }
    }
  }

  /** A survivor, being first of its cluster, is the first with a Plex ref. */
  lemma OwnerHolds(items: Items, order: seq<Id>, key: Id -> string, x: Id)
    requires Listed(items, order) && x in items && Rep(order, key, x) == x
    ensures Holder(Backfilled(items), order, key, key(x), "plex") == Some(x)
  {
    var t := Backfilled(items);
    var i :| 0 <= i < |order| && order[i] == x;
    assert Cell(order[i], "plex") in t;
    HolderIsFirst(t, order, key, i, "plex");
    var p :| 0 <= p <= i && Holder(t, order, key, key(x), "plex") == Some(order[p]);
    LeaderIsFirst(order, key, p);
  }

  // ------------------------------------------------------------------- the preview

  predicate Names(merged: map<string, set<Id>>, k: string, x: Id) {
    k in merged && x in merged[k]
  }

  /** Looked at, and found to belong to an earlier row. */
  predicate Stale(seen: seq<Id>, key: Id -> string, x: Id) {
    x in seen && Rep(seen, key, x) != x
  }

  ghost predicate StaleTrack(merged: map<string, set<Id>>, seen: seq<Id>, key: Id -> string) {
    && (forall k, x :: Names(merged, k, x) <==> key(x) == k && Stale(seen, key, x))
    && (forall k :: k in merged ==> merged[k] != {})
  }

  lemma StaleNamed(merged: map<string, set<Id>>, seen: seq<Id>, key: Id -> string, row: Id, known: set<Id>)
    requires row !in seen && StaleTrack(merged, seen, key) && Leader(seen, key, key(row)).Some?
    requires known == if key(row) in merged then merged[key(row)] else {}
    ensures StaleTrack(merged[key(row) := known + {row}], seen + [row], key)
  {
    var after := merged[key(row) := known + {row}];
    forall k, x
      ensures Names(after, k, x) <==> key(x) == k && Stale(seen + [row], key, x)
    {
      RepStep(seen, key, row, x);
      assert Names(merged, k, x) <==> key(x) == k && Stale(seen, key, x);
    }
  }

  lemma NothingStale(merged: map<string, set<Id>>, seen: seq<Id>, key: Id -> string, row: Id)
    requires row !in seen && StaleTrack(merged, seen, key) && Leader(seen, key, key(row)).None?
    ensures StaleTrack(merged, seen + [row], key)
  {
    forall k, x
      ensures Names(merged, k, x) <==> key(x) == k && Stale(seen + [row], key, x)
    {
      RepStep(seen, key, row, x);
      assert Names(merged, k, x) <==> key(x) == k && Stale(seen, key, x);
    }
  }

  /** What the migration will merge, told without changing anything: the survivor
      of every key, and the rows merged into it where there are any. */
  method Preview(order: seq<Id>, key: Id -> string) returns (survivors: map<string, Id>, merged: map<string, set<Id>>)
    requires Distinct(order)
    ensures LeadersTrack(survivors, order, key) && StaleTrack(merged, order, key)
  {
    survivors, merged := map[], map[];
    for n := 0 to |order|
      invariant LeadersTrack(survivors, order[..n], key) && StaleTrack(merged, order[..n], key)
    {
      var row := order[n];
      assert order[..n + 1] == order[..n] + [row];
      LeadersStep(order[..n], key, row);
      assert Find(survivors, key(row)) == Leader(order[..n], key, key(row));
      if key(row) in survivors {
        var known := if key(row) in merged then merged[key(row)] else {};
        StaleNamed(merged, order[..n], key, row, known);
        merged := merged[key(row) := known + {row}];
      } else {
        NothingStale(merged, order[..n], key, row);
        survivors := survivors[key(row) := row];
      }
    }
    assert order[..|order|] == order;
  }

  /** Sorting newest first leaves no choice, so the preview and the migration walk
      the rows in one order though each sorts them for itself. */
  lemma OneOrder(items: Items, order: seq<Id>, other: seq<Id>)
    requires Listed(items, order) && NewestFirst(items, order)
    requires Listed(items, other) && NewestFirst(items, other)
    ensures order == other
  {
    SamePrefix(items, order, other, |order|);
    SamePrefix(items, other, order, |other|);
  }

  lemma {:induction false} SamePrefix(items: Items, order: seq<Id>, other: seq<Id>, n: nat)
    requires Listed(items, order) && NewestFirst(items, order)
    requires Listed(items, other) && NewestFirst(items, other) && n <= |order|
    ensures n <= |other| && order[..n] == other[..n]
  {
    if n > 0 {
      var m := n - 1;
      SamePrefix(items, order, other, m);
      assert forall i :: 0 <= i < m ==> order[i] == order[..m][i] == other[i];
      assert order[m] in items;
      var j :| 0 <= j < |other| && other[j] == order[m];
      assert j >= m;
      assert other[m] in items;
      var i :| 0 <= i < |order| && order[i] == other[m];
      assert i >= m;
      assert order[..n] == order[..m] + [order[m]] && other[..n] == other[..m] + [other[m]];
    }
  }

  /** The preview names exactly the rows the migration deletes. */
  lemma PreviewNamesWhatIsDeleted(items: Items, order: seq<Id>, key: Id -> string, now: Items, previewed: seq<Id>, x: Id)
    requires Listed(items, order) && NewestFirst(items, order) && RowsTrack(now, items, order, key)
    requires Listed(items, previewed) && NewestFirst(items, previewed)
    ensures x in items && x !in now <==> Stale(previewed, key, x)
  {
    OneOrder(items, order, previewed);
    assert Find(now, x) == RowAfter(items, order, key, x);
  }
}
