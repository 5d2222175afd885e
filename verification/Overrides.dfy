/** The overrides document: reading, writing and removing a setting by its dotted
    path, and rebuilding the document from a served configuration. */
module Overrides {

  import opened Options
  import opened Text

  /** A JSON value, or what an absent key reads as. */
  datatype Value =
    | Undefined
    | Str(text: string)
    | Literal(name: string)
    | List(items: seq<Value>)
    | Object(fields: Document)

  type Document = map<string, Value>

  function Get(d: Document, key: string): Value {
    if key in d then d[key] else Undefined
  }

  // ------------------------------------------------------------------ dotted paths

  function Head(path: string): string {
    Split(path, '.')[0]
  }

  /** What follows the head, joined again; none for a path of one segment. */
  function Rest(path: string): (rest: Option<string>)
    ensures rest.Some? ==> |rest.value| < |path|
  {
    JoinSplit(path, '.');
    var parts := Split(path, '.');
    if |parts| == 1 then None else Some(Join(parts[1..], '.'))
  }

  function HasPath(d: Document, path: string): bool
    decreases |path|
  {
    var head, rest := Head(path), Rest(path);
    if head !in d then false
    else if rest.None? then true
    else d[head].Object? && HasPath(d[head].fields, rest.value)
  }

  function ReadPath(d: Document, path: string): Value
    decreases |path|
  {
    var value, rest := Get(d, Head(path)), Rest(path);
    if rest.None? then value
    else if value.Object? then ReadPath(value.fields, rest.value)
    else Undefined
  }

  function WithPath(d: Document, path: string, value: Value): Document
    decreases |path|
  {
    var head, rest := Head(path), Rest(path);
    if rest.None? then d[head := value]
    else
      var child := Get(d, head);
      d[head := Object(WithPath(if child.Object? then child.fields else map[], rest.value, value))]
  }

  function WithoutPath(d: Document, path: string): Document
    decreases |path|
  {
    var head, rest := Head(path), Rest(path);
    if head !in d then d
    else if rest.None? then d - {head}
    else if !d[head].Object? then d
    else
      var pruned := WithoutPath(d[head].fields, rest.value);
      if pruned == map[] then d - {head} else d[head := Object(pruned)]
  }

  // ------------------------------------------------------------- the same by segment

  type Path = p: seq<string> | p != [] witness [""]

  function Has(d: Document, p: Path): bool
    decreases |p|
  {
    p[0] in d && (|p| == 1 || (d[p[0]].Object? && Has(d[p[0]].fields, p[1..])))
  }

  function Read(d: Document, p: Path): Value
    decreases |p|
  {
    if |p| == 1 then Get(d, p[0])
    else if Get(d, p[0]).Object? then Read(d[p[0]].fields, p[1..])
    else Undefined
  }

  function Below(d: Document, key: string): Document {
    if Get(d, key).Object? then d[key].fields else map[]
  }

  function With(d: Document, p: Path, value: Value): Document
    decreases |p|
  {
    d[p[0] := if |p| == 1 then value else Object(With(Below(d, p[0]), p[1..], value))]
  }

  function Without(d: Document, p: Path): Document
    decreases |p|
  {
    if p[0] !in d then d
    else if |p| == 1 then d - {p[0]}
    else if !d[p[0]].Object? then d
    else
      var pruned := Without(d[p[0]].fields, p[1..]);
      if pruned == map[] then d - {p[0]} else d[p[0] := Object(pruned)]
  }

  lemma PathSegments(path: string)
    ensures Split(path, '.') == if Rest(path).None? then [Head(path)] else [Head(path)] + Split(Rest(path).value, '.')
  {
    SplitSegments(path, '.');
    var parts := Split(path, '.');
    if |parts| > 1 {
      SplitJoin(parts[1..], '.');
    }
  }

  /** Splitting and joining again at every level is the same as splitting once. */
  lemma {:induction false} DottedPaths(d: Document, path: string, value: Value)
    ensures HasPath(d, path) == Has(d, Split(path, '.'))
    ensures ReadPath(d, path) == Read(d, Split(path, '.'))
    ensures WithPath(d, path, value) == With(d, Split(path, '.'), value)
    ensures WithoutPath(d, path) == Without(d, Split(path, '.'))
    decreases |path|
  {
    PathSegments(path);
    var rest := Rest(path);
    if rest.Some? {
      DottedPaths(Below(d, Head(path)), rest.value, value);
    }
  }

  // ------------------------------------------------------------------ the lens laws

  predicate Prefix(p: seq<string>, q: seq<string>): (b: bool)
    ensures b <==> p <= q
  {
    assert p != [] && q != [] ==> p == [p[0]] + p[1..] && q == [q[0]] + q[1..];
    p == [] || (q != [] && p[0] == q[0] && Prefix(p[1..], q[1..]))
  }

  predicate Apart(p: Path, q: Path) {
    !Prefix(p, q) && !Prefix(q, p)
  }

  lemma {:induction false} ReadAfterWrite(d: Document, p: Path, value: Value)
    ensures Has(With(d, p, value), p)
    ensures Read(With(d, p, value), p) == value
    decreases |p|
  {
    if |p| > 1 {
      ReadAfterWrite(Below(d, p[0]), p[1..], value);
    }
  }

  lemma {:induction false} WriteAfterWrite(d: Document, p: Path, value: Value, again: Value)
    ensures With(With(d, p, value), p, again) == With(d, p, again)
    decreases |p|
  {
    if |p| > 1 {
      WriteAfterWrite(Below(d, p[0]), p[1..], value, again);
    }
  }

  /** Writing back what was read changes nothing exactly where there was a setting. */
  lemma {:induction false} WriteBackIff(d: Document, p: Path)
    ensures With(d, p, Read(d, p)) == d <==> Has(d, p)
  {
    if Has(d, p) {
      WriteBack(d, p);
    } else {
      ReadAfterWrite(d, p, Read(d, p));
    }
  }

  lemma {:induction false} WriteBack(d: Document, p: Path)
    requires Has(d, p)
    ensures With(d, p, Read(d, p)) == d
    decreases |p|
  {
    if |p| > 1 {
      WriteBack(Below(d, p[0]), p[1..]);
    }
  }

  /** Neither a write nor a removal is seen from a path that does not lie on it. */
  lemma {:induction false} ElsewhereUntouched(d: Document, p: Path, q: Path, value: Value)
    requires Apart(p, q)
    ensures Read(With(d, p, value), q) == Read(d, q) && (Has(With(d, p, value), q) <==> Has(d, q))
    ensures Read(Without(d, p), q) == Read(d, q) && (Has(Without(d, p), q) <==> Has(d, q))
    decreases |p|
  {
    if p[0] == q[0] {
      assert |p| > 1 && |q| > 1;
      ElsewhereUntouched(Below(d, p[0]), p[1..], q[1..], value);
    }
  }

  /** From below the path written, only the value is seen... */
  lemma {:induction false} BelowAWrite(d: Document, p: Path, q: Path, value: Value)
    requires Prefix(p, q) && p != q
    ensures Read(With(d, p, value), q) == if value.Object? then Read(value.fields, q[|p|..]) else Undefined
    decreases |p|
  {
    assert p[1..] != q[1..] by {
      assert p == [p[0]] + p[1..] && q == [q[0]] + q[1..];
    }
    if |p| > 1 {
      BelowAWrite(Below(d, p[0]), p[1..], q[1..], value);
      assert q[1..][|p| - 1..] == q[|p|..];
    }
  }

  /** The object at a path, an empty one standing for whatever is none. */
  function ObjectAt(d: Document, q: Path): Document {
    if Read(d, q).Object? then Read(d, q).fields else map[]
  }

  /** ...and from above it, the object that was there with the value written in. */
  lemma {:induction false} AboveAWrite(d: Document, p: Path, q: Path, value: Value)
    requires Prefix(q, p) && p != q
    ensures Read(With(d, p, value), q) == Object(With(ObjectAt(d, q), p[|q|..], value))
    decreases |p|
  {
    if |q| > 1 {
      var child, rest := Below(d, p[0]), p[1..];
      assert p == [p[0]] + rest && q == [q[0]] + q[1..];
      AboveAWrite(child, rest, q[1..], value);
      ObjectBelow(d, q);
      assert rest[|q| - 1..] == p[|q|..];
      assert With(d, p, value)[p[0]] == Object(With(child, rest, value));
    }
  }

  lemma ObjectBelow(d: Document, q: Path)
    requires |q| > 1
    ensures ObjectAt(d, q) == ObjectAt(Below(d, q[0]), q[1..])
  {
  }

  lemma {:induction false} GoneAfterRemoval(d: Document, p: Path)
    ensures !Has(Without(d, p), p)
    decreases |p|
  {
    if |p| > 1 && Get(d, p[0]).Object? {
      GoneAfterRemoval(d[p[0]].fields, p[1..]);
    }
  }

  /** A removal leaves no empty object behind on the way to what it removed. */
  lemma {:induction false} NoEmptyBranchLeft(d: Document, p: Path, q: Path)
    requires Prefix(q, p) && q != p
    ensures Read(Without(d, p), q) != Object(map[])
    decreases |p|
  {
    assert p[1..] != q[1..] by {
      assert p == [p[0]] + p[1..] && q == [q[0]] + q[1..];
    }
    if Get(d, p[0]).Object? && |q| > 1 {
      NoEmptyBranchLeft(d[p[0]].fields, p[1..], q[1..]);
    }
  }

  /** Every branch on the way to `p` that is there is an object... */
  predicate Open(d: Document, p: Path)
    decreases |p|
  {
    |p| == 1 || p[0] !in d || (d[p[0]].Object? && Open(d[p[0]].fields, p[1..]))
  }

  /** ...and none is an empty one. */
  predicate Unpruned(d: Document, p: Path)
    decreases |p|
  {
    |p| == 1 || !Get(d, p[0]).Object? || (d[p[0]].fields != map[] && Unpruned(d[p[0]].fields, p[1..]))
  }

  lemma UnprunedIff(d: Document, p: Path)
    ensures Unpruned(d, p) <==> forall q: Path :: Prefix(q, p) && q != p ==> Read(d, q) != Object(map[])
  {
    if Unpruned(d, p) {
      forall q: Path | Prefix(q, p) && q != p {
        UnprunedAt(d, p, q);
      }
    } else {
      var q := EmptyOnTheWay(d, p);
    }
  }

  lemma {:induction false} UnprunedAt(d: Document, p: Path, q: Path)
    requires Unpruned(d, p) && Prefix(q, p) && q != p
    ensures Read(d, q) != Object(map[])
    decreases |p|
  {
    if |q| > 1 && Get(d, p[0]).Object? {
      assert p == [p[0]] + p[1..] && q == [q[0]] + q[1..];
      UnprunedAt(d[p[0]].fields, p[1..], q[1..]);
    }
  }

  lemma {:induction false} EmptyOnTheWay(d: Document, p: Path) returns (q: Path)
    requires !Unpruned(d, p)
    ensures Prefix(q, p) && q != p && Read(d, q) == Object(map[])
    decreases |p|
  {
    var child := d[p[0]].fields;
    if child == map[] {
      q := [p[0]];
    } else {
      var lower := EmptyOnTheWay(child, p[1..]);
      q := [p[0]] + lower;
      assert q[1..] == lower && p == [p[0]] + p[1..];
    }
  }

  /** A removal changes nothing exactly when there was nothing to remove and no
      empty object stood on the way: one that did is pruned as if just emptied. */
  lemma {:induction false} RemovalChangesNothingIff(d: Document, p: Path)
    ensures Without(d, p) == d <==> !Has(d, p) && Unpruned(d, p)
    decreases |p|
  {
    if |p| > 1 && Get(d, p[0]).Object? {
      RemovalChangesNothingIff(d[p[0]].fields, p[1..]);
      EmptyHasNothing(d[p[0]].fields, p[1..]);
    }
  }

  lemma EmptyHasNothing(d: Document, p: Path)
    ensures d == map[] ==> Without(d, p) == map[] && !Has(d, p)
  {
  }

  /** A removal undoes a write exactly when the path was free, the branches on its
      way were objects, and none was empty. */
  lemma {:induction false} RemovalUndoesWriteIff(d: Document, p: Path, value: Value)
    ensures Without(With(d, p, value), p) == d <==> !Has(d, p) && Open(d, p) && Unpruned(d, p)
    decreases |p|
  {
    if |p| == 1 {
      assert Has(d, p) ==> p[0] in d && p[0] !in Without(With(d, p, value), p);
      assert !Has(d, p) ==> Without(With(d, p, value), p) == d;
    } else {
      var child := Below(d, p[0]);
      RemovalUndoesWriteIff(child, p[1..], value);
      var undone := Without(With(child, p[1..], value), p[1..]);
      assert Without(With(d, p, value), p) == if undone == map[] then d[p[0] := Undefined] - {p[0]} else d[p[0] := Object(undone)];
      if p[0] !in d {
        NothingOnTheWay(p[1..]);
        assert d[p[0] := Undefined] - {p[0]} == d;
      } else if d[p[0]].Object? {
        if undone == map[] {
          assert p[0] !in d[p[0] := Undefined] - {p[0]};
          EmptyHasNothing(child, p[1..]);
        } else {
          assert (d[p[0] := Object(undone)])[p[0]] == Object(undone);
          assert undone == child ==> d[p[0] := Object(undone)] == d;
        }
      } else {
        NothingOnTheWay(p[1..]);
        assert p[0] !in d[p[0] := Undefined] - {p[0]};
      }
    }
  }

  lemma NothingOnTheWay(p: Path)
    ensures !Has(map[], p) && Open(map[], p) && Unpruned(map[], p)
  {
  }

  /** Removing a setting that is not there can change the document. */
  lemma AnEmptySectionIsPruned(section: string, key: string)
    requires '.' !in section && '.' !in key
    ensures var d: Document := map[section := Object(map[])];
            !HasPath(d, section + "." + key) && WithoutPath(d, section + "." + key) == map[]
  {
    var d: Document := map[section := Object(map[])];
    var p: Path := [section] + [key];
    SplitHead(section, key, '.');
    SplitHead(key, "", '.');
    DottedPaths(d, section + "." + key, Undefined);
    assert p[1..] == [key];
    EmptyHasNothing(map[], [key]);
  }

  // ------------------------------------------------------- rebuilding the document

  const PROVENANCE_KEYS: seq<string> := [
    "frozen_paths", "redacted_paths", "keep_sentinel", "field_descriptions", "field_types",
    "computed_paths", "live_paths", "overrides_revision", "restart_paths", "secrets"]

  function StringList(items: seq<Value>): seq<string> {
    if items == [] then []
    else (if items[0].Str? then [items[0].text] else []) + StringList(items[1..])
  }

  /** The paths to redact and what to put there; without a marker to put, no path. */
  function KeepContract(config: Document): (keep: (seq<string>, string))
    ensures keep.1 == "" ==> keep.0 == []
  {
    var sentinel := Get(config, "keep_sentinel");
    if !sentinel.Str? || sentinel.text == "" then ([], "")
    else
      var paths := Get(config, "redacted_paths");
      (if paths.List? then StringList(paths.items) else [], sentinel.text)
  }

  function Settings(config: Document): Document {
    map key | key in config && key !in PROVENANCE_KEYS :: config[key]
  }

  function Redacted(d: Document, paths: seq<string>, sentinel: string): Document {
    if paths == [] then d
    else
      var n := |paths| - 1;
      var before := Redacted(d, paths[..n], sentinel);
      if ReadPath(before, paths[n]) == Undefined then before else WithPath(before, paths[n], Str(sentinel))
  }

  function Rebuilt(config: Document): Document {
    var keep := KeepContract(config);
    Redacted(Settings(config), keep.0, keep.1)
  }

  method DocumentFromConfig(config: Document, entries: seq<string>) returns (document: Document)
    requires forall key :: key in config <==> key in entries
    ensures document == Rebuilt(config)
  {
    var keep := KeepContract(config);
    document := map[];
    for i := 0 to |entries|
      invariant forall key :: key in document <==> key in entries[..i] && key !in PROVENANCE_KEYS
      invariant forall key :: key in document ==> document[key] == config[key]
    {
      assert entries[..i + 1] == entries[..i] + [entries[i]];
      if entries[i] in PROVENANCE_KEYS {
        continue;
      }
      document := document[entries[i] := config[entries[i]]];
    }
    assert entries[..|entries|] == entries;
    assert document == Settings(config);
    for i := 0 to |keep.0|
      invariant document == Redacted(Settings(config), keep.0[..i], keep.1)
    {
      assert keep.0[..i + 1][..i] == keep.0[..i];
      if ReadPath(document, keep.0[i]) == Undefined {
        continue;
      }
      document := WithPath(document, keep.0[i], Str(keep.1));
    }
    assert keep.0[..|keep.0|] == keep.0;
  }

  predicate Served(d: Document, p: Path) {
    Read(d, p) != Undefined
  }

  /** A served path lies strictly above `q`: the sentinel has replaced all of it. */
  predicate Covered(d: Document, paths: seq<string>, q: Path) {
    exists i :: 0 <= i < |paths| && Hides(d, Split(paths[i], '.'), q)
  }

  predicate Hides(d: Document, p: Path, q: Path) {
    Served(d, p) && Prefix(p, q) && p != q
  }

  predicate Listed(paths: seq<string>, q: Path) {
    exists i :: 0 <= i < |paths| && Split(paths[i], '.') == q
  }

  /** What is served below an object is served above it. */
  lemma {:induction false} ServedAbove(d: Document, p: Path, q: Path)
    requires Prefix(q, p) && p != q && Served(d, p)
    ensures Read(d, q).Object?
    decreases |p|
  {
    assert p[1..] != q[1..] by {
      assert p == [p[0]] + p[1..] && q == [q[0]] + q[1..];
    }
    if |q| > 1 {
      ServedAbove(Below(d, p[0]), p[1..], q[1..]);
    }
  }

  lemma SnocCovered(d: Document, paths: seq<string>, q: Path)
    requires paths != []
    ensures var n := |paths| - 1;
            && (Covered(d, paths, q) <==> Covered(d, paths[..n], q) || Hides(d, Split(paths[n], '.'), q))
            && (Listed(paths, q) <==> Listed(paths[..n], q) || Split(paths[n], '.') == q)
  {
    var n := |paths| - 1;
    assert forall i :: 0 <= i < n ==> paths[..n][i] == paths[i];
    if Covered(d, paths[..n], q) {
      var i :| 0 <= i < n && Hides(d, Split(paths[..n][i], '.'), q);
      assert Hides(d, Split(paths[i], '.'), q);
    }
    if Listed(paths[..n], q) {
      var i :| 0 <= i < n && Split(paths[..n][i], '.') == q;
      assert Split(paths[i], '.') == q;
    }
  }

  /** A path reads nothing exactly when nothing was served at it or something above
      it was redacted, and a redacted path that reads anything reads the sentinel. */
  lemma {:induction false} RedactedReads(d: Document, paths: seq<string>, sentinel: string, q: Path)
    ensures Read(Redacted(d, paths, sentinel), q) == Undefined <==> !Served(d, q) || Covered(d, paths, q)
    ensures Listed(paths, q) ==> Read(Redacted(d, paths, sentinel), q) in {Str(sentinel), Undefined}
  {
    if paths != [] {
      var n := |paths| - 1;
      var before, p := Redacted(d, paths[..n], sentinel), Split(paths[n], '.');
      RedactedReads(d, paths[..n], sentinel, q);
      RedactedReads(d, paths[..n], sentinel, p);
      DottedPaths(before, paths[n], Str(sentinel));
      SnocCovered(d, paths, q);
      if Read(before, p) == Undefined {
        if Hides(d, p, q) {
          CoveredBelow(d, paths[..n], p, q);
        }
      } else {
        OneRedaction(d, before, p, q, sentinel);
      }
    }
  }

  lemma CoveredBelow(d: Document, paths: seq<string>, p: Path, q: Path)
    requires Covered(d, paths, p) && Prefix(p, q)
    ensures Covered(d, paths, q)
  {
    var i :| 0 <= i < |paths| && Hides(d, Split(paths[i], '.'), p);
    assert Split(paths[i], '.') <= p <= q;
    assert Hides(d, Split(paths[i], '.'), q);
  }

  /** What one sentinel does to every other path. */
  lemma OneRedaction(d: Document, before: Document, p: Path, q: Path, sentinel: string)
    requires Served(before, p)
    ensures var after := With(before, p, Str(sentinel));
            && (Prefix(p, q) && p != q ==> Read(after, q) == Undefined)
            && (p == q ==> Read(after, q) == Str(sentinel))
            && (Prefix(q, p) && p != q ==> Read(before, q).Object? && Read(after, q).Object?)
            && (Apart(p, q) ==> Read(after, q) == Read(before, q) && (Has(after, q) <==> Has(before, q)))
  {
    if p == q {
      ReadAfterWrite(before, p, Str(sentinel));
    } else if Prefix(p, q) {
      BelowAWrite(before, p, q, Str(sentinel));
    } else if Prefix(q, p) {
      AboveAWrite(before, p, q, Str(sentinel));
      ServedAbove(before, p, q);
    } else {
      ElsewhereUntouched(before, p, q, Str(sentinel));
    }
  }

  lemma {:induction false} RedactedElsewhere(d: Document, paths: seq<string>, sentinel: string, q: Path)
    requires forall i :: 0 <= i < |paths| ==> Apart(Split(paths[i], '.'), q)
    ensures Read(Redacted(d, paths, sentinel), q) == Read(d, q)
    ensures Has(Redacted(d, paths, sentinel), q) <==> Has(d, q)
  {
    if paths != [] {
      var n := |paths| - 1;
      RedactedElsewhere(d, paths[..n], sentinel, q);
      var before, p := Redacted(d, paths[..n], sentinel), Split(paths[n], '.');
      DottedPaths(before, paths[n], Str(sentinel));
      ElsewhereUntouched(before, p, q, Str(sentinel));
    }
  }

  lemma {:induction false} RedactedKeys(d: Document, paths: seq<string>, sentinel: string)
    ensures Redacted(d, paths, sentinel).Keys == d.Keys
  {
    if paths != [] {
      var n := |paths| - 1;
      RedactedKeys(d, paths[..n], sentinel);
      var before, p := Redacted(d, paths[..n], sentinel), Split(paths[n], '.');
      DottedPaths(before, paths[n], Str(sentinel));
      assert Read(before, p) != Undefined ==> p[0] in before;
    }
  }

  /** No served value is sent back at a redacted path: it reads the sentinel, or
      nothing if it was not served or a path above it was redacted too. */
  lemma NoServedValueIsSentBack(config: Document, path: string)
    requires path in KeepContract(config).0
    ensures var (paths, sentinel) := KeepContract(config);
            ReadPath(Rebuilt(config), path) ==
            if ReadPath(Settings(config), path) == Undefined || Covered(Settings(config), paths, Split(path, '.'))
            then Undefined
            else Str(sentinel)
  {
    var keep := KeepContract(config);
    var i :| 0 <= i < |keep.0| && keep.0[i] == path;
    assert Listed(keep.0, Split(path, '.'));
    RedactedReads(Settings(config), keep.0, keep.1, Split(path, '.'));
    DottedPaths(Settings(config), path, Undefined);
    DottedPaths(Rebuilt(config), path, Undefined);
  }

  /** Every other setting is sent back as it was served. */
  lemma OtherSettingsAreKept(config: Document, path: string)
    requires forall i :: 0 <= i < |KeepContract(config).0| ==>
               Apart(Split(KeepContract(config).0[i], '.'), Split(path, '.'))
    ensures ReadPath(Rebuilt(config), path) ==
            if Head(path) in PROVENANCE_KEYS then Undefined else ReadPath(config, path)
    ensures HasPath(Rebuilt(config), path) <==> Head(path) !in PROVENANCE_KEYS && HasPath(config, path)
  {
    var keep := KeepContract(config);
    RedactedElsewhere(Settings(config), keep.0, keep.1, Split(path, '.'));
    DottedPaths(Rebuilt(config), path, Undefined);
    DottedPaths(config, path, Undefined);
    assert Get(Settings(config), Head(path)) ==
           if Head(path) in PROVENANCE_KEYS then Undefined else Get(config, Head(path));
  }

  /** The document has every served key but the provenance ones, and no other. */
  lemma OnlySettingsAreSent(config: Document)
    ensures Rebuilt(config).Keys == set key | key in config && key !in PROVENANCE_KEYS
  {
    var keep := KeepContract(config);
    RedactedKeys(Settings(config), keep.0, keep.1);
  }

  predicate UsableMarker(config: Document) {
    Get(config, "keep_sentinel").Str? && Get(config, "keep_sentinel").text != ""
  }

  /** A path is redacted exactly when the response names it and carries a marker. */
  lemma RedactedIff(config: Document, path: string)
    ensures path in KeepContract(config).0 <==>
            && UsableMarker(config)
            && Get(config, "redacted_paths").List? && Str(path) in Get(config, "redacted_paths").items
    ensures UsableMarker(config) ==> Str(KeepContract(config).1) == config["keep_sentinel"]
  {
    if Get(config, "redacted_paths").List? {
      StringsOnly(Get(config, "redacted_paths").items, path);
    }
  }

  lemma {:induction false} StringsOnly(items: seq<Value>, text: string)
    ensures text in StringList(items) <==> Str(text) in items
  {
    if items != [] {
      StringsOnly(items[1..], text);
      assert items == [items[0]] + items[1..];
    }
  }
}
