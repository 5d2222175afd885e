/** `String.split` and `Array.join` on a one-character separator. */
module Text {

  /** The parts of a text one character longer at the front. */
  function Consed(c: char, parts: seq<string>, sep: char): (longer: seq<string>)
    requires parts != []
    ensures longer != []
  {
    if c == sep then [""] + parts else [[c] + parts[0]] + parts[1..]
  }

  function Split(s: string, sep: char): (parts: seq<string>)
    ensures parts != []
  {
    if s == "" then [""] else Consed(s[0], Split(s[1..], sep), sep)
  }

  function Join(parts: seq<string>, sep: char): string
    requires parts != []
  {
    if |parts| == 1 then parts[0] else parts[0] + [sep] + Join(parts[1..], sep)
  }

  predicate Segments(parts: seq<string>, sep: char) {
    parts != [] && forall i :: 0 <= i < |parts| ==> sep !in parts[i]
  }

  lemma {:induction false} SplitSegments(s: string, sep: char)
    ensures Segments(Split(s, sep), sep)
  {
    if s != "" {
      SplitSegments(s[1..], sep);
    }
  }

  lemma {:induction false} JoinSplit(s: string, sep: char)
    ensures Join(Split(s, sep), sep) == s
  {
    if s != "" {
      var rest := Split(s[1..], sep);
      JoinSplit(s[1..], sep);
      assert s == [s[0]] + s[1..];
      if s[0] == sep {
        assert ([""] + rest)[1..] == rest;
      } else {
        assert ([[s[0]] + rest[0]] + rest[1..])[1..] == rest[1..];
      }
    }
  }

  /** A separator-free head is split off whole. */
  lemma {:induction false} SplitHead(head: string, tail: string, sep: char)
    requires sep !in head
    ensures Split(head + [sep] + tail, sep) == [head] + Split(tail, sep)
    ensures Split(head, sep) == [head]
  {
    if head == "" {
      assert ("" + [sep] + tail)[1..] == tail;
    } else {
      SplitHead(head[1..], tail, sep);
      assert head == [head[0]] + head[1..];
      assert (head + [sep] + tail)[1..] == head[1..] + [sep] + tail;
    }
  }

  lemma {:induction false} SplitJoin(parts: seq<string>, sep: char)
    requires Segments(parts, sep)
    ensures Split(Join(parts, sep), sep) == parts
  {
    if |parts| == 1 {
      SplitHead(parts[0], "", sep);
    } else {
      SplitJoin(parts[1..], sep);
      SplitHead(parts[0], Join(parts[1..], sep), sep);
    }
  }

  function Last(parts: seq<string>): string
    requires parts != []
  {
    parts[|parts| - 1]
  }

  function Front(parts: seq<string>): seq<string>
    requires parts != []
  {
    parts[..|parts| - 1]
  }

  /** What has been split off stays so; only the last part meets what follows. */
  lemma {:induction false} SplitAppend(a: string, b: string, sep: char)
    ensures Split(a + b, sep) == Front(Split(a, sep)) + Split(Last(Split(a, sep)) + b, sep)
  {
    if a == "" {
      assert a + b == b && "" + b == b;
    } else {
      SplitAppend(a[1..], b, sep);
      assert (a + b)[1..] == a[1..] + b;
      ConsedAppend(a[0], Split(a[1..], sep), b, sep);
    }
  }

  lemma ConsedAppend(c: char, rest: seq<string>, b: string, sep: char)
    requires rest != []
    ensures var parts := Consed(c, rest, sep);
            Consed(c, Front(rest) + Split(Last(rest) + b, sep), sep) == Front(parts) + Split(Last(parts) + b, sep)
  {
    var tail := Split(Last(rest) + b, sep);
    if c == sep {
      assert Front([""] + rest) == [""] + Front(rest);
      assert [""] + (Front(rest) + tail) == [""] + Front(rest) + tail;
    } else if |rest| == 1 {
      LongerOnly(c, rest, b, sep);
    } else {
      LongerHead([c] + rest[0], rest, tail);
    }
  }

  lemma LongerOnly(c: char, rest: seq<string>, b: string, sep: char)
    requires |rest| == 1 && c != sep
    ensures var parts := Consed(c, rest, sep);
            Consed(c, Front(rest) + Split(Last(rest) + b, sep), sep) == Front(parts) + Split(Last(parts) + b, sep)
  {
    var line := [c] + rest[0];
    assert Consed(c, rest, sep) == [line] && Front([line]) == [] && Last([line]) == line;
    assert (line + b)[1..] == rest[0] + b;
    assert Front(rest) + Split(rest[0] + b, sep) == Split(rest[0] + b, sep);
    assert [] + Split(line + b, sep) == Split(line + b, sep);
  }

  lemma LongerHead(head: string, rest: seq<string>, tail: seq<string>)
    requires |rest| > 1
    ensures var parts := [head] + rest[1..];
            && Last(parts) == Last(rest)
            && [head] + (Front(rest) + tail)[1..] == Front(parts) + tail
            && (Front(rest) + tail)[0] == rest[0]
  {
    assert Front([head] + rest[1..]) == [head] + Front(rest)[1..];
    assert (Front(rest) + tail)[1..] == Front(rest)[1..] + tail;
  }
}
