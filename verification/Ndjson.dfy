/** The line loop of the NDJSON stream: text arrives in arbitrary chunks, and
    every complete non-blank line is parsed and handed on. */
module Ndjson {

  import opened Options
  import opened Text

  /** How the reads end: the server closes the stream, or the transport fails. */
  datatype End = Closed | Broken

  datatype Outcome = Resolved | NotJson | TransportError

  /** The callbacks, in the order they are made. */
  datatype Call<V> = OnValue(value: V) | OnChunk

  /** The characters `trim` removes. */
  predicate IsSpace(c: char) {
    || '\t' <= c <= '\r'
    || c in {' ', '\U{A0}', '\U{1680}', '\U{2028}', '\U{2029}', '\U{202F}', '\U{205F}', '\U{3000}', '\U{FEFF}'}
    || '\U{2000}' <= c <= '\U{200A}'
  }

  function TrimStart(s: string): string {
    if s != "" && IsSpace(s[0]) then TrimStart(s[1..]) else s
  }

  function TrimEnd(s: string): string {
    if s != "" && IsSpace(s[|s| - 1]) then TrimEnd(s[..|s| - 1]) else s
  }

  function Trim(s: string): string {
    TrimEnd(TrimStart(s))
  }

  lemma {:induction false} TrimStartStops(s: string)
    ensures TrimStart(s) == "" <==> forall i :: 0 <= i < |s| ==> IsSpace(s[i])
    ensures TrimStart(s) != "" ==> !IsSpace(TrimStart(s)[0])
  {
    if s != "" && IsSpace(s[0]) {
      TrimStartStops(s[1..]);
      assert s == [s[0]] + s[1..];
    }
  }

  lemma {:induction false} TrimEndKeepsHead(s: string)
    requires s != "" && !IsSpace(s[0])
    ensures TrimEnd(s) != ""
  {
    if IsSpace(s[|s| - 1]) {
      TrimEndKeepsHead(s[..|s| - 1]);
    }
  }

  /** The lines the loop passes over are the ones of nothing but spaces. */
  lemma BlankIff(s: string)
    ensures Trim(s) == "" <==> forall i :: 0 <= i < |s| ==> IsSpace(s[i])
  {
    TrimStartStops(s);
    if TrimStart(s) != "" {
      TrimEndKeepsHead(TrimStart(s));
    }
  }

  /** What the loop makes of one line. */
  datatype Reading<V> = Blank | Value(value: V) | Bad

  function Reader<V>(parse: string -> Option<V>): string -> Reading<V> {
    (line: string) =>
      if Trim(line) == "" then Blank
      else if parse(line).None? then Bad
      else Value(parse(line).value)
  }

  /** The values of these lines, up to the first that does not parse. */
  function Values<V>(lines: seq<string>, read: string -> Reading<V>): seq<V> {
    if lines == [] then []
    else match read(lines[0])
      case Blank => Values(lines[1..], read)
      case Value(v) => [v] + Values(lines[1..], read)
      case Bad => []
  }

  predicate Parses<V>(lines: seq<string>, read: string -> Reading<V>) {
    forall i :: 0 <= i < |lines| ==> !read(lines[i]).Bad?
  }

  function Delivered<V>(calls: seq<Call<V>>): seq<V> {
    if calls == [] then []
    else
      var n := |calls| - 1;
      Delivered(calls[..n]) + if calls[n].OnValue? then [calls[n].value] else []
  }

  function Chunks<V>(calls: seq<Call<V>>): nat {
    if calls == [] then 0
    else
      var n := |calls| - 1;
      Chunks(calls[..n]) + if calls[n].OnChunk? then 1 else 0
  }

  lemma OneMore<V>(calls: seq<Call<V>>, call: Call<V>)
    ensures Delivered(calls + [call]) == Delivered(calls) + if call.OnValue? then [call.value] else []
    ensures Chunks(calls + [call]) == Chunks(calls) + if call.OnChunk? then 1 else 0
  {
    assert (calls + [call])[..|calls|] == calls;
  }

  function Flatten(chunks: seq<string>): string {
    if chunks == [] then "" else Flatten(chunks[..|chunks| - 1]) + chunks[|chunks| - 1]
  }

  /** The newline-terminated lines of a text. */
  function Lines(text: string): seq<string> {
    Front(Split(text, '\n'))
  }

  lemma {:induction false} ValuesAppend<V>(a: seq<string>, b: seq<string>, read: string -> Reading<V>)
    ensures Values(a + b, read) == Values(a, read) + if Parses(a, read) then Values(b, read) else []
  {
    if a == [] {
      assert a + b == b;
    } else {
      ValuesAppend(a[1..], b, read);
      assert (a + b)[1..] == a[1..] + b && (a + b)[0] == a[0];
      assert Parses(a, read) <==> !read(a[0]).Bad? && Parses(a[1..], read) by {
        assert forall i :: 0 < i < |a| ==> a[i] == a[1..][i - 1];
      }
    }
  }

  /** Line `n` is there, and no line up to it is bad. */
  predicate Reached<V>(lines: seq<string>, n: nat, read: string -> Reading<V>) {
    n < |lines| && forall i :: 0 <= i <= n ==> !read(lines[i]).Bad?
  }

  /** Line `at[i]` gives value `i`. */
  ghost predicate Gives<V>(lines: seq<string>, values: seq<V>, at: seq<nat>, i: nat, read: string -> Reading<V>) {
    && i < |at| && i < |values|
    && Reached(lines, at[i], read) && read(lines[at[i]]) == Value(values[i])
  }

  /** Where the values come from: the positions, in order, of the lines that have one
      and are reached -- each of those once, and no other. */
  lemma {:induction false} ValuesAreTheLines<V>(lines: seq<string>, read: string -> Reading<V>) returns (at: seq<nat>)
    ensures |at| == |Values(lines, read)|
    ensures forall i :: 0 <= i < |at| ==> Gives(lines, Values(lines, read), at, i, read)
    ensures forall i, j :: 0 <= i < j < |at| ==> at[i] < at[j]
    ensures forall n: nat :: Reached(lines, n, read) && read(lines[n]).Value? ==> n in at
  {
    if lines == [] {
      at := [];
    } else {
      var init, last := lines[..|lines| - 1], lines[|lines| - 1];
      var front := ValuesAreTheLines(init, read);
      assert lines == init + [last];
      at := Further(init, last, front, read);
    }
  }

  lemma ValuesSnoc<V>(init: seq<string>, last: string, read: string -> Reading<V>)
    ensures Values(init + [last], read) ==
            Values(init, read) + if Parses(init, read) && read(last).Value? then [read(last).value] else []
  {
    ValuesAppend(init, [last], read);
    assert [last][1..] == [];
  }

  lemma ReachedSnoc<V>(init: seq<string>, last: string, n: nat, read: string -> Reading<V>)
    ensures n < |init| ==> (Reached(init + [last], n, read) <==> Reached(init, n, read))
    ensures n >= |init| ==> (Reached(init + [last], n, read) <==> n == |init| && Parses(init, read) && !read(last).Bad?)
  {
    var lines := init + [last];
    assert lines[|init|] == last && forall i :: 0 <= i < |init| ==> lines[i] == init[i];
  }

  lemma GivesSnoc<V>(init: seq<string>, last: string, values: seq<V>, more: seq<V>, front: seq<nat>, back: seq<nat>, i: nat,
                     read: string -> Reading<V>)
    requires Gives(init, values, front, i, read)
    ensures Gives(init + [last], values + more, front + back, i, read)
  {
    ReachedSnoc(init, last, front[i], read);
    assert (init + [last])[front[i]] == init[front[i]];
    assert (front + back)[i] == front[i] && (values + more)[i] == values[i];
  }

  /** One more line: its position, if it has a value and is reached. */
  lemma Further<V>(init: seq<string>, last: string, front: seq<nat>, read: string -> Reading<V>) returns (at: seq<nat>)
    requires |front| == |Values(init, read)|
    requires forall i :: 0 <= i < |front| ==> Gives(init, Values(init, read), front, i, read)
    requires forall i, j :: 0 <= i < j < |front| ==> front[i] < front[j]
    requires forall n: nat :: Reached(init, n, read) && read(init[n]).Value? ==> n in front
    ensures |at| == |Values(init + [last], read)|
    ensures forall i :: 0 <= i < |at| ==> Gives(init + [last], Values(init + [last], read), at, i, read)
    ensures forall i, j :: 0 <= i < j < |at| ==> at[i] < at[j]
    ensures forall n: nat :: Reached(init + [last], n, read) && read((init + [last])[n]).Value? ==> n in at
  {
    var lines, values := init + [last], Values(init, read);
    var gives := Parses(init, read) && read(last).Value?;
    var more: seq<V> := if gives then [read(last).value] else [];
    var back: seq<nat> := if gives then [|init|] else [];
    at := front + back;
    ValuesSnoc(init, last, read);
    assert Values(lines, read) == values + more;
    forall i | 0 <= i < |at|
      ensures Gives(lines, values + more, at, i, read)
    {
      if i < |front| {
        GivesSnoc(init, last, values, more, front, back, i, read);
      } else {
        ReachedSnoc(init, last, |init|, read);
      }
    }
    forall i | 0 <= i < |front|
      ensures front[i] < |init|
    {
      assert Gives(init, values, front, i, read);
    }
    forall n: nat | Reached(lines, n, read) && read(lines[n]).Value?
      ensures n in at
    {
      ReachedSnoc(init, last, n, read);
      assert n < |init| ==> lines[n] == init[n];
    }
  }

  /** One more read: the held-back text and the new chunk hold exactly the lines
      the chunk completes, and what is held back next. */
  lemma OneMoreChunk<V>(before: string, chunk: string, read: string -> Reading<V>)
    ensures var parts := Split(Last(Split(before, '\n')) + chunk, '\n');
            && Last(Split(before + chunk, '\n')) == Last(parts)
            && Values(Lines(before + chunk), read) ==
               Values(Lines(before), read) + (if Parses(Lines(before), read) then Values(Front(parts), read) else [])
            && (Parses(Lines(before + chunk), read) <==> Parses(Lines(before), read) && Parses(Front(parts), read))
  {
    var parts := Split(Last(Split(before, '\n')) + chunk, '\n');
    SplitAppend(before, chunk, '\n');
    assert Lines(before + chunk) == Lines(before) + Front(parts);
    ValuesAppend(Lines(before), Front(parts), read);
    ParsesAppend(Lines(before), Front(parts), read);
  }

  lemma ParsesAppend<V>(a: seq<string>, b: seq<string>, read: string -> Reading<V>)
    ensures Parses(a + b, read) <==> Parses(a, read) && Parses(b, read)
  {
    assert forall i :: 0 <= i < |a| ==> (a + b)[i] == a[i];
    assert forall i :: 0 <= i < |b| ==> (a + b)[|a| + i] == b[i];
  }

  /** The whole of the stream: whatever the chunks, the values handed on are
      those of the whole text's terminated lines up to the first that is not
      JSON, and that line or the transport alone turns it into a refusal. */
  method ReadStream<V>(chunks: seq<string>, end: End, aborted: bool, parse: string -> Option<V>)
      returns (calls: seq<Call<V>>, outcome: Outcome)
    ensures Delivered(calls) == Values(Lines(Flatten(chunks)), Reader(parse))
    ensures outcome == if aborted then Resolved
                       else if !Parses(Lines(Flatten(chunks)), Reader(parse)) then NotJson
                       else if end.Broken? then TransportError
                       else Resolved
    ensures Parses(Lines(Flatten(chunks)), Reader(parse)) ==> Chunks(calls) == |chunks|
  {
    var buffered := "";
    calls := [];
    for i := 0 to |chunks|
      invariant buffered == Last(Split(Flatten(chunks[..i]), '\n')) && Chunks(calls) == i
      invariant Delivered(calls) == Values(Lines(Flatten(chunks[..i])), Reader(parse))
      invariant Parses(Lines(Flatten(chunks[..i])), Reader(parse))
    {
      assert chunks[..i + 1][..i] == chunks[..i];
      OneMoreChunk(Flatten(chunks[..i]), chunks[i], Reader(parse));
      buffered := buffered + chunks[i];
      var parts := Split(buffered, '\n');
      buffered := Last(parts);
      var thrown;
      calls, thrown := ReadLines(Front(parts), calls, parse);
      if thrown.Some? {
        StopsForGood(chunks, i + 1, Reader(parse));
        return calls, if aborted then Resolved else thrown.value;
      }
      OneMore(calls, OnChunk);
      calls := calls + [OnChunk];
    }
    assert chunks[..|chunks|] == chunks;
    outcome := if end.Broken? && !aborted then TransportError else Resolved;
  }

  method ReadLines<V>(parts: seq<string>, already: seq<Call<V>>, parse: string -> Option<V>)
      returns (calls: seq<Call<V>>, thrown: Option<Outcome>)
    ensures Delivered(calls) == Delivered(already) + Values(parts, Reader(parse))
    ensures Chunks(calls) == Chunks(already)
    ensures thrown == if Parses(parts, Reader(parse)) then None else Some(NotJson)
  {
    calls := already;
    for k := 0 to |parts|
      invariant Delivered(calls) == Delivered(already) + Values(parts[..k], Reader(parse))
      invariant Chunks(calls) == Chunks(already)
      invariant Parses(parts[..k], Reader(parse))
    {
      assert parts[..k + 1] == parts[..k] + [parts[k]];
      assert parts == parts[..k] + parts[k..];
      ValuesAppend(parts[..k], [parts[k]], Reader(parse));
      ValuesAppend(parts[..k], parts[k..], Reader(parse));
      if Trim(parts[k]) == "" {
        continue;
      }
      var value := parse(parts[k]);
      if value.None? {
        return calls, Some(NotJson);
      }
      OneMore(calls, OnValue(value.value));
      calls := calls + [OnValue(value.value)];
    }
    assert parts[..|parts|] == parts;
    thrown := None;
  }

  /** Once a line has failed, no later chunk adds a value or mends it. */
  lemma {:induction false} StopsForGood<V>(chunks: seq<string>, i: nat, read: string -> Reading<V>)
    requires i <= |chunks| && !Parses(Lines(Flatten(chunks[..i])), read)
    ensures !Parses(Lines(Flatten(chunks)), read)
    ensures Values(Lines(Flatten(chunks)), read) == Values(Lines(Flatten(chunks[..i])), read)
    decreases |chunks| - i
  {
    if i == |chunks| {
      assert chunks[..i] == chunks;
    } else {
      assert chunks[..i + 1][..i] == chunks[..i];
      OneMoreChunk(Flatten(chunks[..i]), chunks[i], read);
      StopsForGood(chunks, i + 1, read);
    }
  }

  /** Nothing is held back unparsed exactly when the text is empty or ends in a newline. */
  lemma NothingHeldBackIff(text: string)
    ensures Last(Split(text, '\n')) == "" <==> text == "" || text[|text| - 1] == '\n'
  {
    if text != "" {
      var front, c := text[..|text| - 1], text[|text| - 1];
      assert text == front + [c];
      SplitAppend(front, [c], '\n');
      SplitSegments(front, '\n');
      LastLine(Front(Split(front, '\n')), Last(Split(front, '\n')), c);
    }
  }

  /** The lines read and the text held back are the whole text. */
  lemma NoTextIsLost(text: string)
    ensures Join(Lines(text) + [Last(Split(text, '\n'))], '\n') == text
  {
    JoinSplit(text, '\n');
    assert Front(Split(text, '\n')) + [Last(Split(text, '\n'))] == Split(text, '\n');
  }

  lemma LastLine(lines: seq<string>, held: string, c: char)
    requires '\n' !in held
    ensures Last(lines + Split(held + [c], '\n')) == if c == '\n' then "" else held + [c]
  {
    if c == '\n' {
      SplitHead(held, "", '\n');
      assert held + [c] + "" == held + [c];
    } else {
      SplitHead(held + [c], "", '\n');
    }
  }
}
