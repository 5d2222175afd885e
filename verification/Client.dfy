/** The API client's shared reads: concurrent GETs of one path under one session
    send one request, and nothing is kept once it settles. */
module Client {

  import opened Options

  /** A request's answer arrives, its cleanup runs, and only then do its callers
      hear; an unshared request has no cleanup and is settled by its answer. */
  datatype Phase = OnTheWire | Answered | Settled

  /** `token` is what the request was sent with; `key` what it is shared under. */
  datatype Request = Request(token: Option<string>, path: string, key: Option<string>, phase: Phase)

  /** `Promise`s are named by the position of their request. */
  datatype Session = Session(token: Option<string>, inFlight: map<string, nat>, requests: seq<Request>)

  /** A call's options: the names that are given, and the method if it has a value. */
  datatype Init = Init(options: set<string>, httpMethod: Option<string>)

  const NUL := '\0'

  predicate IsGet(name: string) {
    |name| == 3 && name[0] in "gG" && name[1] in "eE" && name[2] in "tT"
  }

  predicate Joinable(init: Init) {
    forall option :: option in init.options ==>
      option == "method" && (init.httpMethod.None? || IsGet(init.httpMethod.value))
  }

  function UpperChar(c: char): char {
    if 'a' <= c <= 'z' then c - 'a' + 'A' else c
  }

  function Upper(name: string): (upper: string)
    ensures |upper| == |name|
    ensures forall i :: 0 <= i < |name| ==> upper[i] == UpperChar(name[i])
  {
    if name == "" then "" else [UpperChar(name[0])] + Upper(name[1..])
  }

  /** A call may share another's request exactly when it gives no option but a method,
      and that is a GET in any case, or no value at all. */
  lemma JoinableIff(init: Init)
    ensures Joinable(init) <==>
            init.options == {} || (init.options == {"method"} && (init.httpMethod.None? || Upper(init.httpMethod.value) == "GET"))
  {
    if init.httpMethod.Some? {
      UpperGet(init.httpMethod.value);
    }
    if init.options != {} {
      var option :| option in init.options;
      if Joinable(init) {
        assert init.options == {"method"};
      }
    }
  }

  lemma UpperGet(name: string)
    ensures IsGet(name) <==> Upper(name) == "GET"
  {
    var upper := Upper(name);
    if upper == "GET" {
      assert upper[0] == 'G' && upper[1] == 'E' && upper[2] == 'T';
      assert UpperChar(name[0]) == 'G' && UpperChar(name[1]) == 'E' && UpperChar(name[2]) == 'T';
    }
    if IsGet(name) {
      assert upper[0] == 'G' && upper[1] == 'E' && upper[2] == 'T';
      assert upper == [upper[0], upper[1], upper[2]];
    }
  }

  function TokenText(token: Option<string>): string {
    if token.Some? then token.value else ""
  }

  function Key(token: Option<string>, path: string): string {
    TokenText(token) + [NUL] + path
  }

  // ---------------------------------------------------------------- the protocol

  datatype Event =
    | Call(path: string, init: Init)
    | Answer(request: nat, unauthorized: bool)
    | Cleanup(request: nat)
    | SetToken(token: Option<string>)
    | Forget

  function Send(s: Session, path: string, key: Option<string>): Session {
    s.(requests := s.requests + [Request(s.token, path, key, OnTheWire)])
  }

  /** The state after a call, and the request the caller reads. */
  function Fetch(s: Session, path: string, init: Init): (Session, nat) {
    var key := Key(s.token, path);
    var next: nat := |s.requests|;
    if !Joinable(init) then (Send(s, path, None), next)
    else if key in s.inFlight then (s, s.inFlight[key])
    else (Send(s, path, Some(key)).(inFlight := s.inFlight[key := next]), next)
  }

  predicate InPhase(s: Session, r: nat, phase: Phase) {
    r < |s.requests| && s.requests[r].phase == phase
  }

  function Move(s: Session, r: nat, phase: Phase): Session
    requires r < |s.requests|
  {
    s.(requests := s.requests[r := s.requests[r].(phase := phase)])
  }

  /** A 401 drops the session before the caller hears of it. */
  function Answering(s: Session, r: nat, unauthorized: bool): Session
    requires InPhase(s, r, OnTheWire)
  {
    Move(s, r, if s.requests[r].key.Some? then Answered else Settled)
      .(token := if unauthorized then None else s.token)
  }

  /** The request leaves the map if it is still the one its key names. */
  function CleaningUp(s: Session, r: nat): Session
    requires InPhase(s, r, Answered) && s.requests[r].key.Some?
  {
    var key := s.requests[r].key.value;
    Move(s, r, Settled)
      .(inFlight := if key in s.inFlight && s.inFlight[key] == r then s.inFlight - {key} else s.inFlight)
  }

  predicate Enabled(s: Session, e: Event) {
    match e
    case Answer(r, _) => InPhase(s, r, OnTheWire)
    case Cleanup(r) => InPhase(s, r, Answered) && s.requests[r].key.Some?
    case _ => true
  }

  /** An event that cannot happen yet changes nothing. */
  function Step(s: Session, e: Event): Session {
    if !Enabled(s, e) then s
    else
      match e
      case Call(path, init) => Fetch(s, path, init).0
      case Answer(r, unauthorized) => Answering(s, r, unauthorized)
      case Cleanup(r) => CleaningUp(s, r)
      case SetToken(token) => s.(token := token)
      case Forget => s.(inFlight := map[])
  }

  function Run(s: Session, events: seq<Event>): Session {
    if events == [] then s else Step(Run(s, events[..|events| - 1]), events[|events| - 1])
  }

  function Start(token: Option<string>): Session {
    Session(token, map[], [])
  }

  // ------------------------------------------------------------------ the client

  class Api {
    var token: Option<string>
    var inFlight: map<string, nat>
    var requests: seq<Request>

    ghost function View(): Session
      reads this
    {
      Session(token, inFlight, requests)
    }

    constructor (token: Option<string>)
      ensures View() == Start(token)
    {
      this.token, inFlight, requests := token, map[], [];
    }

    method Post(path: string, key: Option<string>) returns (started: nat)
      modifies this`requests
      ensures View() == Send(old(View()), path, key) && started == |old(requests)|
    {
      started := |requests|;
      requests := requests + [Request(token, path, key, OnTheWire)];
    }

    method ApiFetch(path: string, init: Init) returns (read: nat)
      modifies this
      ensures (View(), read) == Fetch(old(View()), path, init)
    {
      if !Joinable(init) {
        read := Post(path, None);
        return;
      }
      var key := (if token.Some? then token.value else "") + [NUL] + path;
      if key in inFlight {
        read := inFlight[key];
      } else {
        read := Post(path, Some(key));
        inFlight := inFlight[key := read];
      }
    }

    method Answer(r: nat, unauthorized: bool)
      requires InPhase(View(), r, OnTheWire)
      modifies this`requests, this`token
      ensures View() == Answering(old(View()), r, unauthorized)
    {
      if unauthorized {
        token := None;
      }
      requests := requests[r := requests[r].(phase := if requests[r].key.Some? then Answered else Settled)];
    }

    /** The `finally` of a shared request. */
    method CleanUp(r: nat)
      requires InPhase(View(), r, Answered) && requests[r].key.Some?
      modifies this`requests, this`inFlight
      ensures View() == CleaningUp(old(View()), r)
    {
      var key := requests[r].key.value;
      if key in inFlight && inFlight[key] == r {
        inFlight := inFlight - {key};
      }
      requests := requests[r := requests[r].(phase := Settled)];
    }

    method SetToken(next: Option<string>)
      modifies this`token
      ensures View() == Step(old(View()), Event.SetToken(next))
    {
      token := next;
    }

    method ForgetInFlightRequests()
      modifies this`inFlight
      ensures View() == Step(old(View()), Forget)
    {
      inFlight := map[];
    }
  }

  // -------------------------------------------------------------- what always holds

  ghost predicate Tidy(s: Session) {
    && (forall k :: k in s.inFlight ==>
          && s.inFlight[k] < |s.requests|
          && s.requests[s.inFlight[k]].key == Some(k)
          && s.requests[s.inFlight[k]].phase != Settled)
    && (forall r :: 0 <= r < |s.requests| && s.requests[r].key.Some? ==>
          s.requests[r].key.value == Key(s.requests[r].token, s.requests[r].path))
  }

  lemma StepIsTidy(s: Session, e: Event)
    requires Tidy(s)
    ensures Tidy(Step(s, e))
  {
  }

  /** Whatever the interleaving, the map names only requests that have not settled. */
  lemma {:induction false} EveryRunIsTidy(token: Option<string>, events: seq<Event>)
    ensures Tidy(Run(Start(token), events))
  {
    if events != [] {
      EveryRunIsTidy(token, events[..|events| - 1]);
      StepIsTidy(Run(Start(token), events[..|events| - 1]), events[|events| - 1]);
    }
  }

  predicate NulFree(token: Option<string>) {
    NUL !in TokenText(token)
  }

  /** The key tells a session and a path apart, as long as no token holds the separator. */
  lemma KeysTellApart(t: Option<string>, p: string, u: Option<string>, q: string)
    requires NulFree(t) && NulFree(u)
    ensures Key(t, p) == Key(u, q) <==> TokenText(t) == TokenText(u) && p == q
  {
    if Key(t, p) == Key(u, q) {
      var a, b := TokenText(t), TokenText(u);
      assert Key(t, p)[|a|] == NUL && Key(u, q)[|b|] == NUL;
      assert forall i :: 0 <= i < |a| ==> Key(t, p)[i] == a[i];
      assert forall i :: 0 <= i < |b| ==> Key(u, q)[i] == b[i];
      assert |a| == |b|;
      assert a == Key(t, p)[..|a|] && b == Key(u, q)[..|b|];
      assert p == Key(t, p)[|a| + 1..] && q == Key(u, q)[|b| + 1..];
    }
  }

  /** A call reads either a request of its own, sent with the session's token, or
      one for the same token and path that has not settled; only a plain GET joins. */
  lemma JoinsAreSound(token: Option<string>, events: seq<Event>, path: string, init: Init)
    ensures var s := Run(Start(token), events);
            var (after, r) := Fetch(s, path, init);
            && r < |after.requests|
            && after.requests[r].phase != Settled
            && (r >= |s.requests| ==>
                  r == |s.requests| && after.requests[r].path == path && after.requests[r].token == s.token)
            && (r < |s.requests| ==> init.options <= {"method"} && after == s)
            && (r < |s.requests| && init.options == {"method"} && init.httpMethod.Some? ==> Upper(init.httpMethod.value) == "GET")
            && (r < |s.requests| && NulFree(s.token) && NulFree(s.requests[r].token) ==>
                  s.requests[r].path == path && TokenText(s.requests[r].token) == TokenText(s.token))
  {
    EveryRunIsTidy(token, events);
    JoinableIff(init);
    var s := Run(Start(token), events);
    var (after, r) := Fetch(s, path, init);
    if r < |s.requests| && NulFree(s.token) && NulFree(s.requests[r].token) {
      assert Key(s.requests[r].token, s.requests[r].path) == Key(s.token, path);
      KeysTellApart(s.requests[r].token, s.requests[r].path, s.token, path);
    }
  }

  /** Requests only move forward. */
  lemma {:induction false} SettledStays(s: Session, events: seq<Event>, r: nat)
    requires InPhase(s, r, Settled)
    ensures InPhase(Run(s, events), r, Settled)
  {
    if events != [] {
      SettledStays(s, events[..|events| - 1], r);
    }
  }

  lemma {:induction false} RunAppend(s: Session, a: seq<Event>, b: seq<Event>)
    ensures Run(s, a + b) == Run(Run(s, a), b)
  {
    if b == [] {
      assert a + b == a;
    } else {
      RunAppend(s, a, b[..|b| - 1]);
      assert (a + b)[..|a + b| - 1] == a + b[..|b| - 1];
    }
  }

  /** A call made after a request settles, however much later, does not read it. */
  lemma SettledIsNeverReadAgain(token: Option<string>, before: seq<Event>, later: seq<Event>, r: nat, path: string, init: Init)
    requires InPhase(Run(Start(token), before), r, Settled)
    ensures Fetch(Run(Start(token), before + later), path, init).1 != r
  {
    RunAppend(Start(token), before, later);
    SettledStays(Run(Start(token), before), later, r);
    EveryRunIsTidy(token, before + later);
  }

  /** A cleanup takes its own request out of the map and nothing else: the entry a
      newer request has taken since, its own having been forgotten, stays. */
  lemma CleanupRemovesOnlyItsOwn(token: Option<string>, events: seq<Event>, r: nat, k: string)
    requires Enabled(Run(Start(token), events), Cleanup(r))
    ensures var s := Run(Start(token), events);
            var after := Step(s, Cleanup(r));
            && (k in after.inFlight <==> k in s.inFlight && s.inFlight[k] != r)
            && (k in after.inFlight ==> after.inFlight[k] == s.inFlight[k])
  {
    EveryRunIsTidy(token, events);
  }

  /** Whether this event ends the sharing of request `r`. */
  predicate EndsSharing(e: Event, r: nat) {
    e == Forget || e == Cleanup(r)
  }

  /** Reads of one path under one token share one request until it is cleaned up
      or forgotten, through any number of other calls and token changes. */
  lemma ConcurrentReadsShare(token: Option<string>, before: seq<Event>, between: seq<Event>, path: string, init: Init, again: Init)
    requires Joinable(init) && Joinable(again)
    requires var first := Fetch(Run(Start(token), before), path, init);
             && (forall e :: e in between ==> !EndsSharing(e, first.1))
             && TokenText(Run(first.0, between).token) == TokenText(Run(Start(token), before).token)
    ensures var first := Fetch(Run(Start(token), before), path, init);
            Fetch(Run(first.0, between), path, again) == (Run(first.0, between), first.1)
  {
    var s := Run(Start(token), before);
    var first := Fetch(s, path, init);
    EveryRunIsTidy(token, before);
    EntryStays(first.0, between, Key(s.token, path), first.1);
  }

  lemma {:induction false} EntryStays(s: Session, events: seq<Event>, k: string, r: nat)
    requires k in s.inFlight && s.inFlight[k] == r
    requires forall e :: e in events ==> !EndsSharing(e, r)
    ensures k in Run(s, events).inFlight && Run(s, events).inFlight[k] == r
  {
    if events != [] {
      EntryStays(s, events[..|events| - 1], k, r);
      assert !EndsSharing(events[|events| - 1], r);
    }
  }

  predicate OnItsWay(s: Session, r: nat) {
    r < |s.requests| && s.requests[r].key.Some? && s.requests[r].phase != Settled
  }

  /** Unless the map is cleared, it holds exactly the shared requests on their way. */
  ghost predicate Exact(s: Session) {
    forall r: nat :: OnItsWay(s, r) ==>
      s.requests[r].key.value in s.inFlight && s.inFlight[s.requests[r].key.value] == r
  }

  lemma {:induction false} NothingIsKept(token: Option<string>, events: seq<Event>, r: nat)
    requires Forget !in events
    ensures OnItsWay(Run(Start(token), events), r) <==> r in Run(Start(token), events).inFlight.Values
  {
    AlwaysExact(token, events);
    EveryRunIsTidy(token, events);
    var s := Run(Start(token), events);
    if OnItsWay(s, r) {
      assert s.inFlight[s.requests[r].key.value] == r;
    }
  }

  lemma {:induction false} AlwaysExact(token: Option<string>, events: seq<Event>)
    requires Forget !in events
    ensures Exact(Run(Start(token), events))
  {
    if events != [] {
      var earlier, e := events[..|events| - 1], events[|events| - 1];
      AlwaysExact(token, earlier);
      EveryRunIsTidy(token, earlier);
      assert e in events;
      forall r: nat | OnItsWay(Step(Run(Start(token), earlier), e), r) {
        StaysExact(Run(Start(token), earlier), e, r);
      }
    }
  }

  lemma StaysExact(s: Session, e: Event, r: nat)
    requires Tidy(s) && Exact(s) && e != Forget && OnItsWay(Step(s, e), r)
    ensures var after := Step(s, e);
            after.requests[r].key.value in after.inFlight && after.inFlight[after.requests[r].key.value] == r
  {
    if r < |s.requests| {
      assert OnItsWay(s, r);
    }
  }

  // ------------------------------------------------------------------- the limits

  const PLAIN := Init({}, None)

  lemma RunOne(s: Session, events: seq<Event>, e: Event)
    ensures Run(s, events + [e]) == Step(Run(s, events), e)
  {
    assert (events + [e])[..|events|] == events;
  }

  /** No token and the empty one write the same key, so the two sessions share. */
  lemma NoTokenAndTheEmptyOneShare(path: string)
    ensures var s := Run(Start(None), [Call(path, PLAIN), SetToken(Some(""))]);
            && Fetch(s, path, PLAIN) == (s, 0)
            && s.requests == [Request(None, path, Some(Key(None, path)), OnTheWire)]
            && s.token == Some("")
  {
    RunOne(Start(None), [], Call(path, PLAIN));
    RunOne(Start(None), [Call(path, PLAIN)], SetToken(Some("")));
    assert [] + [Call(path, PLAIN)] == [Call(path, PLAIN)];
    assert [Call(path, PLAIN)] + [SetToken(Some(""))] == [Call(path, PLAIN), SetToken(Some(""))];
  }

  /** Exactly those two: any other pair of tokens free of the separator is told apart. */
  lemma SharedSessionsAreOneIff(t: Option<string>, u: Option<string>, path: string)
    requires NulFree(t) && NulFree(u)
    ensures Key(t, path) == Key(u, path) <==> t == u || (t == None && u == Some("")) || (t == Some("") && u == None)
  {
    KeysTellApart(t, path, u, path);
  }

  /** A request carries the token it was sent with for good. */
  lemma {:induction false} SentTokenStays(s: Session, events: seq<Event>, r: nat)
    requires r < |s.requests|
    ensures r < |Run(s, events).requests| && Run(s, events).requests[r].token == s.requests[r].token
  {
    if events != [] {
      SentTokenStays(s, events[..|events| - 1], r);
    }
  }

  /** A refused request drops a session it was not sent in exactly when a session
      is there and its token is not the one there was when the call was made. */
  lemma ALateRefusalDropsAnotherSessionIff(token: Option<string>, before: seq<Event>, path: string, init: Init, between: seq<Event>)
    requires var called := Fetch(Run(Start(token), before), path, init);
             && called.1 == |Run(Start(token), before).requests|
             && InPhase(Run(called.0, between), called.1, OnTheWire)
    ensures var called := Fetch(Run(Start(token), before), path, init);
            var now := Run(called.0, between);
            var after := Step(now, Answer(called.1, true));
            (now.token.Some? && after.token.None? && now.requests[called.1].token != now.token)
            <==> now.token.Some? && now.token != Run(Start(token), before).token
  {
    var called := Fetch(Run(Start(token), before), path, init);
    EveryRunIsTidy(token, before);
    SentTokenStays(called.0, between, called.1);
  }

  /** The event signs the user out, or is the refusal of a request on the wire. */
  predicate DropsTheSession(s: Session, e: Event) {
    s.token.Some? && (e == SetToken(None) || (Enabled(s, e) && e.Answer? && e.unauthorized))
  }

  lemma SessionDroppedIff(s: Session, e: Event)
    ensures s.token.Some? && Step(s, e).token.None? <==> DropsTheSession(s, e)
  {
  }

  /** A session that is gone at the end of a history was dropped by one event of it:
      a sign-out or a refusal, after which no event set a token again. */
  lemma {:induction false} WhatDroppedTheSession(s: Session, events: seq<Event>) returns (i: nat)
    requires s.token.Some? && Run(s, events).token.None?
    ensures i < |events| && DropsTheSession(Run(s, events[..i]), events[i])
    ensures forall j :: i < j <= |events| ==> Run(s, events[..j]).token.None?
  {
    var n := |events| - 1;
    SessionDroppedIff(Run(s, events[..n]), events[n]);
    if Run(s, events[..n]).token.Some? {
      i := n;
      assert events[..|events|] == events;
    } else {
      i := WhatDroppedTheSession(s, events[..n]);
      assert events[..n][..i] == events[..i];
      forall j | i < j <= |events|
        ensures Run(s, events[..j]).token.None?
      {
        if j <= n {
          assert events[..n][..j] == events[..j];
        } else {
          assert events[..j] == events;
        }
      }
    }
  }

  /** A 401 for a request of an earlier session drops the session there is now,
      though no caller of the new session joined that request. */
  lemma ALateRefusalDropsTheNewToken(path: string)
    ensures var relogin := [Call(path, PLAIN), SetToken(Some("new"))];
            && Run(Start(Some("old")), relogin).token == Some("new")
            && Fetch(Run(Start(Some("old")), relogin), path, PLAIN).1 == 1
            && Run(Start(Some("old")), relogin + [Answer(0, true)]).token == None
  {
    var relogin := [Call(path, PLAIN), SetToken(Some("new"))];
    RunOne(Start(Some("old")), [], Call(path, PLAIN));
    RunOne(Start(Some("old")), [Call(path, PLAIN)], SetToken(Some("new")));
    RunOne(Start(Some("old")), relogin, Answer(0, true));
    assert [] + [Call(path, PLAIN)] == [Call(path, PLAIN)];
    assert [Call(path, PLAIN)] + [SetToken(Some("new"))] == relogin;
    KeysTellApart(Some("old"), path, Some("new"), path);
  }
}
