/** Which servers a changed configuration owes a catch-up: a scan over the
    scopes two configs name, which must answer for every library there is. */
module Toggles {

  import opened Options

  /** A section's fields that are set; a field not there reads as `None`. */
  type Block = map<string, bool>

  /** `libraries` holds each library's overrides by section; `servers` each
      server block's library map and exclusions. */
  datatype Config = Config(
    sections: map<string, Block>,
    libraries: map<string, map<string, Block>>,
    servers: map<string, (Option<string>, Option<string>)>)

  datatype Toggle = Toggle(section: string, field: string)

  function Field(sections: map<string, Block>, t: Toggle): Option<bool> {
    if t.section in sections && t.field in sections[t.section] then Some(sections[t.section][t.field]) else None
  }

  /** What a library runs on: its own override, or the global setting. */
  function Effective(config: Config, t: Toggle, library: string): Option<bool> {
    var own := if library in config.libraries then Field(config.libraries[library], t) else None;
    if own.Some? then own else Field(config.sections, t)
  }

  type Scopes = map<string, Option<bool>>

  /** The toggle by scope: each named library's effective value, and the
      global one under the empty name. */
  function States(config: Config, t: Toggle): Scopes {
    map scope | scope in config.libraries.Keys + {""} :: Effective(config, t, scope)
  }

  method ToggleStates(config: Config, t: Toggle) returns (states: Scopes)
    ensures states == States(config, t)
  {
    var global := Field(config.sections, t);
    states := map["" := global];
    var left := config.libraries.Keys;
    while left != {}
      invariant left <= config.libraries.Keys
      invariant forall scope: string :: scope in states <==> scope == "" || (scope in config.libraries && scope !in left)
      invariant forall scope :: scope in states && scope !in left ==> states[scope] == Effective(config, t, scope)
      decreases |left|
    {
      var library :| library in left;
      var value := Field(config.libraries[library], t);
      states := states[library := if value.None? then global else value];
      assert states[library] == Effective(config, t, library);
      left := left - {library};
    }
  }

  function Get(states: Scopes, scope: string): Option<bool>
    requires "" in states
  {
    if scope in states then states[scope] else states[""]
  }

  predicate TurnedOn(before: Config, after: Config, t: Toggle) {
    var was, now := States(before, t), States(after, t);
    exists scope :: scope in was.Keys + now.Keys && Get(now, scope) == Some(true) && Get(was, scope) == Some(false)
  }

  predicate EverOn(config: Config, t: Toggle) {
    var on, gate := States(config, t), States(config, t.(field := "enabled"));
    exists scope :: scope in on && on[scope] == Some(true) && Get(gate, scope) != Some(false)
  }

  /** What the scan takes a library to run on: the empty name answers for every
      library the config does not name. */
  function Answered(config: Config, t: Toggle, library: string): Option<bool> {
    Effective(config, t, if library in config.libraries then library else "")
  }

  lemma {:induction false} FreshName(names: set<string>) returns (name: string)
    ensures name != "" && forall n :: n in names ==> |n| < |name|
    decreases |names|
  {
    if names == {} {
      name := "x";
    } else {
      var n :| n in names;
      var rest := FreshName(names - {n});
      name := rest + n + "x";
    }
  }

  /** The finite scan is exact over every name there could be. */
  lemma ScanIsExact(before: Config, after: Config, t: Toggle)
    ensures TurnedOn(before, after, t) <==>
            exists library: string {:trigger Answered(before, t, library)} ::
              Answered(before, t, library) == Some(false) && Answered(after, t, library) == Some(true)
  {
    var was, now := States(before, t), States(after, t);
    forall scope: string
      ensures Get(was, scope) == Answered(before, t, scope) && Get(now, scope) == Answered(after, t, scope)
    {
    }
    if library: string :| Answered(before, t, library) == Some(false) && Answered(after, t, library) == Some(true) {
      var scope := if library in was.Keys + now.Keys then library else "";
      assert scope in was.Keys + now.Keys && Get(now, scope) == Some(true) && Get(was, scope) == Some(false);
    }
  }

  /** The entry under the empty name is the global setting: no library of that
      name overrides it. */
  predicate GlobalUnderEmpty(config: Config, t: Toggle) {
    Effective(config, t, "") == Field(config.sections, t)
  }

  /** The scan answers for every library with a name exactly when it holds the
      global setting under the empty one. */
  lemma AnswersForAllIff(config: Config, t: Toggle)
    ensures (forall library: string {:trigger Answered(config, t, library)} ::
               library != "" ==> Answered(config, t, library) == Effective(config, t, library))
            <==> GlobalUnderEmpty(config, t)
  {
    var name := FreshName(config.libraries.Keys);
    assert name !in config.libraries && Answered(config, t, name) == Effective(config, t, "");
  }

  /** A toggle then reads as turned on exactly when some library -- named in either
      config, or in neither -- goes from running with it off to running with it on. */
  lemma TurnedOnIsExact(before: Config, after: Config, t: Toggle)
    requires GlobalUnderEmpty(before, t) && GlobalUnderEmpty(after, t)
    ensures TurnedOn(before, after, t) <==>
            exists library: string {:trigger Effective(before, t, library)} ::
              && library != ""
              && Effective(before, t, library) == Some(false) && Effective(after, t, library) == Some(true)
  {
    ScanIsExact(before, after, t);
    assert forall library: string ::
        Answered(before, t, library) == Effective(before, t, library) && Answered(after, t, library) == Effective(after, t, library);
    if Effective(before, t, "") == Some(false) && Effective(after, t, "") == Some(true) {
      var name := FreshName(before.libraries.Keys + after.libraries.Keys);
      assert name !in before.libraries && name !in after.libraries;
      assert Effective(before, t, name) == Some(false) && Effective(after, t, name) == Some(true);
    }
  }

  /** A library named by the empty string that overrides the switch hides a flip of
      the global setting from the scan. */
  lemma TheEmptyNameHidesAFlip()
    ensures var t := Toggle("badges", "upload_to_plex");
            var off: map<string, Block> := map["badges" := map["upload_to_plex" := false]];
            var on: map<string, Block> := map["badges" := map["upload_to_plex" := true]];
            var before, after := Config(off, map["" := off], map[]), Config(on, map["" := off], map[]);
            && !TurnedOn(before, after, t) && !GlobalUnderEmpty(after, t)
            && Effective(before, t, "Films") == Some(false) && Effective(after, t, "Films") == Some(true)
  {
    var off: map<string, Block> := map["badges" := map["upload_to_plex" := false]];
    var on: map<string, Block> := map["badges" := map["upload_to_plex" := true]];
    var t := Toggle("badges", "upload_to_plex");
    assert States(Config(off, map["" := off], map[]), t) == map["" := Some(false)];
    assert States(Config(on, map["" := off], map[]), t) == map["" := Some(false)];
  }

  /** A toggle reads as ever on exactly when some library runs with it on and
      its section's master switch not off. */
  lemma EverOnIsExact(config: Config, t: Toggle)
    requires GlobalUnderEmpty(config, t) && GlobalUnderEmpty(config, t.(field := "enabled"))
    ensures EverOn(config, t) <==>
            exists library: string {:trigger Effective(config, t, library)} ::
              && library != ""
              && Effective(config, t, library) == Some(true)
              && Effective(config, t.(field := "enabled"), library) != Some(false)
  {
    var gate := t.(field := "enabled");
    var on, gates := States(config, t), States(config, gate);
    assert forall scope: string :: Get(gates, scope) == Effective(config, gate, scope);
    if scope :| scope in on && on[scope] == Some(true) && Get(gates, scope) != Some(false) {
      if scope == "" {
        var name := FreshName(config.libraries.Keys);
        assert name !in config.libraries;
        assert Effective(config, t, name) == Some(true) && Effective(config, gate, name) != Some(false);
      } else {
        assert Effective(config, t, scope) == Some(true);
      }
    }
    if library: string :| library != "" && Effective(config, t, library) == Some(true) && Effective(config, gate, library) != Some(false) {
      var scope := if library in config.libraries then library else "";
      assert scope in on && on[scope] == Some(true) && Get(gates, scope) != Some(false);
    }
  }

  // ------------------------------------------------------------------- the servers

  const SERVERS := ["plex", "jellyfin"]

  function TogglesOf(server: string): seq<Toggle> {
    if server == "plex" then [Toggle("operations", "write_to_plex"), Toggle("badges", "upload_to_plex")]
    else if server == "jellyfin" then [Toggle("operations", "write_to_jellyfin"), Toggle("badges", "upload_to_jellyfin")]
    else []
  }

  predicate Changed(before: Config, after: Config, server: string) {
    && server in before.servers && server in after.servers
    && (before.servers[server] != after.servers[server]
        || exists t :: t in TogglesOf(server) && TurnedOn(before, after, t))
  }

  /** A server of both configs is owed a catch-up exactly when its library map or
      exclusions differ, or some library goes from having its metadata writes, or its
      artwork uploads, off under the old config to having them on under the new. */
  lemma ChangedIff(before: Config, after: Config, server: string)
    requires server in SERVERS
    requires forall t :: t in TogglesOf(server) ==> GlobalUnderEmpty(before, t) && GlobalUnderEmpty(after, t)
    ensures Changed(before, after, server) <==>
            && server in before.servers && server in after.servers
            && (|| before.servers[server] != after.servers[server]
                || TurnsOn(before, after, Toggle("operations", "write_to_" + server))
                || TurnsOn(before, after, Toggle("badges", "upload_to_" + server)))
  {
    TogglesAre(server);
    forall t | t in TogglesOf(server)
      ensures TurnedOn(before, after, t) <==> TurnsOn(before, after, t)
    {
      TurnedOnIsExact(before, after, t);
    }
  }

  /** Some library runs with the switch off before and on after. */
  ghost predicate TurnsOn(before: Config, after: Config, t: Toggle) {
    exists library: string {:trigger Effective(before, t, library)} ::
      && library != ""
      && Effective(before, t, library) == Some(false) && Effective(after, t, library) == Some(true)
  }

  lemma TogglesAre(server: string)
    requires server in SERVERS
    ensures TogglesOf(server) == [Toggle("operations", "write_to_" + server), Toggle("badges", "upload_to_" + server)]
  {
    assert "write_to_" + "plex" == "write_to_plex" && "upload_to_" + "plex" == "upload_to_plex";
    assert "write_to_" + "jellyfin" == "write_to_jellyfin" && "upload_to_" + "jellyfin" == "upload_to_jellyfin";
  }

  method ServersWithChangedLibraries(before: Config, after: Config) returns (changed: seq<string>)
    ensures forall server :: server in changed <==> server in SERVERS && Changed(before, after, server)
    ensures forall i, j :: 0 <= i < j < |changed| ==> changed[i] != changed[j]
  {
    changed := [];
    for i := 0 to |SERVERS|
      invariant forall server :: server in changed <==> server in SERVERS[..i] && Changed(before, after, server)
      invariant forall n, m :: 0 <= n < m < |changed| ==> changed[n] != changed[m]
    {
      var name := SERVERS[i];
      assert SERVERS[..i + 1] == SERVERS[..i] + [name];
      assert name !in SERVERS[..i];
      if name !in before.servers || name !in after.servers {
        continue;
      }
      var shapeChanged := before.servers[name] != after.servers[name];
      if shapeChanged || exists t :: t in TogglesOf(name) && TurnedOn(before, after, t) {
        changed := changed + [name];
      }
    }
    assert SERVERS[..|SERVERS|] == SERVERS;
  }

  /** Of `names`, in their order, those this config delivers something to. */
  function ServersWithDeliveryEnabled(config: Config, names: seq<string>): (kept: seq<string>) {
    if names == [] then []
    else
      var name := names[0];
      (if name !in SERVERS || (exists t :: t in TogglesOf(name) && EverOn(config, t)) then [name] else [])
      + ServersWithDeliveryEnabled(config, names[1..])
  }

  /** A server is silenced exactly when every library runs with all of its
      switches off or masked, and only if this module knows its switches. */
  lemma {:induction false} DeliveryEnabledIff(config: Config, names: seq<string>, name: string)
    requires name in names
    requires forall t :: t in TogglesOf(name) ==> GlobalUnderEmpty(config, t) && GlobalUnderEmpty(config, t.(field := "enabled"))
    ensures name !in ServersWithDeliveryEnabled(config, names) <==>
              && name in SERVERS
              && forall t: Toggle, library: string {:trigger Effective(config, t, library)} |
                   t in TogglesOf(name) && library != "" && Effective(config, t, library) == Some(true) ::
                   Effective(config, t.(field := "enabled"), library) == Some(false)
  {
    forall t | t in TogglesOf(name)
      ensures EverOn(config, t) <==>
              exists library: string {:trigger Effective(config, t, library)} ::
                && library != "" && Effective(config, t, library) == Some(true)
                && Effective(config, t.(field := "enabled"), library) != Some(false)
    {
      EverOnIsExact(config, t);
    }
    KeptIff(config, names, name);
  }

  lemma {:induction false} KeptIff(config: Config, names: seq<string>, name: string)
    ensures name in ServersWithDeliveryEnabled(config, names) <==>
              name in names && (name !in SERVERS || exists t :: t in TogglesOf(name) && EverOn(config, t))
  {
    if names != [] {
      KeptIff(config, names[1..], name);
    }
  }
}
