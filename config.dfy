/** The configuration store of config_manager.py: a list of connection profiles,
    the name of the last connection used, and a map of settings.

    Writing the configuration to disk (`save_config`) is outside the model; what it
    reports is passed to each mutator as `saved`, and each mutator returns it. */
module Config {
  import opened Text

  /** A connection profile, `{"name", "ip", "user", "port"}`. */
  datatype Profile = Profile(name: string, ip: string, user: string, port: int)

  /** A setting value as JSON stores it. */
  datatype Value = StringValue(s: string) | BoolValue(b: bool) | IntValue(i: int)

  /** The configuration dictionary. A key missing from a loaded file is `None`;
      `lastConnection` is `None` both when the key is missing and when it is null,
      which `get_last_connection` cannot tell apart either. */
  datatype Config = Config(connections: Option<seq<Profile>>,
                           lastConnection: Option<string>,
                           settings: Option<map<string, Value>>)

  /** `_create_default_config`. */
  function DefaultConfig(): Config
  {
    Config(Some([]), None,
           Some(map["default_remote_path" := StringValue("/home/pi"),
                    "auto_save_connections" := BoolValue(true),
                    "show_hidden_files" := BoolValue(false),
                    "transfer_timeout" := IntValue(300)]))
  }

  /** `config.get("connections", [])`. */
  function Connections(c: Config): seq<Profile>
  {
    c.connections.GetOr([])
  }

  /** `config.get("settings", {})`. */
  function Settings(c: Config): map<string, Value>
  {
    c.settings.GetOr(map[])
  }

  /** `get_setting(key, default)`. */
  function Setting(c: Config, key: string, default: Value): (v: Value)
    ensures key in Settings(c) ==> v == Settings(c)[key]
    ensures key !in Settings(c) ==> v == default
  {
    var m := Settings(c);
    if key in m then m[key] else default
  }

  // ---------------------------------------------------------------------------
  // Searching, replacing, filtering and listing profiles
  // ---------------------------------------------------------------------------

  /** The index of the first profile called `name`, if there is one. */
  function FirstIndex(ps: seq<Profile>, name: string): (r: Option<nat>)
    ensures r.Some? ==> r.value < |ps| && ps[r.value].name == name
    ensures r.Some? ==> forall j :: 0 <= j < r.value ==> ps[j].name != name
    ensures r.None? <==> forall j :: 0 <= j < |ps| ==> ps[j].name != name
    decreases |ps|
  {
    if ps == [] then None
    else if ps[0].name == name then Some(0)
    else match FirstIndex(ps[1..], name)
      case None => None
      case Some(i) => Some(i + 1)
  }

  /** The record `get_connection(name)` returns. */
  function FirstNamed(ps: seq<Profile>, name: string): Option<Profile>
  {
    match FirstIndex(ps, name)
    case Some(i) => Some(ps[i])
    case None => None
  }

  /** The list after the loop of `add_connection`: the first profile with the
      same name replaced, or, when there is none, `p` appended. */
  function Upserted(ps: seq<Profile>, p: Profile): seq<Profile>
  {
    match FirstIndex(ps, p.name)
    case Some(i) => ps[i := p]
    case None => ps + [p]
  }

  /** `[conn for conn in ps if conn["name"] != name]`. */
  function Removed(ps: seq<Profile>, name: string): (r: seq<Profile>)
    ensures |r| <= |ps|
    ensures forall x :: x in r <==> x in ps && x.name != name
    decreases |ps|
  {
    if ps == [] then []
    else (if ps[0].name != name then [ps[0]] else []) + Removed(ps[1..], name)
  }

  /** `[conn["name"] for conn in ps]`. */
  function Names(ps: seq<Profile>): (r: seq<string>)
    ensures |r| == |ps|
    ensures forall i :: 0 <= i < |ps| ==> r[i] == ps[i].name
    decreases |ps|
  {
    if ps == [] then [] else [ps[0].name] + Names(ps[1..])
  }

  // ---------------------------------------------------------------------------
  // Properties
  // ---------------------------------------------------------------------------

  /** The default configuration: no profiles, no last connection, and the four
      settings with their values; any other key reads as the caller's default. */
  lemma DefaultConfigContents(key: string, default: Value)
    ensures Connections(DefaultConfig()) == [] && DefaultConfig().lastConnection == None
    ensures Setting(DefaultConfig(), "default_remote_path", default) == StringValue("/home/pi")
    ensures Setting(DefaultConfig(), "auto_save_connections", default) == BoolValue(true)
    ensures Setting(DefaultConfig(), "show_hidden_files", default) == BoolValue(false)
    ensures Setting(DefaultConfig(), "transfer_timeout", default) == IntValue(300)
    ensures key !in {"default_remote_path", "auto_save_connections", "show_hidden_files", "transfer_timeout"}
            ==> Setting(DefaultConfig(), key, default) == default
  {
  }

  /** `get_connection` returns the first profile with that name, and `None`
      exactly when no profile has it. */
  lemma FirstNamedIsFirstMatch(ps: seq<Profile>, name: string)
    ensures FirstNamed(ps, name).None? <==> forall j :: 0 <= j < |ps| ==> ps[j].name != name
    ensures forall i :: 0 <= i < |ps| && ps[i].name == name && (forall j :: 0 <= j < i ==> ps[j].name != name)
                        ==> FirstNamed(ps, name) == Some(ps[i])
  {
  }

  /** Adding a name already present replaces its first profile in place:
      same length, same order, every other profile untouched. */
  lemma UpsertReplacesInPlace(ps: seq<Profile>, p: Profile, i: nat)
    requires i < |ps| && ps[i].name == p.name
    requires forall j :: 0 <= j < i ==> ps[j].name != p.name
    ensures |Upserted(ps, p)| == |ps|
    ensures Upserted(ps, p)[i] == p
    ensures forall j :: 0 <= j < |ps| && j != i ==> Upserted(ps, p)[j] == ps[j]
  {
  }

  /** Adding a new name appends the profile at the end. */
  lemma UpsertAppendsNewName(ps: seq<Profile>, p: Profile)
    requires forall j :: 0 <= j < |ps| ==> ps[j].name != p.name
    ensures Upserted(ps, p) == ps + [p]
    ensures |Upserted(ps, p)| == |ps| + 1
  {
  }

  /** After adding a profile, looking its name up returns exactly that profile. */
  lemma GetAfterAdd(ps: seq<Profile>, p: Profile)
    ensures FirstNamed(Upserted(ps, p), p.name) == Some(p)
  {
    match FirstIndex(ps, p.name)
    case Some(i) =>
      assert Upserted(ps, p)[i] == p;
    case None =>
      assert Upserted(ps, p)[|ps|] == p;
  }

  /** Adding a profile does not change what any other name finds. */
  lemma AddKeepsOtherLookups(ps: seq<Profile>, p: Profile, other: string)
    requires other != p.name
    ensures FirstNamed(Upserted(ps, p), other) == FirstNamed(ps, other)
  {
    var r := Upserted(ps, p);
    assert forall j :: 0 <= j < |ps| ==> (r[j].name == other <==> ps[j].name == other);
    if FirstIndex(ps, p.name).None? {
      assert r[|ps|].name != other;
    }
  }

  /** Adding the same profile twice leaves the list as adding it once. */
  lemma AddTwiceIsAddOnce(ps: seq<Profile>, p: Profile)
    ensures Upserted(Upserted(ps, p), p) == Upserted(ps, p)
  {
    var r := Upserted(ps, p);
    GetAfterAdd(ps, p);
    match FirstIndex(r, p.name)
    case Some(i) =>
      assert r[i] == p;
      assert r[i := p] == r;
  }

  /** Filtering distributes over concatenation, so it keeps the order of the
      surviving profiles. */
  lemma {:induction false} RemovedKeepsOrder(a: seq<Profile>, b: seq<Profile>, name: string)
    ensures Removed(a + b, name) == Removed(a, name) + Removed(b, name)
    decreases |a|
  {
    if a == [] {
      assert a + b == b;
    } else {
      assert (a + b)[1..] == a[1..] + b;
      RemovedKeepsOrder(a[1..], b, name);
    }
  }

  /** Removing a name that no profile has changes nothing. */
  lemma {:induction false} RemovedAbsentIsIdentity(ps: seq<Profile>, name: string)
    requires forall j :: 0 <= j < |ps| ==> ps[j].name != name
    ensures Removed(ps, name) == ps
    decreases |ps|
  {
    if ps != [] {
      RemovedAbsentIsIdentity(ps[1..], name);
      assert [ps[0]] + ps[1..] == ps;
    }
  }

  /** `remove_connection` is idempotent, and afterwards the name is not found. */
  lemma RemoveIsIdempotent(ps: seq<Profile>, name: string)
    ensures Removed(Removed(ps, name), name) == Removed(ps, name)
    ensures FirstNamed(Removed(ps, name), name) == None
  {
    var r := Removed(ps, name);
    assert forall j :: 0 <= j < |r| ==> r[j] in r;
    RemovedAbsentIsIdentity(r, name);
  }

  /** How the lookup of `name` treats the first profile of a list. */
  lemma FirstNamedCons(x: Profile, rest: seq<Profile>, name: string)
    ensures x.name == name ==> FirstNamed([x] + rest, name) == Some(x)
    ensures x.name != name ==> FirstNamed([x] + rest, name) == FirstNamed(rest, name)
  {
    assert ([x] + rest)[1..] == rest;
    assert ([x] + rest)[0] == x;
    if x.name != name {
      match FirstIndex(rest, name)
      case Some(i) =>
        assert ([x] + rest)[i + 1] == rest[i];
      case None =>
    }
  }

  /** Removing one name does not change what another name finds. */
  lemma {:induction false} RemoveKeepsOtherLookups(ps: seq<Profile>, name: string, other: string)
    requires other != name
    ensures FirstNamed(Removed(ps, name), other) == FirstNamed(ps, other)
    decreases |ps|
  {
    if ps != [] {
      var x, rest := ps[0], ps[1..];
      assert ps == [x] + rest;
      RemoveKeepsOtherLookups(rest, name, other);
      FirstNamedCons(x, rest, other);
      if x.name != name {
        assert Removed(ps, name) == [x] + Removed(rest, name);
        FirstNamedCons(x, Removed(rest, name), other);
      } else {
        assert Removed(ps, name) == Removed(rest, name);
      }
    }
  }

  /** A name is listed by `get_connection_names` exactly when `get_connection`
      finds it. */
  lemma NamesListFoundNames(ps: seq<Profile>, name: string)
    ensures name in Names(ps) <==> FirstNamed(ps, name).Some?
  {
    if FirstNamed(ps, name).Some? {
      var i := FirstIndex(ps, name).value;
      assert Names(ps)[i] == name;
    }
  }

  // ---------------------------------------------------------------------------
  // The ConfigManager object
  // ---------------------------------------------------------------------------

  class ConfigManager {
    var config: Config

    /** `ConfigManager()`: `loaded` is what reading the configuration file gave,
        `None` when the file is missing or unreadable. */
    constructor(loaded: Option<Config>)
      ensures config == if loaded.Some? then loaded.value else DefaultConfig()
    {
      config := if loaded.Some? then loaded.value else DefaultConfig();
    }

    method GetConnections() returns (cs: seq<Profile>)
      ensures config.connections.None? ==> cs == []
      ensures config.connections.Some? ==> cs == config.connections.value
    {
      cs := Connections(config);
    }

    /** `add_connection`: update the first profile of that name in place, or
        append a new one; return what saving reports. */
    method AddConnection(name: string, ip: string, user: string, port: int, saved: bool) returns (ok: bool)
      modifies this
      ensures config == old(config).(connections := Some(Upserted(Connections(old(config)), Profile(name, ip, user, port))))
      ensures ok == saved
    {
      var connection := Profile(name, ip, user, port);
      var connections := Connections(config);
      ghost var original := connections;
      var i := 0;
      var replaced := false;
      while i < |connections|
        invariant 0 <= i <= |connections| == |original|
        invariant !replaced ==> connections == original && forall j :: 0 <= j < i ==> original[j].name != name
        invariant replaced ==> connections == Upserted(original, connection)
      {
        if connections[i].name == name {
          connections := connections[i := connection];
          replaced := true;
          break;
        }
        i := i + 1;
      }
      if !replaced {
        connections := connections + [connection];
      }
      config := config.(connections := Some(connections));
      ok := saved;
    }

    /** `remove_connection`: keep the profiles with another name. */
    method RemoveConnection(name: string, saved: bool) returns (ok: bool)
      modifies this
      ensures config == old(config).(connections := Some(Removed(Connections(old(config)), name)))
      ensures ok == saved
    {
      config := config.(connections := Some(Removed(Connections(config), name)));
      ok := saved;
    }

    /** `get_connection`: a linear search that returns the first match. */
    method GetConnection(name: string) returns (r: Option<Profile>)
      ensures r == FirstNamed(Connections(config), name)
      ensures r.None? <==> forall j :: 0 <= j < |Connections(config)| ==> Connections(config)[j].name != name
      ensures r.Some? ==> r.value in Connections(config) && r.value.name == name
    {
      var connections := Connections(config);
      var i := 0;
      while i < |connections|
        invariant 0 <= i <= |connections|
        invariant forall j :: 0 <= j < i ==> connections[j].name != name
      {
        if connections[i].name == name {
          return Some(connections[i]);
        }
        i := i + 1;
      }
      return None;
    }

    method SetLastConnection(name: string, saved: bool) returns (ok: bool)
      modifies this
      ensures config == old(config).(lastConnection := Some(name))
      ensures ok == saved
    {
      config := config.(lastConnection := Some(name));
      ok := saved;
    }

    method GetLastConnection() returns (r: Option<string>)
      ensures r == config.lastConnection
    {
      r := config.lastConnection;
    }

    method GetSetting(key: string, default: Value) returns (v: Value)
      ensures v == Setting(config, key, default)
    {
      v := Setting(config, key, default);
    }

    /** `set_setting`: create the settings map if it is missing, then store. */
    method SetSetting(key: string, value: Value, saved: bool) returns (ok: bool)
      modifies this
      ensures config == old(config).(settings := Some(Settings(old(config))[key := value]))
      ensures Setting(config, key, value) == value
      ensures forall k, d :: k != key ==> Setting(config, k, d) == Setting(old(config), k, d)
      ensures ok == saved
    {
      if config.settings.None? {
        config := config.(settings := Some(map[]));
      }
      config := config.(settings := Some(config.settings.value[key := value]));
      ok := saved;
    }

    method GetConnectionNames() returns (names: seq<string>)
      ensures names == Names(Connections(config))
    {
      names := Names(Connections(config));
    }
  }

  /** A setting reads back as stored, whatever default is given; every other key
      reads as before, and storing leaves the profiles and the last connection alone. */
  lemma SetThenGetSetting(c: Config, key: string, value: Value, other: string, default: Value)
    ensures var c' := c.(settings := Some(Settings(c)[key := value]));
      && Setting(c', key, default) == value
      && (other != key ==> Setting(c', other, default) == Setting(c, other, default))
      && Connections(c') == Connections(c) && c'.lastConnection == c.lastConnection
  {
  }
}
