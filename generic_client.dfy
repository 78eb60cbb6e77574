/** The client built on the connection pools (AbstractGenericClient): the names of the
    connections opened for each configured driver, the parsing of the driver list,
    the list of connections available for execution with the local-execution
    handshake, and the map from request uuids to class loaders. */
module GenericClient {
  import opened JavaLang
  import opened ClientPools

  // ---------------------------------------------------------------------------
  // Connection naming.

  /** newConnection(name, info, priority): the number of connections opened for one
      driver, the configured pool size raised to at least 1. */
  function PoolSize(configured: int): (n: int)
    ensures n >= 1
    ensures configured >= 1 ==> n == configured
  {
    if configured < 1 then 1 else configured
  }

  /** The name of the i-th connection (1-based) of a driver whose pool has n
      connections: `name + '-' + i` when n > 1, the bare name otherwise. */
  function ConnectionName(name: string, n: int, i: int): string {
    if n > 1 then name + "-" + DecimalString(i) else name
  }

  /** The names of the connections opened for one driver, in creation order. */
  function ConnectionNames(name: string, configured: int): (r: seq<string>)
    ensures |r| == PoolSize(configured)
    ensures forall i :: 0 <= i < |r| ==> r[i] == ConnectionName(name, |r|, i + 1)
  {
    var n := PoolSize(configured);
    seq(n, i requires 0 <= i < n => ConnectionName(name, n, i + 1))
  }

  /** A pool of one connection keeps the driver's name; a larger pool suffixes every
      name with its rank, so no two connections of the driver share a name. */
  lemma ConnectionNamesSpec(name: string, configured: int)
    ensures configured <= 1 ==> ConnectionNames(name, configured) == [name]
    ensures configured > 1 ==> Distinct(ConnectionNames(name, configured))
    ensures configured > 1 ==> forall i :: 0 <= i < configured ==>
      ConnectionNames(name, configured)[i] == name + "-" + DecimalString(i + 1)
  {
    var r := ConnectionNames(name, configured);
    if configured > 1 {
      forall i, j | 0 <= i < j < |r| ensures r[i] != r[j] {
        if r[i] == r[j] {
          var p := name + "-";
          assert r[i] == p + DecimalString(i + 1) && r[j] == p + DecimalString(j + 1);
          assert DecimalString(i + 1) == r[i][|p|..];
          assert DecimalString(j + 1) == r[j][|p|..];
          DecimalStringInjective(i + 1, j + 1);
        }
      }
    }
  }

  // ---------------------------------------------------------------------------
  // The driver list.

  const DISCOVERY: string := "jppf_discovery"
  const DEFAULT_DRIVER: string := "default-driver"

  /** A character matched by the regular expression `\s`. */
  predicate IsSpace(c: char) {
    c == ' ' || c == '\t' || c == '\n' || c == '\U{B}' || c == '\U{C}' || c == '\r'
  }

  /** String.trim() leaves nothing: every character is at most U+0020. */
  predicate IsBlank(s: string) {
    forall i :: 0 <= i < |s| ==> s[i] <= ' '
  }

  /** The pieces of s between the whitespace characters, empty pieces included. */
  function Fields(s: string): (r: seq<string>)
    ensures |r| >= 1
    ensures forall i :: 0 <= i < |r| ==> forall j :: 0 <= j < |r[i]| ==> !IsSpace(r[i][j])
    decreases |s|
  {
    if |s| == 0 then [""]
    else
      var t := Fields(s[1..]);
      if IsSpace(s[0]) then [""] + t
      else [[s[0]] + t[0]] + t[1..]
  }

  /** The list without its trailing empty strings. */
  function DropTrailingEmpty(r: seq<string>): (t: seq<string>)
    ensures |t| <= |r| && t == r[..|t|]
    ensures |t| > 0 ==> t[|t| - 1] != ""
    ensures forall i :: |t| <= i < |r| ==> r[i] == ""
  {
    if |r| == 0 || r[|r| - 1] != "" then r
    else DropTrailingEmpty(r[..|r| - 1])
  }

  /** String.split("\\s"): the pieces between single whitespace characters, trailing
      empty pieces removed; a string without a match is returned whole. */
  function SplitOnSpace(s: string): (r: seq<string>)
    ensures forall i :: 0 <= i < |r| ==> forall j :: 0 <= j < |r[i]| ==> !IsSpace(r[i][j])
  {
    if forall i :: 0 <= i < |s| ==> !IsSpace(s[i]) then [s]
    else DropTrailingEmpty(Fields(s))
  }

  /** The driver names of initRemotePools: the "jppf.drivers" value, or
      "default-driver" when it is missing or blank, split on whitespace. */
  function DriverNames(drivers: Option<string>): (r: seq<string>)
    ensures drivers.None? || IsBlank(drivers.value) ==> r == [DEFAULT_DRIVER]
  {
    if drivers.None? || IsBlank(drivers.value) then
      DefaultDriverIsWord();
      SplitOnSpace(DEFAULT_DRIVER)
    else SplitOnSpace(drivers.value)
  }

  lemma DefaultDriverIsWord()
    ensures IsWord(DEFAULT_DRIVER) && SplitOnSpace(DEFAULT_DRIVER) == [DEFAULT_DRIVER]
  {
    assert DEFAULT_DRIVER == ['d', 'e', 'f', 'a', 'u', 'l', 't', '-', 'd', 'r', 'i', 'v', 'e', 'r'];
  }

  /** Names joined by single spaces, the inverse of the split. */
  function JoinWithSpace(names: seq<string>): string
    decreases |names|
  {
    if |names| == 0 then ""
    else if |names| == 1 then names[0]
    else names[0] + " " + JoinWithSpace(names[1..])
  }

  /** A name as it can appear in the driver list. */
  predicate IsWord(w: string) {
    forall j :: 0 <= j < |w| ==> !IsSpace(w[j])
  }

  lemma {:induction false} FieldsOfJoin(names: seq<string>)
    requires |names| >= 1 && forall i :: 0 <= i < |names| ==> IsWord(names[i])
    ensures Fields(JoinWithSpace(names)) == names
    decreases |names|, |names[0]|
  {
    var w := names[0];
    if |names| == 1 {
      FieldsOfWord(w);
    } else {
      var rest := JoinWithSpace(names[1..]);
      FieldsOfJoin(names[1..]);
      FieldsPrefix(w, rest);
    }
  }

  /** The fields of a word: the word alone. */
  lemma {:induction false} FieldsOfWord(w: string)
    requires IsWord(w)
    ensures Fields(w) == [w]
    decreases |w|
  {
    if |w| > 0 {
      FieldsOfWord(w[1..]);
      assert [w[0]] + w[1..] == w;
    }
  }

  /** A word, a space, then s: the word is the first field, followed by those of s. */
  lemma {:induction false} FieldsPrefix(w: string, s: string)
    requires IsWord(w)
    ensures Fields(w + " " + s) == [w] + Fields(s)
    decreases |w|
  {
    var x := w + " " + s;
    if |w| == 0 {
      assert x[1..] == s;
    } else {
      assert x[1..] == w[1..] + " " + s;
      FieldsPrefix(w[1..], s);
      assert [w[0]] + w[1..] == w;
    }
  }

  /** Splitting a space-separated list of non-empty names gives the names back. */
  lemma SplitJoinRoundTrip(names: seq<string>)
    requires |names| >= 1
    requires forall i :: 0 <= i < |names| ==> IsWord(names[i]) && names[i] != ""
    ensures SplitOnSpace(JoinWithSpace(names)) == names
  {
    FieldsOfJoin(names);
    var s := JoinWithSpace(names);
    if IsWord(s) {
      FieldsOfWord(s);
      assert names == [s];
    } else {
      assert names[|names| - 1] != "";
      assert DropTrailingEmpty(names) == names;
    }
  }

  /** A leading whitespace character yields a leading empty name. */
  lemma SplitKeepsLeadingEmpty()
    ensures SplitOnSpace(" a") == ["", "a"]
  {
    FieldsOfWord("a");
    assert " a"[0] == ' ' && " a"[1..] == "a";
    assert Fields(" a") == ["", "a"];
  }

  /** Two whitespace characters in a row yield an empty name between them. */
  lemma SplitKeepsInnerEmpty()
    ensures SplitOnSpace("a  b") == ["a", "", "b"]
  {
    FieldsOfWord("a");
    FieldsOfWord("b");
    FieldsPrefix("", "b");
    assert "" + " " + "b" == " b";
    FieldsPrefix("a", " b");
    assert "a" + " " + " b" == "a  b";
    assert Fields("a  b") == ["a", "", "b"];
    assert "a  b"[1] == ' ';
  }

  /** A trailing whitespace character yields no trailing empty name. */
  lemma SplitDropsTrailingEmpty()
    ensures SplitOnSpace("a ") == ["a"]
  {
    FieldsPrefix("a", "");
    assert "a" + " " + "" == "a ";
    var f := ["a", ""];
    assert Fields("a ") == f;
    assert "a "[1] == ' ';
    assert f[..|f| - 1] == ["a"];
    assert DropTrailingEmpty(f) == DropTrailingEmpty(["a"]);
  }

  // ---------------------------------------------------------------------------
  // Connections configured statically.

  /** What a driver's configuration says: host, server port, management port and
      priority. */
  datatype DriverInfo = DriverInfo(name: string, host: string, port: int, managementPort: int, priority: int)

  /** The configuration: the string and the integer value of a property, None when the
      property is missing (or, for an integer, not a number). */
  datatype Config = Config(strings: string -> Option<string>, ints: string -> Option<int>)

  /** A configuration that sets no property. */
  const EmptyConfig: Config := Config(k => None, k => None)

  function StringOr(cfg: Config, key: string, default: string): string {
    var v := cfg.strings(key);
    if v.Some? then v.value else default
  }

  function IntOr(cfg: Config, key: string, default: int): int {
    var v := cfg.ints(key);
    if v.Some? then v.value else default
  }

  /** The settings of one configured driver, each defaulted when missing. */
  function DriverSettings(cfg: Config, name: string): (d: DriverInfo)
    ensures d.name == name
    ensures cfg.strings(name + ".jppf.server.host").None? ==> d.host == "localhost"
    ensures cfg.ints(name + ".jppf.server.port").None? ==> d.port == 11111
    ensures cfg.ints(name + ".jppf.management.port").None? ==> d.managementPort == 11198
    ensures cfg.ints(name + ".priority").None? ==> d.priority == 0
    ensures cfg.ints(name + ".priority").Some? ==> d.priority == cfg.ints(name + ".priority").value
  {
    DriverInfo(name,
      StringOr(cfg, name + ".jppf.server.host", "localhost"),
      IntOr(cfg, name + ".jppf.server.port", 11111),
      IntOr(cfg, name + ".jppf.management.port", 11198),
      IntOr(cfg, name + ".priority", 0))
  }

  /** The drivers listed, "jppf_discovery" left out, in list order. */
  function ListedDrivers(cfg: Config, names: seq<string>): (r: seq<DriverInfo>)
    ensures |r| <= |names|
    ensures forall d :: d in r ==> d.name in names && d.name != DISCOVERY
    decreases |names|
  {
    if |names| == 0 then []
    else
      var rest := ListedDrivers(cfg, names[1..]);
      if names[0] == DISCOVERY then rest else [DriverSettings(cfg, names[0])] + rest
  }

  lemma {:induction false} ListedDriversComplete(cfg: Config, names: seq<string>)
    ensures forall n :: n in names && n != DISCOVERY ==> DriverSettings(cfg, n) in ListedDrivers(cfg, names)
    decreases |names|
  {
    if |names| > 0 {
      ListedDriversComplete(cfg, names[1..]);
      forall n | n in names && n != DISCOVERY ensures DriverSettings(cfg, n) in ListedDrivers(cfg, names) {
        if n != names[0] {
          assert n in names[1..];
        }
      }
    }
  }

  /** initRemotePools: with discovery enabled, the listed drivers are configured only
      when the list names "jppf_discovery"; with discovery disabled, always. */
  function ConfiguredDrivers(cfg: Config, discoveryEnabled: bool, drivers: Option<string>): seq<DriverInfo> {
    var names := DriverNames(drivers);
    if !discoveryEnabled || DISCOVERY in names then ListedDrivers(cfg, names) else []
  }

  /** Which drivers get connections from the configuration: exactly the names listed
      other than "jppf_discovery", when discovery is off or the list asks for it. */
  lemma ConfiguredDriversSpec(cfg: Config, discoveryEnabled: bool, drivers: Option<string>)
    ensures var names := DriverNames(drivers); var r := ConfiguredDrivers(cfg, discoveryEnabled, drivers);
      && (discoveryEnabled && DISCOVERY !in names ==> r == [])
      && (forall d :: d in r ==> d.name in names && d.name != DISCOVERY && d == DriverSettings(cfg, d.name))
      && (!discoveryEnabled || DISCOVERY in names ==>
            forall n :: n in names && n != DISCOVERY ==> DriverSettings(cfg, n) in r)
  {
    var names := DriverNames(drivers);
    ListedDriversComplete(cfg, names);
    ListedDriversSettings(cfg, names);
  }

  lemma {:induction false} ListedDriversSettings(cfg: Config, names: seq<string>)
    ensures forall d :: d in ListedDrivers(cfg, names) ==> d == DriverSettings(cfg, d.name)
    decreases |names|
  {
    if |names| > 0 {
      ListedDriversSettings(cfg, names[1..]);
    }
  }

  /** With no driver list and discovery disabled, one driver "default-driver" is
      configured with the default host and ports. */
  lemma DefaultDriverOnly()
    ensures ConfiguredDrivers(EmptyConfig, false, None) == [DriverInfo(DEFAULT_DRIVER, "localhost", 11111, 11198, 0)]
  {
    var cfg := EmptyConfig;
    var names := DriverNames(None);
    assert names == [DEFAULT_DRIVER];
    assert DEFAULT_DRIVER[0] == 'd' && DISCOVERY[0] == 'j';
    assert DEFAULT_DRIVER != DISCOVERY;
    var d := DriverSettings(cfg, DEFAULT_DRIVER);
    assert d == DriverInfo(DEFAULT_DRIVER, "localhost", 11111, 11198, 0);
    assert names[1..] == [];
    assert ListedDrivers(cfg, names) == [d];
  }

  // ---------------------------------------------------------------------------
  // The request class-loader map (a Hashtable: null keys and values are refused).

  /** A class loader, by identity. */
  datatype Loader = Loader(id: nat)

  /** The outcome of a Hashtable call: a NullPointerException, or a value. */
  datatype Outcome<T> = NullPointer | Done(value: T)

  /** addRequestClassLoader: put, refusing a null uuid or loader. */
  function LoaderPut(m: map<string, Loader>, uuid: Option<string>, cl: Option<Loader>): (r: Outcome<map<string, Loader>>)
    ensures r.NullPointer? <==> uuid.None? || cl.None?
    ensures r.Done? ==> r.value.Keys == m.Keys + {uuid.value}
    ensures r.Done? ==> r.value[uuid.value] == cl.value
    ensures r.Done? ==> forall k :: k in m && k != uuid.value ==> r.value[k] == m[k]
  {
    if uuid.None? || cl.None? then NullPointer else Done(m[uuid.value := cl.value])
  }

  /** removeRequestClassLoader: remove, refusing a null uuid. */
  function LoaderRemove(m: map<string, Loader>, uuid: Option<string>): (r: Outcome<map<string, Loader>>)
    ensures r.NullPointer? <==> uuid.None?
    ensures r.Done? ==> r.value.Keys == m.Keys - {uuid.value}
    ensures r.Done? ==> forall k :: k in r.value ==> r.value[k] == m[k]
  {
    if uuid.None? then NullPointer else Done(m - {uuid.value})
  }

  /** getRequestClassLoader: get, null when absent, refusing a null uuid. */
  function LoaderGet(m: map<string, Loader>, uuid: Option<string>): (r: Outcome<Option<Loader>>)
    ensures r.NullPointer? <==> uuid.None?
    ensures r.Done? ==> (r.value.Some? <==> uuid.value in m)
    ensures r.Done? && uuid.value in m ==> r.value == Some(m[uuid.value])
  {
    if uuid.None? then NullPointer
    else if uuid.value in m then Done(Some(m[uuid.value]))
    else Done(None)
  }

  /** put then get returns the loader put, remove then get returns null, and neither
      disturbs another uuid. */
  lemma LoaderMapRoundTrip(m: map<string, Loader>, uuid: string, other: string, cl: Loader)
    requires other != uuid
    ensures LoaderGet(LoaderPut(m, Some(uuid), Some(cl)).value, Some(uuid)) == Done(Some(cl))
    ensures LoaderGet(LoaderRemove(m, Some(uuid)).value, Some(uuid)) == Done(None)
    ensures LoaderGet(LoaderPut(m, Some(uuid), Some(cl)).value, Some(other)) == LoaderGet(m, Some(other))
    ensures LoaderGet(LoaderRemove(m, Some(uuid)).value, Some(other)) == LoaderGet(m, Some(other))
  {
  }

  // ---------------------------------------------------------------------------
  // The available connections.

  /** statusChanged on the available list: an ACTIVE connection is appended, even if
      already listed; any other status removes its first occurrence. */
  function AvailableAfter(list: seq<Connection>, c: Connection, status: Status): (r: seq<Connection>)
    ensures status == Active ==> |r| == |list| + 1 && r[..|list|] == list && r[|list|] == c
    ensures status != Active ==> |r| == (if c in list then |list| - 1 else |list|)
  {
    if status == Active then list + [c] else RemoveFirst(list, c)
  }

  /** Each ACTIVE event adds one occurrence and each other event removes one, when
      there is one; a connection made ACTIVE then anything else leaves a list that did
      not hold it as it was. */
  lemma AvailableAfterSpec(list: seq<Connection>, c: Connection, status: Status, later: Status)
    ensures status == Active ==> multiset(AvailableAfter(list, c, status)) == multiset(list) + multiset{c}
    ensures status != Active ==> multiset(AvailableAfter(list, c, status)) == multiset(list) - multiset{c}
    ensures c !in list && later != Active ==> AvailableAfter(AvailableAfter(list, c, Active), c, later) == list
  {
    if status != Active {
      RemoveFirstMultiset(list, c);
    }
    if c !in list {
      RemoveFirstLast(list, c);
    }
  }

  /** AbstractGenericClient: the pools of its base client, the load balancer's two
      flags for local execution, the available connections and the class loaders. */
  class Client {
    const pools: ClientPools.Client
    var localEnabled: bool
    var locallyExecuting: bool
    var available: seq<Connection>
    var loaders: map<string, Loader>

    ghost predicate Valid()
      reads this, pools, pools.pools.Values
    {
      pools.Valid()
    }

    /** The constructors: the load balancer is created by initPools; no connection is
        available and no class loader is registered yet. */
    constructor (pools: ClientPools.Client, localEnabled: bool)
      requires pools.Valid()
      ensures this.pools == pools && Valid()
      ensures this.localEnabled == localEnabled && !locallyExecuting
      ensures available == [] && loaders == map[]
    {
      this.pools := pools;
      this.localEnabled := localEnabled;
      locallyExecuting := false;
      available := [];
      loaders := map[];
    }

    /** A local execution could start now. */
    predicate LocalSlotFree()
      reads this
    {
      localEnabled && !locallyExecuting
    }

    /** hasAvailableConnection: a remote connection is available, or local execution
        can start. */
    method HasAvailableConnection() returns (b: bool)
      ensures b <==> |available| > 0 || LocalSlotFree()
    {
      b := |available| > 0 || (localEnabled && !locallyExecuting);
    }

    /** handleAvailableConnection: (b1, b2), b2 telling that this call took the local
        execution slot; after any call the slot is taken. */
    method HandleAvailableConnection() returns (b1: bool, b2: bool)
      modifies this
      ensures b1 <==> |old(available)| > 0 || old(LocalSlotFree())
      ensures b2 <==> old(LocalSlotFree())
      ensures b2 ==> b1
      ensures locallyExecuting == (old(locallyExecuting) || b2)
      ensures !LocalSlotFree()
      ensures available == old(available) && localEnabled == old(localEnabled) && loaders == old(loaders)
    {
      b1 := HasAvailableConnection();
      b2 := false;
      if b1 && localEnabled && !locallyExecuting {
        locallyExecuting := true;
        b2 := true;
      }
    }

    /** handleAvailableConnection2: the same, returning b1 only. */
    method HandleAvailableConnection2() returns (b1: bool)
      modifies this
      ensures b1 <==> |old(available)| > 0 || old(LocalSlotFree())
      ensures locallyExecuting == (old(locallyExecuting) || old(LocalSlotFree()))
      ensures !LocalSlotFree()
      ensures available == old(available) && localEnabled == old(localEnabled) && loaders == old(loaders)
    {
      var took;
      b1, took := HandleAvailableConnection();
    }

    /** isLocalExecutionEnabled */
    method IsLocalExecutionEnabled() returns (b: bool)
      ensures b == localEnabled
    {
      b := localEnabled;
    }

    /** setLocalExecutionEnabled */
    method SetLocalExecutionEnabled(enabled: bool)
      modifies this
      ensures localEnabled == enabled
      ensures locallyExecuting == old(locallyExecuting) && available == old(available) && loaders == old(loaders)
    {
      localEnabled := enabled;
    }

    /** statusChanged: the base client's pruning first; a fatal error there leaves the
        available list alone; otherwise an ACTIVE connection is appended and any other
        status removes it. */
    method StatusChanged(c: Connection, status: Status) returns (outcome: StatusOutcome)
      requires Valid()
      modifies this, pools, pools.pools.Values
      ensures Valid()
      ensures (outcome, pools.State()) == AfterStatusChange(old(pools.State()), c, status)
      ensures available == (if outcome == NoMoreConnections then old(available) else AvailableAfter(old(available), c, status))
      ensures localEnabled == old(localEnabled) && locallyExecuting == old(locallyExecuting) && loaders == old(loaders)
    {
      outcome := pools.StatusChanged(c, status);
      if outcome == NoMoreConnections {
        return;
      }
      if status == Active {
        available := available + [c];
      } else {
        available := RemoveFirst(available, c);
      }
    }

    /** addRequestClassLoader */
    method AddRequestClassLoader(uuid: Option<string>, cl: Option<Loader>) returns (npe: bool)
      modifies this
      ensures npe <==> LoaderPut(old(loaders), uuid, cl).NullPointer?
      ensures loaders == (if npe then old(loaders) else LoaderPut(old(loaders), uuid, cl).value)
      ensures available == old(available) && localEnabled == old(localEnabled) && locallyExecuting == old(locallyExecuting)
    {
      var r := LoaderPut(loaders, uuid, cl);
      npe := r.NullPointer?;
      if !npe {
        loaders := r.value;
      }
    }

    /** removeRequestClassLoader */
    method RemoveRequestClassLoader(uuid: Option<string>) returns (npe: bool)
      modifies this
      ensures npe <==> uuid.None?
      ensures loaders == (if npe then old(loaders) else LoaderRemove(old(loaders), uuid).value)
      ensures available == old(available) && localEnabled == old(localEnabled) && locallyExecuting == old(locallyExecuting)
    {
      var r := LoaderRemove(loaders, uuid);
      npe := r.NullPointer?;
      if !npe {
        loaders := r.value;
      }
    }

    /** getRequestClassLoader */
    method GetRequestClassLoader(uuid: Option<string>) returns (r: Outcome<Option<Loader>>)
      ensures r == LoaderGet(loaders, uuid)
    {
      r := LoaderGet(loaders, uuid);
    }
  }
}
