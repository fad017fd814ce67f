/**
 * The Velocity alias bridge (`VelocityAliasBridge`): each configured alias is
 * registered in the proxy as a virtual server on consecutive local ports, so
 * that a connection to that server name can be redirected into the limbo the
 * alias names. The bridge remembers the lower-cased aliases it registered.
 */
module Bridge {
  import opened Util
  import opened Text
  import opened Config
  import opened Platform

  /** The first alias entry equal to `alias` ignoring case gives its limbo. */
  function FirstAlias(entries: seq<(string, string)>, alias: string): (r: Option<string>)
    ensures r.None? <==> forall k :: 0 <= k < |entries| ==> !EqualsIgnoreCase(entries[k].0, alias)
    ensures r.Some? ==>
      exists k :: 0 <= k < |entries| && EqualsIgnoreCase(entries[k].0, alias)
        && entries[k].1 == r.value && forall j :: 0 <= j < k ==> !EqualsIgnoreCase(entries[j].0, alias)
  {
    if entries == [] then None
    else if EqualsIgnoreCase(entries[0].0, alias) then Some(entries[0].1)
    else
      var r := FirstAlias(entries[1..], alias);
      assert r.Some? ==>
        exists k :: 0 <= k < |entries| && EqualsIgnoreCase(entries[k].0, alias)
          && entries[k].1 == r.value && forall j :: 0 <= j < k ==> !EqualsIgnoreCase(entries[j].0, alias)
      by {
        if r.Some? {
          var k :| 0 <= k < |entries[1..]| && EqualsIgnoreCase(entries[1..][k].0, alias)
            && entries[1..][k].1 == r.value && forall j :: 0 <= j < k ==> !EqualsIgnoreCase(entries[1..][j].0, alias);
          assert entries[k + 1] == entries[1..][k];
          forall j | 0 <= j < k + 1 ensures !EqualsIgnoreCase(entries[j].0, alias) {
            if j > 0 {
              assert entries[j] == entries[1..][j - 1];
            }
          }
        }
      }
      assert r.None? ==> forall k :: 0 <= k < |entries| ==> !EqualsIgnoreCase(entries[k].0, alias) by {
        if r.None? {
          forall k | 0 <= k < |entries| ensures !EqualsIgnoreCase(entries[k].0, alias) {
            if k > 0 {
              assert entries[k] == entries[1..][k - 1];
            }
          }
        }
      }
      r
  }

  /** `resolveLimboByAlias`: nothing when the bridge is off or the name is
      null; otherwise the limbo of the first alias equal to the name ignoring case. */
  function ResolveLimboByAlias(config: VelocityBridgeConfig, alias: Option<string>): (r: Option<string>)
    ensures !config.enabled || alias.None? ==> r.None?
    ensures config.enabled && alias.Some? ==>
      (r.None? <==> forall k :: 0 <= k < |config.aliases| ==> !EqualsIgnoreCase(config.aliases[k].0, alias.value))
    ensures r.Some? ==>
      exists k :: 0 <= k < |config.aliases| && EqualsIgnoreCase(config.aliases[k].0, alias.value)
        && config.aliases[k].1 == r.value
        && forall j :: 0 <= j < k ==> !EqualsIgnoreCase(config.aliases[j].0, alias.value)
  {
    if !config.enabled || alias.None? then None else FirstAlias(config.aliases, alias.value)
  }

  /** Server names that differ only in case resolve to the same limbo. */
  lemma {:induction false} ResolveIgnoresCase(config: VelocityBridgeConfig, a: string, b: string)
    requires EqualsIgnoreCase(a, b)
    ensures ResolveLimboByAlias(config, Some(a)) == ResolveLimboByAlias(config, Some(b))
  {
    FirstAliasIgnoresCase(config.aliases, a, b);
  }

  lemma {:induction false} FirstAliasIgnoresCase(entries: seq<(string, string)>, a: string, b: string)
    requires EqualsIgnoreCase(a, b)
    ensures FirstAlias(entries, a) == FirstAlias(entries, b)
    decreases |entries|
  {
    if entries != [] {
      FirstAliasIgnoresCase(entries[1..], a, b);
    }
  }

  /** The first name of `names` whose lower-cased form is not in `registered`. */
  function FirstOutside(registered: set<string>, names: seq<string>): (r: Option<string>)
    ensures r.None? <==> forall k :: 0 <= k < |names| ==> Lower(names[k]) in registered
    ensures r.Some? ==>
      exists k :: 0 <= k < |names| && names[k] == r.value && Lower(names[k]) !in registered
        && forall j :: 0 <= j < k ==> Lower(names[j]) in registered
  {
    if names == [] then None
    else if Lower(names[0]) !in registered then Some(names[0])
    else
      var r := FirstOutside(registered, names[1..]);
      assert r.Some? ==>
        exists k :: 0 <= k < |names| && names[k] == r.value && Lower(names[k]) !in registered
          && forall j :: 0 <= j < k ==> Lower(names[j]) in registered
      by {
        if r.Some? {
          var k :| 0 <= k < |names[1..]| && names[1..][k] == r.value && Lower(names[1..][k]) !in registered
            && forall j :: 0 <= j < k ==> Lower(names[1..][j]) in registered;
          assert names[k + 1] == names[1..][k];
          forall j | 0 <= j < k + 1 ensures Lower(names[j]) in registered {
            if j > 0 {
              assert names[j] == names[1..][j - 1];
            }
          }
        }
      }
      assert r.None? ==> forall k :: 0 <= k < |names| ==> Lower(names[k]) in registered by {
        if r.None? {
          forall k | 0 <= k < |names| ensures Lower(names[k]) in registered {
            if k > 0 {
              assert names[k] == names[1..][k - 1];
            }
          }
        }
      }
      r
  }

  /** The state `registerAliases` works on: the proxy's registry, the recorded
      aliases, the calls made so far, the next port, and whether the loop was
      cut short by an exception. */
  datatype Registration = Registration(
    servers: map<string, ServerInfo>,
    registered: set<string>,
    effects: seq<Effect>,
    port: int,
    aborted: bool)

  /** The largest port `InetSocketAddress` accepts; a larger one throws and
      ends `registerAliases`. */
  const MaxPort: int := 65535

  /** One entry of the `registerAliases` loop. A blank alias is skipped. An
      alias already registered is unregistered first when overriding is on,
      and otherwise skipped. A new alias takes the next port. */
  function RegisterStep(r: Registration, config: VelocityBridgeConfig, entry: (string, string)): (s: Registration)
    ensures r.aborted || IsBlank(entry.0) ==> s == r
    ensures r.effects <= s.effects
    ensures r.registered <= s.registered <= r.registered + {Lower(entry.0)}
    ensures s.port == r.port || s.port == r.port + 1
    ensures s.port == r.port + 1 ==> !s.aborted && r.port <= MaxPort && Lower(entry.0) in s.registered
    ensures s.aborted && !r.aborted ==> r.port > MaxPort && s.port == r.port
  {
    var alias := entry.0;
    if r.aborted || IsBlank(alias) then r
    else
      var key := Lower(alias);
      var overridden := key in r.servers && config.overrideExisting;
      var servers := if overridden then r.servers - {Lower(r.servers[key].name)} else r.servers;
      var effects := r.effects + (if overridden then [UnregisterServer(r.servers[key])] else []);
      if key in servers then r.(servers := servers, effects := effects)
      else if r.port > MaxPort then r.(servers := servers, effects := effects, aborted := true)
      else
        var info := ServerInfo(alias, config.host, r.port);
        Registration(servers[key := info], r.registered + {key}, effects + [RegisterServer(info)], r.port + 1, false)
  }

  /** The rest of the loop, entry by entry. */
  function RegisterAll(r: Registration, config: VelocityBridgeConfig, entries: seq<(string, string)>): (s: Registration)
    ensures r.effects <= s.effects
    ensures r.registered <= s.registered
    ensures r.port <= s.port <= r.port + |entries|
    ensures r.aborted ==> s.aborted
    decreases |entries|
  {
    if entries == [] then r else RegisterAll(RegisterStep(r, config, entries[0]), config, entries[1..])
  }

  /** Where the loop starts from. */
  function StartRegistration(config: VelocityBridgeConfig, servers: map<string, ServerInfo>, registered: set<string>): Registration
  {
    Registration(servers, registered, [], Max(1, config.startPort), false)
  }

  /** The loop from entry `i` on is entry `i`'s step, then the loop from `i + 1` on. */
  lemma RegisterAllUnfold(r: Registration, config: VelocityBridgeConfig, entries: seq<(string, string)>, i: nat)
    requires i < |entries|
    ensures RegisterAll(r, config, entries[i..]) == RegisterAll(RegisterStep(r, config, entries[i]), config, entries[i + 1..])
  {
    assert entries[i..][1..] == entries[i + 1..];
  }

  /** Once the loop has been cut short nothing else happens. */
  lemma {:induction false} AbortedStays(r: Registration, config: VelocityBridgeConfig, entries: seq<(string, string)>)
    requires r.aborted
    ensures RegisterAll(r, config, entries) == r
    decreases |entries|
  {
    if entries != [] {
      AbortedStays(r, config, entries[1..]);
    }
  }

  /** Without overriding, an alias that already names a server changes nothing. */
  lemma SkipsExisting(r: Registration, config: VelocityBridgeConfig, entry: (string, string))
    requires !config.overrideExisting && Lower(entry.0) in r.servers
    ensures RegisterStep(r, config, entry) == r
  {
  }

  /** With overriding, an alias that already names a server in a well-keyed
      registry replaces it: the old server is unregistered and the alias is
      registered on the next port. */
  lemma OverrideReplaces(r: Registration, config: VelocityBridgeConfig, entry: (string, string))
    requires config.overrideExisting && !r.aborted && !IsBlank(entry.0)
    requires WellKeyed(r.servers) && Lower(entry.0) in r.servers && r.port <= MaxPort
    ensures var info := ServerInfo(entry.0, config.host, r.port);
      RegisterStep(r, config, entry)
      == Registration(r.servers[Lower(entry.0) := info], r.registered + {Lower(entry.0)},
                      r.effects + [UnregisterServer(r.servers[Lower(entry.0)]), RegisterServer(info)],
                      r.port + 1, false)
  {
    var key := Lower(entry.0);
    assert Lower(r.servers[key].name) == key;
    assert r.servers - {key} + map[key := ServerInfo(entry.0, config.host, r.port)]
      == r.servers[key := ServerInfo(entry.0, config.host, r.port)];
  }

  /** The ports of the servers registered by a sequence of calls, in order. */
  function Ports(effects: seq<Effect>): seq<int>
  {
    if effects == [] then []
    else
      var last := effects[|effects| - 1];
      Ports(effects[..|effects| - 1]) + (if last.RegisterServer? then [last.info.port] else [])
  }

  /** `lo, lo + 1, ..., hi - 1`. */
  function Range(lo: int, hi: int): (r: seq<int>)
    ensures |r| == if lo <= hi then hi - lo else 0
    ensures forall i :: 0 <= i < |r| ==> r[i] == lo + i
    decreases hi - lo
  {
    if lo >= hi then [] else Range(lo, hi - 1) + [hi - 1]
  }

  lemma {:induction false} PortsAppend(a: seq<Effect>, b: seq<Effect>)
    ensures Ports(a + b) == Ports(a) + Ports(b)
    decreases |b|
  {
    if b != [] {
      var b' := b[..|b| - 1];
      var last := b[|b| - 1];
      var tail := if last.RegisterServer? then [last.info.port] else [];
      assert (a + b)[..|a + b| - 1] == a + b';
      assert (a + b)[|a + b| - 1] == last;
      assert Ports(a + b) == Ports(a + b') + tail;
      PortsAppend(a, b');
      assert Ports(b) == Ports(b') + tail;
    } else {
      assert a + b == a;
    }
  }

  /** The lower-cased names of the servers registered by a sequence of calls. */
  function RegisteredKeys(effects: seq<Effect>): set<string>
  {
    set e | e in effects && e.RegisterServer? :: Lower(e.info.name)
  }

  /** What one entry appends to the calls: possibly an unregistration, then
      possibly a registration on the current port. */
  lemma StepShape(r: Registration, config: VelocityBridgeConfig, entry: (string, string))
    ensures exists extra: seq<Effect> :: StepShaped(r, RegisterStep(r, config, entry), extra, entry.0, config.host)
  {
    var s := RegisterStep(r, config, entry);
    if r.aborted || IsBlank(entry.0) {
      assert r.effects + [] == r.effects;
      assert StepShaped(r, s, [], entry.0, config.host);
    } else {
      var key := Lower(entry.0);
      var overridden := key in r.servers && config.overrideExisting;
      var extra := if overridden then [UnregisterServer(r.servers[key])] else [];
      assert StepShaped(r, s, extra, entry.0, config.host);
    }
  }

  lemma UnregistrationsAddNothing(a: seq<Effect>, extra: seq<Effect>)
    requires forall e :: e in extra ==> e.UnregisterServer?
    ensures Ports(a + extra) == Ports(a)
    ensures RegisteredKeys(a + extra) == RegisteredKeys(a)
  {
    PortsAppend(a, extra);
    assert Ports(extra) == [] by {
      if extra != [] {
        NoPortsWithoutRegistration(extra);
      }
    }
  }

  lemma {:induction false} NoPortsWithoutRegistration(extra: seq<Effect>)
    requires forall e :: e in extra ==> e.UnregisterServer?
    ensures Ports(extra) == []
    decreases |extra|
  {
    if extra != [] {
      assert extra[|extra| - 1] in extra;
      NoPortsWithoutRegistration(extra[..|extra| - 1]);
    }
  }

  /** The shape `StepShape` describes: nothing registered, or one server on
      the current port. */
  predicate StepShaped(r: Registration, s: Registration, extra: seq<Effect>, alias: string, host: string)
  {
    (forall e :: e in extra ==> e.UnregisterServer?)
    && ((s.port == r.port && s.effects == r.effects + extra && s.registered == r.registered)
        || (s.port == r.port + 1 && r.port <= MaxPort
            && s.effects == r.effects + extra + [RegisterServer(ServerInfo(alias, host, r.port))]
            && s.registered == r.registered + {Lower(alias)}))
  }

  lemma ShapedFacts(r: Registration, s: Registration, extra: seq<Effect>, alias: string, host: string)
    requires StepShaped(r, s, extra, alias, host)
    requires r.port <= MaxPort + 1 && RegisteredKeys(r.effects) <= r.registered
    ensures Grows(r, s)
  {
    UnregistrationsAddNothing(r.effects, extra);
    if s.port == r.port + 1 {
      var info := ServerInfo(alias, host, r.port);
      PortsAppend(r.effects + extra, [RegisterServer(info)]);
      assert [RegisterServer(info)][..0] == [];
      assert Ports([RegisterServer(info)]) == [r.port];
      assert Range(r.port, r.port + 1) == [r.port];
      assert RegisteredKeys(s.effects) == RegisteredKeys(r.effects + extra) + {Lower(alias)};
    } else {
      assert Range(r.port, r.port) == [];
    }
  }

  /** One entry either leaves the port alone and registers nothing, or
      registers exactly one server, recorded lower-cased, on the current port
      and moves to the next. */
  lemma StepFacts(r: Registration, config: VelocityBridgeConfig, entry: (string, string))
    requires r.port <= MaxPort + 1 && RegisteredKeys(r.effects) <= r.registered
    ensures Grows(r, RegisterStep(r, config, entry))
  {
    var s := RegisterStep(r, config, entry);
    StepShape(r, config, entry);
    var extra: seq<Effect> :| StepShaped(r, s, extra, entry.0, config.host);
    ShapedFacts(r, s, extra, entry.0, config.host);
  }

  /** Registration keeps a well-keyed registry well-keyed. */
  lemma StepWellKeyed(r: Registration, config: VelocityBridgeConfig, entry: (string, string))
    requires WellKeyed(r.servers)
    ensures WellKeyed(RegisterStep(r, config, entry).servers)
  {
    if !r.aborted && !IsBlank(entry.0) {
      LowerIdempotent(entry.0);
    }
  }

  lemma RangeAppend(lo: int, mid: int, hi: int)
    requires lo <= mid <= hi
    ensures Range(lo, mid) + Range(mid, hi) == Range(lo, hi)
  {
  }

  lemma KeysGrow(a: seq<Effect>, b: seq<Effect>)
    requires a <= b
    ensures RegisteredKeys(a) <= RegisteredKeys(b)
  {
    forall e | e in a ensures e in b {
      var i :| 0 <= i < |a| && a[i] == e;
      assert b[i] == e;
    }
  }

  /** From `r` to `f` the port only grows and stays valid, calls are only
      appended, the servers registered in between got the ports from `r`'s
      port up to `f`'s, one each, and the recorded aliases are exactly the
      earlier ones plus the lower-cased names of the servers registered. */
  predicate Grows(r: Registration, f: Registration)
  {
    r.port <= f.port <= MaxPort + 1 && r.effects <= f.effects
    && Ports(f.effects) == Ports(r.effects) + Range(r.port, f.port)
    && f.registered == r.registered + RegisteredKeys(f.effects)
  }

  lemma GrowsTransitive(r: Registration, s: Registration, f: Registration)
    requires RegisteredKeys(r.effects) <= r.registered
    requires Grows(r, s) && Grows(s, f)
    ensures Grows(r, f)
  {
    KeysGrow(r.effects, s.effects);
    KeysGrow(s.effects, f.effects);
    RangeAppend(r.port, s.port, f.port);
  }

  /** Registered aliases get consecutive ports from the start port on, none
      above the largest valid port; and every alias registered is recorded
      lower-cased, and nothing else is. */
  lemma {:induction false} RegisterAllFacts(r: Registration, config: VelocityBridgeConfig, entries: seq<(string, string)>)
    requires r.port <= MaxPort + 1 && RegisteredKeys(r.effects) <= r.registered
    ensures Grows(r, RegisterAll(r, config, entries))
    decreases |entries|
  {
    if entries == [] {
      assert Range(r.port, r.port) == [];
    } else {
      var s := RegisterStep(r, config, entries[0]);
      StepFacts(r, config, entries[0]);
      KeysGrow(s.effects, s.effects);
      RegisterAllFacts(s, config, entries[1..]);
      GrowsTransitive(r, s, RegisterAll(s, config, entries[1..]));
    }
  }

  /** A whole `registerAliases` run: the i-th server it registers gets the
      start port (at least 1) plus i, none gets a port above 65535, and the
      recorded aliases grow by exactly the lower-cased names it registered. */
  lemma RegistrationRun(config: VelocityBridgeConfig, servers: map<string, ServerInfo>, registered: set<string>)
    requires config.startPort <= MaxPort + 1
    ensures var f := RegisterAll(StartRegistration(config, servers, registered), config, config.aliases);
      Ports(f.effects) == Range(Max(1, config.startPort), f.port)
      && f.port <= MaxPort + 1
      && f.registered == registered + RegisteredKeys(f.effects)
  {
    var init := StartRegistration(config, servers, registered);
    assert RegisteredKeys(init.effects) == {};
    RegisterAllFacts(init, config, config.aliases);
  }

  /** A well-keyed registry stays well-keyed. */
  lemma {:induction false} RegisterAllWellKeyed(r: Registration, config: VelocityBridgeConfig, entries: seq<(string, string)>)
    requires WellKeyed(r.servers)
    ensures WellKeyed(RegisterAll(r, config, entries).servers)
    decreases |entries|
  {
    if entries != [] {
      StepWellKeyed(r, config, entries[0]);
      RegisterAllWellKeyed(RegisterStep(r, config, entries[0]), config, entries[1..]);
    }
  }

  /** The calls `unregisterAliases` makes for the aliases in `order`, and the
      registry it leaves: each alias still registered is unregistered. */
  function UnregisterAll(servers: map<string, ServerInfo>, order: seq<string>): (r: (map<string, ServerInfo>, seq<Effect>))
    ensures r.0.Keys <= servers.Keys
    ensures |r.1| <= |order|
    ensures forall e :: e in r.1 ==> e.UnregisterServer?
    ensures order == [] ==> r == (servers, [])
    decreases |order|
  {
    if order == [] then (servers, [])
    else
      var key := Lower(order[0]);
      if key in servers then
        var rest := UnregisterAll(servers - {Lower(servers[key].name)}, order[1..]);
        (rest.0, [UnregisterServer(servers[key])] + rest.1)
      else UnregisterAll(servers, order[1..])
  }

  /** On a well-keyed registry, unregistering lower-case aliases removes
      exactly those names, and every call unregisters a server that was
      registered. */
  lemma {:induction false} UnregisterAllRemovesExactly(servers: map<string, ServerInfo>, order: seq<string>)
    requires WellKeyed(servers)
    requires forall a :: a in order ==> Lower(a) == a
    ensures UnregisterAll(servers, order).0 == servers - (set a | a in order)
    ensures forall e :: e in UnregisterAll(servers, order).1 ==> e.UnregisterServer? && e.info in servers.Values
    decreases |order|
  {
    if order != [] {
      var key := order[0];
      var next := if key in servers then servers - {key} else servers;
      assert WellKeyed(next);
      UnregisterAllRemovesExactly(next, order[1..]);
      assert order == [key] + order[1..];
      assert (set a | a in order) == {key} + (set a | a in order[1..]);
      if key in servers {
        assert Lower(servers[key].name) == key;
        assert servers[key] in servers.Values;
      }
    }
  }

  /** `VelocityAliasBridge`. */
  class VelocityAliasBridge {
    /** The lower-cased aliases this bridge registered. */
    var registeredAliases: set<string>
    const proxy: Proxy

    /** Recorded aliases are lower-cased. */
    predicate Valid()
      reads this
    {
      forall a :: a in registeredAliases ==> Lower(a) == a
    }

    constructor (proxy: Proxy)
      ensures Valid() && registeredAliases == {} && this.proxy == proxy
    {
      registeredAliases := {};
      this.proxy := proxy;
    }

    /** Entry `i` of the `registerAliases` loop on the live registry: it does
        what `RegisterStep` describes, `added` being the calls it makes, so
        the rest of the loop ends where the loop from `i` would have. */
    method RegisterEntry(config: VelocityBridgeConfig, i: nat, port: int, ghost effects: seq<Effect>)
      returns (next: int, aborted: bool, ghost added: seq<Effect>)
      requires Valid() && i < |config.aliases|
      modifies this, proxy
      ensures Valid()
      ensures RegisterAll(Registration(proxy.servers, registeredAliases, effects + added, next, aborted), config, config.aliases[i + 1..])
        == RegisterAll(old(Registration(proxy.servers, registeredAliases, effects, port, false)), config, config.aliases[i..])
      ensures proxy.log == old(proxy.log) + added && proxy.injectorAvailable == old(proxy.injectorAvailable)
    {
      ghost var before := Registration(proxy.servers, registeredAliases, effects, port, false);
      RegisterAllUnfold(before, config, config.aliases, i);
      next, aborted, added := port, false, [];
      var alias := config.aliases[i].0;
      if !IsBlank(alias) {
        var existing := proxy.GetServer(alias);
        if existing.Some? && config.overrideExisting {
          proxy.Unregister(existing.value);
          added := added + [UnregisterServer(existing.value)];
        }
        if proxy.GetServer(alias).None? {
          if port > MaxPort {
            aborted := true;
          } else {
            var info := ServerInfo(alias, config.host, port);
            next := port + 1;
            proxy.Register(info);
            LowerIdempotent(alias);
            registeredAliases := registeredAliases + {Lower(alias)};
            added := added + [RegisterServer(info)];
          }
        }
      }
      assert Registration(proxy.servers, registeredAliases, effects + added, next, aborted)
        == RegisterStep(before, config, config.aliases[i]);
    }

    /** `registerAliases`. `aborted` says that a port above the largest valid
        one ended the loop with an exception; what was registered before stays. */
    method RegisterAliases(config: VelocityBridgeConfig) returns (aborted: bool)
      requires Valid()
      modifies this, proxy
      ensures Valid()
      ensures !config.enabled || !config.registerAliases ==>
        !aborted && registeredAliases == old(registeredAliases) && Appended(proxy, [])
      ensures config.enabled && config.registerAliases ==>
        var r := RegisterAll(StartRegistration(config, old(proxy.servers), old(registeredAliases)), config, config.aliases);
        proxy.servers == r.servers && registeredAliases == r.registered && aborted == r.aborted
        && proxy.log == old(proxy.log) + r.effects && proxy.injectorAvailable == old(proxy.injectorAvailable)
    {
      aborted := false;
      if !config.enabled || !config.registerAliases {
        return;
      }
      var port := Max(1, config.startPort);
      ghost var effects: seq<Effect> := [];
      ghost var target := RegisterAll(StartRegistration(config, proxy.servers, registeredAliases), config, config.aliases);
      var i := 0;
      while i < |config.aliases| && !aborted
        invariant 0 <= i <= |config.aliases|
        invariant Valid()
        invariant proxy.log == old(proxy.log) + effects
        invariant proxy.injectorAvailable == old(proxy.injectorAvailable)
        invariant RegisterAll(Registration(proxy.servers, registeredAliases, effects, port, aborted),
                              config, config.aliases[i..]) == target
      {
        ghost var added;
        port, aborted, added := RegisterEntry(config, i, port, effects);
        AppendAssoc(old(proxy.log), effects, added);
        effects := effects + added;
        i := i + 1;
      }
      if aborted {
        AbortedStays(Registration(proxy.servers, registeredAliases, effects, port, aborted), config, config.aliases[i..]);
      } else {
        assert config.aliases[i..] == [];
      }
    }

    /** `unregisterAliases`: every recorded alias still in the registry is
        unregistered, in the set's iteration order, and the record is emptied. */
    method UnregisterAliases() returns (ghost order: seq<string>)
      modifies this, proxy
      ensures registeredAliases == {}
      ensures Distinct(order) && forall a :: a in order <==> a in old(registeredAliases)
      ensures var u := UnregisterAll(old(proxy.servers), order);
        proxy.servers == u.0 && proxy.log == old(proxy.log) + u.1
      ensures proxy.injectorAvailable == old(proxy.injectorAvailable)
    {
      var aliases := Enumerate(registeredAliases);
      ghost var target := UnregisterAll(proxy.servers, aliases);
      var i := 0;
      while i < |aliases|
        invariant 0 <= i <= |aliases|
        invariant proxy.injectorAvailable == old(proxy.injectorAvailable)
        invariant var rest := UnregisterAll(proxy.servers, aliases[i..]);
          rest.0 == target.0 && proxy.log + rest.1 == old(proxy.log) + target.1
      {
        assert aliases[i..][1..] == aliases[i + 1..];
        var server := proxy.GetServer(aliases[i]);
        if server.Some? {
          ghost var rest := UnregisterAll(proxy.servers - {Lower(server.value.name)}, aliases[i + 1..]);
          assert proxy.log + ([UnregisterServer(server.value)] + rest.1)
            == (proxy.log + [UnregisterServer(server.value)]) + rest.1;
          proxy.Unregister(server.value);
        }
        i := i + 1;
      }
      order := aliases;
      registeredAliases := {};
    }

    /** `isManagedAlias`: a null name is not managed; otherwise the name is
        managed when its lower-cased form was recorded. */
    function IsManagedAlias(name: Option<string>): (b: bool)
      reads this
      ensures name.None? ==> !b
    {
      name.Some? && Lower(name.value) in registeredAliases
    }

    /** `findFirstRealServerName`: `servers` lists the registry's servers in
        the order `getAllServers` gives them, and the result is the first
        whose name is not a managed alias. */
    function FindFirstRealServerName(servers: seq<ServerInfo>): (r: Option<string>)
      requires forall k :: 0 <= k < |servers| ==> servers[k] in proxy.servers.Values
      requires forall v :: v in proxy.servers.Values ==> v in servers
      reads this, proxy
      ensures r.None? <==> forall v :: v in proxy.servers.Values ==> IsManagedAlias(Some(v.name))
      ensures r.Some? ==> exists v :: v in proxy.servers.Values && v.name == r.value && !IsManagedAlias(Some(v.name))
      ensures r.None? <==> forall k :: 0 <= k < |servers| ==> IsManagedAlias(Some(servers[k].name))
      ensures r.Some? ==>
        exists k :: 0 <= k < |servers| && servers[k].name == r.value
          && !IsManagedAlias(Some(r.value))
          && forall j :: 0 <= j < k ==> IsManagedAlias(Some(servers[j].name))
    {
      var names := seq(|servers|, i requires 0 <= i < |servers| => servers[i].name);
      assert forall k :: 0 <= k < |servers| ==> names[k] == servers[k].name;
      FirstOutside(registeredAliases, names)
    }

    /** Names that differ only in case are managed alike. */
    lemma ManagedIgnoresCase(a: string, b: string)
      requires EqualsIgnoreCase(a, b)
      ensures IsManagedAlias(Some(a)) == IsManagedAlias(Some(b))
    {
    }
  }
}
