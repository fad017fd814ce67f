/**
 * The limbo registry (`LimboManager`) and the limbos it holds
 * (`LimboInstance`): the table of loaded limbos by name, which limbo each
 * player was sent to, and the LimboAPI session handle of each player in a
 * limbo. The two player tables are kept separately and are not in step.
 */
module Limbo {
  import opened Util
  import opened Text
  import opened Config
  import opened Platform
  import opened LimboParsing

  /** What `loadWorldFile` finds at the configured path: a readable file, no
      file, or a file whose opening or conversion throws an `IOException`. */
  datatype WorldFileStatus = Present | Missing | Unreadable

  /** What became of the world file when the limbo was created. */
  datatype WorldOutcome =
    | NotConfigured
    | FileMissing
    | LoadFailed
    | Loaded(fileType: WorldFileType, offset: OffsetConfig, lightLevel: int)

  /** The LimboAPI limbo `create` builds: its world, its builder settings and
      the command metas registered on it, each holding one command name. */
  datatype LimboSetup = LimboSetup(
    name: string,
    dimension: Dimension,
    spawn: Pose,
    world: WorldOutcome,
    worldTime: int,
    gameMode: GameMode,
    readTimeout: int,
    shouldRejoin: bool,
    shouldRespawn: bool,
    reducedDebugInfo: bool,
    viewDistance: int,
    simulationDistance: int,
    commandMetas: seq<seq<string>>)

  /** `loadWorldFile`: a missing file and an unreadable one are both logged
      and leave the world empty; neither stops the limbo from being built. */
  function LoadWorldFile(config: WorldFileConfig, status: WorldFileStatus): (w: WorldOutcome)
    ensures w.Loaded? <==> status == Present
    ensures w.Loaded? ==> w.fileType == ParseWorldFileType(config.fileType)
    ensures w != NotConfigured
  {
    match status
    case Missing => FileMissing
    case Unreadable => LoadFailed
    case Present => Loaded(ParseWorldFileType(config.fileType), config.offset, config.lightLevel)
  }

  /** `List.of(command)` for each command, in order. */
  function Metas(commands: seq<string>): (m: seq<seq<string>>)
    ensures |m| == |commands|
    ensures forall i :: 0 <= i < |m| ==> m[i] == [commands[i]]
  {
    seq(|commands|, i requires 0 <= i < |commands| => [commands[i]])
  }

  /** The limbo `create` builds for `name`. */
  function Built(name: string, config: LimboServerConfig, status: WorldFileStatus): (s: LimboSetup)
    ensures s.name == name
    ensures s.world == NotConfigured <==> !config.worldFile.enabled
    ensures s.world.Loaded? <==> config.worldFile.enabled && status == Present
    ensures 0 < s.readTimeout <= IntMax
    ensures |s.commandMetas| == |config.commands|
    ensures forall i :: 0 <= i < |config.commands| ==> s.commandMetas[i] == [config.commands[i]]
  {
    var spawn := config.spawn;
    var settings := config.settings;
    LimboSetup(
      name,
      ParseDimension(config.dimension),
      Pose(spawn.x, spawn.y, spawn.z, spawn.yaw, spawn.pitch),
      if config.worldFile.enabled then LoadWorldFile(config.worldFile, status) else NotConfigured,
      config.worldTime,
      ParseGameMode(config.gamemode),
      SanitizeReadTimeout(settings.readTimeout),
      settings.shouldRejoin,
      settings.shouldRespawn,
      settings.reducedDebugInfo,
      settings.viewDistance,
      settings.simulationDistance,
      Metas(config.commands))
  }

  /** `LimboInstance`: one configured limbo and, once created, its LimboAPI limbo. */
  class LimboInstance {
    const name: string
    const config: LimboServerConfig
    const proxy: Proxy
    /** `limbo`: null until `create` has run. */
    var limbo: Option<LimboSetup>

    constructor (name: string, config: LimboServerConfig, proxy: Proxy)
      ensures this.name == name && this.config == config && this.proxy == proxy && limbo.None?
    {
      this.name := name;
      this.config := config;
      this.proxy := proxy;
      limbo := None;
    }

    /** `create`: build the world, load the world file if one is configured,
        build the limbo, then register one command meta per configured command. */
    method Create(status: WorldFileStatus)
      modifies this
      ensures limbo == Some(Built(name, config, status))
    {
      var spawn := config.spawn;
      var settings := config.settings;
      var world := NotConfigured;
      if config.worldFile.enabled {
        world := LoadWorldFile(config.worldFile, status);
      }
      var gameMode := ParseGameMode(config.gamemode);
      var readTimeout := SanitizeReadTimeout(settings.readTimeout);
      var setup := LimboSetup(
        name, ParseDimension(config.dimension), Pose(spawn.x, spawn.y, spawn.z, spawn.yaw, spawn.pitch),
        world, config.worldTime, gameMode, readTimeout, settings.shouldRejoin, settings.shouldRespawn,
        settings.reducedDebugInfo, settings.viewDistance, settings.simulationDistance, []);
      limbo := Some(setup);
      for i := 0 to |config.commands|
        invariant limbo == Some(setup.(commandMetas := Metas(config.commands[..i])))
      {
        assert Metas(config.commands[..i + 1]) == Metas(config.commands[..i]) + [[config.commands[i]]];
        limbo := Some(limbo.value.(commandMetas := limbo.value.commandMetas + [[config.commands[i]]]));
      }
      assert config.commands[..|config.commands|] == config.commands;
    }

    /** `spawnPlayer`: nothing when the limbo was never created; otherwise the
        player is handed to LimboAPI, which later calls the new handler's `onSpawn`. */
    method SpawnPlayer(player: PlayerId)
      modifies proxy
      ensures Appended(proxy, if limbo.Some? then [SpawnInLimbo(player, name)] else [])
    {
      if limbo.None? {
        return;
      }
      proxy.log := proxy.log + [SpawnInLimbo(player, name)];
    }
  }

  /** The names `loadAll` leaves loaded: enabled, and created without an exception. */
  function LoadableNames(configs: map<string, LimboServerConfig>, failing: set<string>): set<string>
  {
    set n | n in configs && configs[n].enabled && n !in failing
  }

  /** The players whose limbo entry is one of `names`. */
  function Occupants(playerLimbos: map<PlayerId, string>, names: set<string>): set<PlayerId>
  {
    set p | p in playerLimbos && playerLimbos[p] in names
  }

  lemma SubsetCardinality<T>(a: set<T>, b: set<T>)
    requires a <= b
    ensures |a| <= |b|
  {
    assert b == a + (b - a);
  }

  /** The player counts of each name of `names`, added up. */
  function SumCounts(playerLimbos: map<PlayerId, string>, names: seq<string>): nat
  {
    if names == [] then 0
    else |Occupants(playerLimbos, {names[0]})| + SumCounts(playerLimbos, names[1..])
  }

  /** The players of two disjoint groups of limbos are counted once each. */
  lemma OccupantsOfDisjointUnion(playerLimbos: map<PlayerId, string>, a: set<string>, b: set<string>)
    requires a * b == {}
    ensures |Occupants(playerLimbos, a + b)| == |Occupants(playerLimbos, a)| + |Occupants(playerLimbos, b)|
  {
    var x := Occupants(playerLimbos, a);
    var y := Occupants(playerLimbos, b);
    forall p | p in x
      ensures p !in y
    {
      var n := playerLimbos[p];
      assert n in a && n !in a * b;
    }
    assert x * y == {};
    assert Occupants(playerLimbos, a + b) == x + y;
  }

  /** Counting per limbo over distinct names counts each player of those limbos once. */
  lemma {:induction false} SumCountsIsOccupants(playerLimbos: map<PlayerId, string>, names: seq<string>)
    requires Distinct(names)
    ensures SumCounts(playerLimbos, names) == |Occupants(playerLimbos, set n | n in names)|
    decreases |names|
  {
    if names != [] {
      var rest := names[1..];
      assert Distinct(rest);
      SumCountsIsOccupants(playerLimbos, rest);
      assert names[0] !in rest;
      assert (set n | n in names) == {names[0]} + (set n | n in rest);
      OccupantsOfDisjointUnion(playerLimbos, {names[0]}, set n | n in rest);
    }
  }

  /** `LimboManager`. */
  class LimboManager {
    var limbos: map<string, LimboInstance>
    var playerLimbos: map<PlayerId, string>
    var limboPlayers: map<PlayerId, LimboPlayer>
    const proxy: Proxy

    /** Every loaded limbo is filed under its own name and has been created. */
    predicate Valid()
      reads this, limbos.Values
    {
      forall n :: n in limbos ==> limbos[n].name == n && limbos[n].limbo.Some? && limbos[n].proxy == proxy
    }

    constructor (proxy: Proxy)
      ensures Valid() && limbos == map[] && playerLimbos == map[] && limboPlayers == map[] && this.proxy == proxy
    {
      limbos := map[];
      playerLimbos := map[];
      limboPlayers := map[];
      this.proxy := proxy;
    }

    /** `loadAll`: empty the table, then create each enabled limbo in the
        configuration's iteration order. A limbo whose creation throws (the
        names in `failing`) is left out and the others still load.
        `worldFiles` says what is found at each world-file path. */
    method LoadAll(configs: map<string, LimboServerConfig>, failing: set<string>, worldFiles: string -> WorldFileStatus)
      modifies this
      ensures Valid()
      ensures limbos.Keys == LoadableNames(configs, failing)
      ensures forall n :: n in limbos ==>
        fresh(limbos[n]) && limbos[n].config == configs[n]
        && limbos[n].limbo == Some(Built(n, configs[n], worldFiles(configs[n].worldFile.path)))
      ensures playerLimbos == old(playerLimbos) && limboPlayers == old(limboPlayers)
    {
      limbos := map[];
      var names := Enumerate(configs.Keys);
      var loaded: map<string, LimboInstance> := map[];
      for i := 0 to |names|
        invariant forall n :: n in loaded <==> n in names[..i] && configs[n].enabled && n !in failing
        invariant forall n :: n in loaded ==> fresh(loaded[n])
        invariant LoadedFrom(loaded, configs, worldFiles)
        invariant playerLimbos == old(playerLimbos) && limboPlayers == old(limboPlayers)
      {
        var name := names[i];
        var config := configs[name];
        assert names[..i + 1] == names[..i] + [name];
        if config.enabled && name !in failing {
          var instance := new LimboInstance(name, config, proxy);
          instance.Create(worldFiles(config.worldFile.path));
          loaded := loaded[name := instance];
        }
      }
      assert names[..|names|] == names;
      limbos := loaded;
    }

    /** Each instance of `loaded` is filed under its name, uses this proxy,
        and was built from its configuration. */
    predicate LoadedFrom(loaded: map<string, LimboInstance>, configs: map<string, LimboServerConfig>,
                         worldFiles: string -> WorldFileStatus)
      reads loaded.Values
    {
      forall n :: n in loaded ==>
        n in configs && loaded[n].name == n && loaded[n].proxy == proxy && loaded[n].config == configs[n]
        && loaded[n].limbo == Some(Built(n, configs[n], worldFiles(configs[n].worldFile.path)))
    }

    /** `reload`: forget which limbo each player was sent to, then `loadAll`.
        The session handles are kept. */
    method Reload(configs: map<string, LimboServerConfig>, failing: set<string>, worldFiles: string -> WorldFileStatus)
      modifies this
      ensures Valid()
      ensures limbos.Keys == LoadableNames(configs, failing)
      ensures forall n :: n in limbos ==>
        fresh(limbos[n]) && limbos[n].config == configs[n]
        && limbos[n].limbo == Some(Built(n, configs[n], worldFiles(configs[n].worldFile.path)))
      ensures playerLimbos == map[] && limboPlayers == old(limboPlayers)
    {
      playerLimbos := map[];
      LoadAll(configs, failing, worldFiles);
    }

    /** `getLimbo`. */
    function GetLimbo(name: string): (r: Option<LimboInstance>)
      reads this
      ensures r.Some? <==> name in limbos
      ensures r.Some? ==> r.value == limbos[name]
    {
      if name in limbos then Some(limbos[name]) else None
    }

    /** `getLimboNames`. */
    function GetLimboNames(): (names: set<string>)
      reads this
      ensures forall n :: n in names <==> GetLimbo(n).Some?
    {
      limbos.Keys
    }

    /** `sendPlayerToLimbo`: an unknown limbo name changes nothing and answers
        false; a known one spawns the player there, records the limbo for the
        player and answers true. */
    method SendPlayerToLimbo(player: PlayerId, limboName: string) returns (sent: bool)
      requires Valid()
      modifies this, proxy
      ensures Valid()
      ensures sent <==> limboName in limbos
      ensures limbos == old(limbos) && limboPlayers == old(limboPlayers)
      ensures sent ==>
        playerLimbos == old(playerLimbos)[player := limboName]
        && Appended(proxy, [SpawnInLimbo(player, limboName)])
      ensures !sent ==> playerLimbos == old(playerLimbos) && Appended(proxy, [])
    {
      if limboName !in limbos {
        return false;
      }
      var instance := limbos[limboName];
      instance.SpawnPlayer(player);
      playerLimbos := playerLimbos[player := limboName];
      return true;
    }

    /** `onPlayerLeaveLimbo`: forget both entries of the player. */
    method OnPlayerLeaveLimbo(player: PlayerId)
      modifies this
      ensures playerLimbos == old(playerLimbos) - {player}
      ensures limboPlayers == old(limboPlayers) - {player}
      ensures limbos == old(limbos)
    {
      playerLimbos := playerLimbos - {player};
      limboPlayers := limboPlayers - {player};
    }

    /** `registerLimboPlayer`. */
    method RegisterLimboPlayer(player: PlayerId, limboPlayer: LimboPlayer)
      modifies this
      ensures limboPlayers == old(limboPlayers)[player := limboPlayer]
      ensures playerLimbos == old(playerLimbos) && limbos == old(limbos)
    {
      limboPlayers := limboPlayers[player := limboPlayer];
    }

    /** `getLimboPlayer`. */
    function GetLimboPlayer(player: PlayerId): (r: Option<LimboPlayer>)
      reads this
      ensures r.Some? <==> player in limboPlayers
      ensures r.Some? ==> r.value == limboPlayers[player]
    {
      if player in limboPlayers then Some(limboPlayers[player]) else None
    }

    /** `getPlayerLimbo`. */
    function GetPlayerLimbo(player: PlayerId): (r: Option<string>)
      reads this
      ensures r.Some? <==> IsPlayerInLimbo(player)
      ensures r.Some? ==> player in Occupants(playerLimbos, {r.value})
    {
      if player in playerLimbos then Some(playerLimbos[player]) else None
    }

    /** `isPlayerInLimbo`: the player has a limbo entry. */
    predicate IsPlayerInLimbo(player: PlayerId): (b: bool)
      reads this
      ensures b <==> exists name :: player in Occupants(playerLimbos, {name})
    {
      assert player in playerLimbos ==> player in Occupants(playerLimbos, {playerLimbos[player]});
      player in playerLimbos
    }

    /** `getPlayerCount`: how many players have `limboName` as their entry. */
    function GetPlayerCount(limboName: string): (count: nat)
      reads this
      ensures count == |Occupants(playerLimbos, {limboName})|
      ensures count <= GetTotalPlayersInLimbos()
      ensures count == 0 <==> forall p :: IsPlayerInLimbo(p) ==> GetPlayerLimbo(p) != Some(limboName)
    {
      var occupants := Occupants(playerLimbos, {limboName});
      SubsetCardinality(occupants, playerLimbos.Keys);
      assert occupants == {} <==> forall p :: IsPlayerInLimbo(p) ==> GetPlayerLimbo(p) != Some(limboName) by {
        if occupants != {} {
          var p :| p in occupants;
          assert IsPlayerInLimbo(p) && GetPlayerLimbo(p) == Some(limboName);
        }
      }
      |occupants|
    }

    /** `getTotalPlayersInLimbos`. */
    function GetTotalPlayersInLimbos(): (total: nat)
      reads this
      ensures total == |playerLimbos|
    {
      |playerLimbos|
    }
    /** `getPlayerCount` of each name of `names`, added up. */
    function SumPlayerCounts(names: seq<string>): (sum: nat)
      reads this
      ensures names == [] ==> sum == 0
      ensures names != [] ==> sum == GetPlayerCount(names[0]) + SumPlayerCounts(names[1..])
    {
      SumCounts(playerLimbos, names)
    }

    /** The `getPlayerCount` values of distinct limbo names that cover every
        player's entry add up to `getTotalPlayersInLimbos`. */
    lemma CountsAddUpToTotal(names: seq<string>)
      requires Distinct(names)
      requires forall p :: IsPlayerInLimbo(p) ==> GetPlayerLimbo(p).value in names
      ensures SumPlayerCounts(names) == GetTotalPlayersInLimbos()
    {
      SumCountsIsOccupants(playerLimbos, names);
      forall p | p in playerLimbos
        ensures p in Occupants(playerLimbos, set n | n in names)
      {
        assert IsPlayerInLimbo(p) && GetPlayerLimbo(p).value == playerLimbos[p];
      }
      assert Occupants(playerLimbos, set n | n in names) == playerLimbos.Keys;
    }
  }
}
