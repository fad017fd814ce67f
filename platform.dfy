/**
 * The collaborators the plugin calls but does not own: the Velocity proxy
 * (server registry, players, scheduler, command manager), LimboAPI player
 * sessions, Adventure boss bars, and the fake-server injector. Every call the
 * plugin makes into them is recorded, in order, in the proxy's effect log.
 */
module Platform {
  import opened Util
  import opened Text
  import opened MessageUtil

  /** A player's `UUID`. */
  type PlayerId = nat

  /** Who receives a chat line: a player, or the console running an admin command. */
  datatype Audience = PlayerAudience(id: PlayerId) | Console

  /** Velocity's `ServerInfo`: a name and a socket address. */
  datatype ServerInfo = ServerInfo(name: string, host: string, port: int)

  /** A connected proxy player: the permissions it holds and whether its
      connection is still active. */
  datatype OnlinePlayer = OnlinePlayer(id: PlayerId, username: string, permissions: set<string>, active: bool)

  /** A LimboAPI `LimboPlayer` session handle of one proxy player. */
  datatype LimboPlayer = LimboPlayer(player: PlayerId, session: nat)

  /** A position with orientation, as passed to `LimboPlayer.teleport`. */
  datatype Pose = Pose(x: real, y: real, z: real, yaw: real, pitch: real)

  datatype BossBarColor = PINK | BLUE | RED | GREEN | YELLOW | PURPLE | WHITE

  datatype BossBarOverlay = PROGRESS | NOTCHED_6 | NOTCHED_10 | NOTCHED_12 | NOTCHED_20

  datatype BossBar = BossBar(title: Component, progress: real, color: BossBarColor, overlay: BossBarOverlay)

  /** The scheduled tasks the plugin creates. */
  datatype Task =
    | AutoReconnectTask(player: PlayerId)
    | FallingFallbackTask(player: PlayerId)
    | AfkScanTask
    | ActionBarTask(player: PlayerId, message: Component)
    | DelayedSendTask(player: PlayerId, limbo: string)

  /** One call into a collaborator. */
  datatype Effect =
    | SendMessage(to: Audience, message: Component)
    | SendActionBar(player: PlayerId, message: Component)
    | ShowTitle(player: PlayerId, title: Component, subtitle: Component, fadeInMs: int, stayMs: int, fadeOutMs: int)
    | ShowBossBar(player: PlayerId, bar: BossBar)
    | HideBossBar(player: PlayerId, bar: BossBar)
    | Teleport(target: LimboPlayer, pose: Pose)
    | EnableFalling(target: LimboPlayer)
    | LimboDisconnect(target: LimboPlayer, server: string)
    | SpawnInLimbo(player: PlayerId, limbo: string)
    | ConnectRequest(player: PlayerId, server: string)
    | DispatchCommand(player: PlayerId, commandLine: string)
    | AddChatCompletions(player: PlayerId, commands: seq<string>)
    | RemoveChatCompletions(player: PlayerId, commands: seq<string>)
    | InjectFakeServer(player: PlayerId, server: string)
    | ClearFakeServer(player: PlayerId)
    | RegisterServer(info: ServerInfo)
    | UnregisterServer(info: ServerInfo)
    | ScheduleOnce(task: Task, delayMs: int)
    | ScheduleRepeat(task: Task, delayMs: int, periodMs: int)
    | CancelTask(task: Task)
    | ReloadPlugin

  /** Every entry of the registry sits under its own lower-cased name, as
      Velocity keeps it. */
  predicate WellKeyed(servers: map<string, ServerInfo>) {
    forall k :: k in servers ==> Lower(servers[k].name) == k
  }

  /** Between the two states, the proxy's registry is untouched and exactly
      `effects` were appended to its log. */
  twostate predicate Appended(proxy: Proxy, effects: seq<Effect>)
    reads proxy
  {
    proxy.log == old(proxy.log) + effects
    && proxy.servers == old(proxy.servers)
    && proxy.injectorAvailable == old(proxy.injectorAvailable)
  }

  /** The proxy as the plugin sees it. `servers` is Velocity's server registry,
      which looks names up ignoring case, so it is keyed by the lower-cased name. */
  class Proxy {
    var log: seq<Effect>
    var servers: map<string, ServerInfo>
    /** `ServerConnectionInjector.isAvailable()`: whether its reflective set-up succeeded. */
    var injectorAvailable: bool

    constructor (servers: map<string, ServerInfo>, injectorAvailable: bool)
      ensures this.log == [] && this.servers == servers && this.injectorAvailable == injectorAvailable
    {
      this.log := [];
      this.servers := servers;
      this.injectorAvailable := injectorAvailable;
    }

    /** `ProxyServer.getServer(name)`. */
    function GetServer(name: string): (r: Option<ServerInfo>)
      reads this
      ensures r.Some? <==> Lower(name) in servers
    {
      if Lower(name) in servers then Some(servers[Lower(name)]) else None
    }

    /** `ProxyServer.registerServer(info)`. */
    method Register(info: ServerInfo)
      modifies this
      ensures servers == old(servers)[Lower(info.name) := info]
      ensures log == old(log) + [RegisterServer(info)]
      ensures injectorAvailable == old(injectorAvailable)
    {
      servers := servers[Lower(info.name) := info];
      log := log + [RegisterServer(info)];
    }

    /** `ProxyServer.unregisterServer(info)`: removes the entry under the info's lower-cased name. */
    method Unregister(info: ServerInfo)
      modifies this
      ensures servers == old(servers) - {Lower(info.name)}
      ensures log == old(log) + [UnregisterServer(info)]
      ensures injectorAvailable == old(injectorAvailable)
    {
      servers := servers - {Lower(info.name)};
      log := log + [UnregisterServer(info)];
    }
  }
}
