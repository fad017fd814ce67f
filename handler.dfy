/**
 * The per-player session handler of a limbo (`SimpleLimboHandler`). LimboAPI
 * calls it when the player spawns, sends packets, moves, chats and leaves; the
 * scheduled tasks it creates (the fallback timer of the anti-fall, the
 * auto-reconnect countdown) and the completions of the requests it makes are
 * explicit method calls here. Its decisions are the functions of the
 * `AntiFall`, `ChatFilter` and `Countdown` modules; this class holds the
 * fields those functions are applied to.
 */
module Handler {
  import opened Util
  import opened Text
  import opened MessageUtil
  import opened Config
  import opened Platform
  import opened ChatFilter
  import AntiFall
  import Countdown
  import opened Display
  import opened Limbo
  import opened Triggers

  /** The calls `onChat` makes for a decision, besides marking activity. */
  function ChatEffects(player: PlayerId, outcome: ChatOutcome): (r: seq<Effect>)
    ensures |r| <= 1
    ensures outcome.Ignored? <==> r == []
    ensures outcome.Dispatch? ==> r == [DispatchCommand(player, outcome.commandLine)]
    ensures outcome.Rejected? ==> r == [SendMessage(PlayerAudience(player), ComponentOf(Some(outcome.message)))]
  {
    match outcome
    case Ignored => []
    case Rejected(m) => [SendMessage(PlayerAudience(player), ComponentOf(Some(m)))]
    case Dispatch(line) => [DispatchCommand(player, line)]
  }

  /** `injectFakeServerIfConfigured`: inject only when a non-blank fake
      server name is configured, the injector is available, and the proxy
      knows a server of that name. */
  function FakeServerEffects(player: PlayerId, fakeServerName: Option<string>, injectorAvailable: bool,
                             servers: map<string, ServerInfo>): (r: seq<Effect>)
    ensures r != [] <==>
      fakeServerName.Some? && !IsBlank(fakeServerName.value) && injectorAvailable && Lower(fakeServerName.value) in servers
    ensures r != [] ==> r == [InjectFakeServer(player, servers[Lower(fakeServerName.value)].name)]
  {
    if fakeServerName.None? || IsBlank(fakeServerName.value) then []
    else if !injectorAvailable then []
    else if Lower(fakeServerName.value) !in servers then []
    else [InjectFakeServer(player, servers[Lower(fakeServerName.value)].name)]
  }

  /** The countdown task `startAutoReconnectIfEnabled` schedules: after one
      second, then every second. */
  function ReconnectStartEffects(player: PlayerId, reconnect: AutoReconnectConfig): (r: seq<Effect>)
    ensures reconnect.enabled <==> r != []
    ensures |r| <= 1 && forall e :: e in r ==> e.ScheduleRepeat? && e.delayMs == 1000 && e.periodMs == 1000
  {
    if reconnect.enabled then [ScheduleRepeat(AutoReconnectTask(player), 1000, 1000)] else []
  }

  /** The calls of the middle of `onSpawn`: the chat completions, then the join display. */
  function MiddleEffects(player: PlayerId, config: LimboServerConfig): seq<Effect> {
    (if config.commands != [] then [AddChatCompletions(player, config.commands)] else [])
    + JoinEffects(player, config.display)
  }

  /** The calls of the end of `onSpawn`: the fake server, then the countdown. */
  function TailEffects(player: PlayerId, config: LimboServerConfig, injectorAvailable: bool,
                       servers: map<string, ServerInfo>): seq<Effect> {
    FakeServerEffects(player, config.fakeServerName, injectorAvailable, servers)
    + ReconnectStartEffects(player, config.autoReconnect)
  }

  /** All calls of `onSpawn`, in order: the anti-fall's, the chat
      completions, the join display, the fake server, the countdown. */
  function SpawnEffects(player: PlayerId, config: LimboServerConfig, fallEffects: seq<Effect>,
                        injectorAvailable: bool, servers: map<string, ServerInfo>): seq<Effect>
  {
    fallEffects + MiddleEffects(player, config) + TailEffects(player, config, injectorAvailable, servers)
  }

  /** The calls of `onDisconnect` before the display is cleared: cancel the
      countdown and the fallback timer if they were created, withdraw the
      chat completions, clear the fake server. */
  function DisconnectEffects(player: PlayerId, config: LimboServerConfig, reconnectScheduled: bool,
                             fallbackPending: bool): (r: seq<Effect>)
    ensures |r| == (if reconnectScheduled then 1 else 0) + (if fallbackPending then 1 else 0)
                   + (if config.commands != [] then 1 else 0) + 1
    ensures r[|r| - 1] == ClearFakeServer(player)
  {
    (if reconnectScheduled then [CancelTask(AutoReconnectTask(player))] else [])
    + (if fallbackPending then [CancelTask(FallingFallbackTask(player))] else [])
    + (if config.commands != [] then [RemoveChatCompletions(player, config.commands)] else [])
    + [ClearFakeServer(player)]
  }

  /** `onDisconnect` cancels the countdown exactly when it was created, the
      fallback timer exactly when it is pending, withdraws the completions
      exactly when there are some, and makes no other call. */
  lemma DisconnectCalls(player: PlayerId, config: LimboServerConfig, reconnectScheduled: bool,
                        fallbackPending: bool)
    ensures var r := DisconnectEffects(player, config, reconnectScheduled, fallbackPending);
      && (CancelTask(AutoReconnectTask(player)) in r <==> reconnectScheduled)
      && (CancelTask(FallingFallbackTask(player)) in r <==> fallbackPending)
      && (RemoveChatCompletions(player, config.commands) in r <==> config.commands != [])
      && (forall e :: e in r ==> e.CancelTask? || e.RemoveChatCompletions? || e == ClearFakeServer(player))
  {
  }

  /** Whatever `onSpawn` schedules or adds for the player, `onDisconnect` in
      the state `onSpawn` left cancels or withdraws: the fallback timer, the
      countdown, the chat completions and the fake server. */
  lemma DisconnectUndoesSpawn(player: PlayerId, config: LimboServerConfig, s: AntiFall.FallState,
                              lp: LimboPlayer, now: int, reconnectBefore: bool,
                              injectorAvailable: bool, servers: map<string, ServerInfo>)
    ensures var spawned := AntiFall.OnSpawn(s, config.settings, config.spawn, player, lp, now);
      var on := SpawnEffects(player, config, spawned.1, injectorAvailable, servers);
      var off := DisconnectEffects(player, config, reconnectBefore || config.autoReconnect.enabled, spawned.0.fallbackPending);
      (forall d :: ScheduleOnce(FallingFallbackTask(player), d) in on ==> CancelTask(FallingFallbackTask(player)) in off)
      && (forall d, p :: ScheduleRepeat(AutoReconnectTask(player), d, p) in on ==> CancelTask(AutoReconnectTask(player)) in off)
      && (forall c :: AddChatCompletions(player, c) in on ==> RemoveChatCompletions(player, c) in off)
      && (forall f :: InjectFakeServer(player, f) in on ==> ClearFakeServer(player) in off)
  {
    var spawned := AntiFall.OnSpawn(s, config.settings, config.spawn, player, lp, now);
    var pending := spawned.0.fallbackPending;
    DisconnectCalls(player, config, reconnectBefore || config.autoReconnect.enabled, pending);
    SpawnCallsUndoable(player, config, spawned.1, pending, injectorAvailable, servers);
  }

  /** Every call `onSpawn` makes is `Undoable`. */
  lemma SpawnCallsUndoable(player: PlayerId, config: LimboServerConfig, fallEffects: seq<Effect>,
                           pending: bool, injectorAvailable: bool, servers: map<string, ServerInfo>)
    requires forall e :: e in fallEffects ==> e.EnableFalling? || (e.ScheduleOnce? && pending)
    ensures forall e :: e in SpawnEffects(player, config, fallEffects, injectorAvailable, servers) ==>
      Undoable(e, player, config, pending)
  {
    MiddleCallsUndoable(player, config, pending);
    TailCallsUndoable(player, config, pending, injectorAvailable, servers);
  }

  lemma MiddleCallsUndoable(player: PlayerId, config: LimboServerConfig, pending: bool)
    ensures forall e :: e in MiddleEffects(player, config) ==> Undoable(e, player, config, pending)
  {
    JoinEffectsKinds(player, config.display);
  }

  lemma TailCallsUndoable(player: PlayerId, config: LimboServerConfig, pending: bool,
                          injectorAvailable: bool, servers: map<string, ServerInfo>)
    ensures forall e :: e in TailEffects(player, config, injectorAvailable, servers) ==>
      Undoable(e, player, config, pending)
  {
  }

  /** A call of `onSpawn` that `onDisconnect` has to take back is one it
      knows about: the fallback timer only while pending, the countdown only
      when enabled, and only the configured chat completions. */
  predicate Undoable(e: Effect, player: PlayerId, config: LimboServerConfig, fallbackPending: bool) {
    && (e.ScheduleOnce? && e.task == FallingFallbackTask(player) ==> fallbackPending)
    && (e.ScheduleRepeat? && e.task == AutoReconnectTask(player) ==> config.autoReconnect.enabled)
    && (e.AddChatCompletions? ==> e == AddChatCompletions(player, config.commands) && config.commands != [])
  }

  /** The kinds of call the join display makes: messages, a boss bar and the
      repeating action bar, and nothing that schedules anything else. */
  predicate IsJoinEffect(e: Effect) {
    e.SendMessage? || e.ShowTitle? || e.SendActionBar? || e.ShowBossBar?
    || (e.ScheduleRepeat? && e.task.ActionBarTask?)
  }

  lemma JoinEffectsKinds(player: PlayerId, display: DisplayConfig)
    ensures forall e :: e in JoinEffects(player, display) ==> IsJoinEffect(e)
  {
  }

  /** `SimpleLimboHandler`: one player's session in one limbo. */
  /** The checks `onChat` makes, in its order: null or blank, no leading
      slash, nothing after the slash, no allowed commands, root not allowed. */
  method FilterChat(chat: Option<string>, allowedCommands: seq<string>) returns (outcome: ChatOutcome)
    ensures outcome == Decide(chat, allowedCommands)
  {
    if chat.None? || IsBlank(chat.value) {
      return Ignored;
    }
    if !StartsWith(chat.value, "/") {
      return Ignored;
    }
    var commandLine := Trim(chat.value[1..]);
    if commandLine == [] {
      return Ignored;
    }
    var commandRoot := Lower(FirstToken(commandLine));
    if allowedCommands == [] {
      return Rejected(CommandsDisabledMessage);
    }
    var isAllowed := AnyMatches(allowedCommands, commandRoot);
    if !isAllowed {
      return Rejected(NotAvailableMessage);
    }
    return Dispatch(commandLine);
  }

  class SimpleLimboHandler {
    /** `proxyPlayer`. */
    const player: PlayerId
    const instance: LimboInstance
    const manager: LimboManager
    const display: DisplayManager
    const triggers: TriggerManager
    const proxy: Proxy

    var limboPlayer: Option<LimboPlayer>
    /** Whether `autoReconnectTask` holds a task. */
    var autoReconnectTask: bool
    /** Whether `disableFallingFallbackTask` holds a task. */
    var disableFallingFallbackTask: bool
    var countdownSeconds: int
    var disableFallingRequested: bool
    var disableFallingApplied: bool
    var disableFallingDelayMs: int
    var spawnMillis: int
    var holdY: Option<real>
    var lastYaw: real
    var lastPitch: real

    /** The anti-fall fields, as the state the `AntiFall` functions act on. */
    function Fall(): AntiFall.FallState
      reads this
    {
      AntiFall.FallState(disableFallingRequested, disableFallingApplied, limboPlayer, disableFallingDelayMs,
                         spawnMillis, holdY, lastYaw, lastPitch, disableFallingFallbackTask)
    }

    /** The collaborators all report to the same proxy. */
    predicate Wired() {
      display.proxy == proxy && triggers.proxy == proxy && manager.proxy == proxy && instance.proxy == proxy
    }

    /** A new handler: every field at its Java default. */
    constructor (player: PlayerId, instance: LimboInstance, manager: LimboManager, display: DisplayManager,
                 triggers: TriggerManager, proxy: Proxy)
      ensures this.player == player && this.instance == instance && this.manager == manager
      ensures this.display == display && this.triggers == triggers && this.proxy == proxy
      ensures Fall() == AntiFall.Fresh && !autoReconnectTask && countdownSeconds == 0
    {
      this.player := player;
      this.instance := instance;
      this.manager := manager;
      this.display := display;
      this.triggers := triggers;
      this.proxy := proxy;
      limboPlayer := None;
      autoReconnectTask := false;
      disableFallingFallbackTask := false;
      countdownSeconds := 0;
      disableFallingRequested := false;
      disableFallingApplied := false;
      disableFallingDelayMs := 0;
      spawnMillis := 0;
      holdY := None;
      lastYaw := 0.0;
      lastPitch := 0.0;
    }

    /** `onSpawn`. */
    method OnSpawn(lp: LimboPlayer, now: int)
      requires Wired()
      modifies this, proxy, display, triggers, manager
      ensures var spawned := AntiFall.OnSpawn(old(Fall()), instance.config.settings, instance.config.spawn, player, lp, now);
        Fall() == spawned.0
        && proxy.log == old(proxy.log)
          + SpawnEffects(player, instance.config, spawned.1, old(proxy.injectorAvailable), old(proxy.servers))
      ensures proxy.servers == old(proxy.servers) && proxy.injectorAvailable == old(proxy.injectorAvailable)
      ensures display.activeDisplays == old(display.activeDisplays)[player := JoinDisplay(player, instance.config.display)]
      ensures triggers.lastActivity == old(triggers.lastActivity)[player := now] && triggers.afkTask == old(triggers.afkTask)
      ensures manager.limboPlayers == old(manager.limboPlayers)[player := lp]
      ensures manager.playerLimbos == old(manager.playerLimbos) && manager.limbos == old(manager.limbos)
      ensures instance.config.autoReconnect.enabled ==>
        autoReconnectTask && countdownSeconds == Countdown.Interval(instance.config.autoReconnect.interval)
      ensures !instance.config.autoReconnect.enabled ==>
        autoReconnectTask == old(autoReconnectTask) && countdownSeconds == old(countdownSeconds)
    {
      var config := instance.config;
      ghost var spawned := AntiFall.OnSpawn(Fall(), config.settings, config.spawn, player, lp, now);
      ghost var log0 := proxy.log;
      ArmAntiFall(lp, now);
      ghost var log1 := proxy.log;
      AnnounceSpawn(lp, now);
      ghost var log2 := proxy.log;
      FinishSpawn();
      ghost var log3 := proxy.log;
      ghost var middle := MiddleEffects(player, config);
      ghost var tail := TailEffects(player, config, proxy.injectorAvailable, proxy.servers);
      assert log1 == log0 + spawned.1;
      assert log2 == log1 + middle;
      assert log3 == log2 + tail;
      AppendAssoc(log0, spawned.1, middle);
      AppendAssoc(log0, spawned.1 + middle, tail);
    }

    /** The end of `onSpawn`: inject the fake server, start the countdown. */
    method FinishSpawn()
      requires limboPlayer.Some?
      modifies this, proxy
      ensures Fall() == old(Fall())
      ensures Appended(proxy, TailEffects(player, instance.config, proxy.injectorAvailable, proxy.servers))
      ensures instance.config.autoReconnect.enabled ==>
        autoReconnectTask && countdownSeconds == Countdown.Interval(instance.config.autoReconnect.interval)
      ensures !instance.config.autoReconnect.enabled ==>
        autoReconnectTask == old(autoReconnectTask) && countdownSeconds == old(countdownSeconds)
    {
      InjectFakeServerIfConfigured(instance.config);
      StartAutoReconnectIfEnabled(instance.config);
    }

    /** The middle of `onSpawn`: offer the allowed commands as chat
        completions, show the join display, mark activity and remember the
        session handle. */
    method AnnounceSpawn(lp: LimboPlayer, now: int)
      requires Wired()
      modifies proxy, display, triggers, manager
      ensures Appended(proxy, MiddleEffects(player, instance.config))
      ensures display.activeDisplays == old(display.activeDisplays)[player := JoinDisplay(player, instance.config.display)]
      ensures triggers.lastActivity == old(triggers.lastActivity)[player := now] && triggers.afkTask == old(triggers.afkTask)
      ensures manager.limboPlayers == old(manager.limboPlayers)[player := lp]
      ensures manager.playerLimbos == old(manager.playerLimbos) && manager.limbos == old(manager.limbos)
    {
      var config := instance.config;
      if config.commands != [] {
        proxy.log := proxy.log + [AddChatCompletions(player, config.commands)];
      }
      display.ShowJoinDisplay(player, config);
      triggers.MarkActivity(player, now);
      manager.RegisterLimboPlayer(player, lp);
    }

    /** The anti-fall part of `onSpawn`. */
    method ArmAntiFall(lp: LimboPlayer, now: int)
      modifies this, proxy
      ensures var spawned := AntiFall.OnSpawn(old(Fall()), instance.config.settings, instance.config.spawn, player, lp, now);
        Fall() == spawned.0 && Appended(proxy, spawned.1)
      ensures autoReconnectTask == old(autoReconnectTask) && countdownSeconds == old(countdownSeconds)
    {
      var config := instance.config;
      limboPlayer := Some(lp);
      spawnMillis := now;
      lastYaw := config.spawn.yaw;
      lastPitch := config.spawn.pitch;
      if config.settings.disableFalling {
        disableFallingRequested := true;
        disableFallingApplied := false;
        disableFallingDelayMs := Max(0, config.settings.disableFallingDelayMs);
        holdY := None;
        disableFallingFallbackTask := true;
        proxy.log := proxy.log + [ScheduleOnce(FallingFallbackTask(player), disableFallingDelayMs + 8000)];
      } else {
        disableFallingRequested := false;
        disableFallingApplied := false;
        disableFallingDelayMs := 0;
        holdY := None;
        proxy.log := proxy.log + [EnableFalling(lp)];
      }
    }

    /** `injectFakeServerIfConfigured`. */
    method InjectFakeServerIfConfigured(config: LimboServerConfig)
      modifies proxy
      ensures Appended(proxy, FakeServerEffects(player, config.fakeServerName, proxy.injectorAvailable, proxy.servers))
    {
      var name := config.fakeServerName;
      if name.None? || IsBlank(name.value) {
        return;
      }
      if !proxy.injectorAvailable {
        return;
      }
      var fakeServer := proxy.GetServer(name.value);
      if fakeServer.None? {
        return;
      }
      proxy.log := proxy.log + [InjectFakeServer(player, fakeServer.value.name)];
    }

    /** `startAutoReconnectIfEnabled`. */
    method StartAutoReconnectIfEnabled(config: LimboServerConfig)
      requires limboPlayer.Some?
      modifies this, proxy
      ensures Fall() == old(Fall())
      ensures Appended(proxy, ReconnectStartEffects(player, config.autoReconnect))
      ensures config.autoReconnect.enabled ==>
        autoReconnectTask && countdownSeconds == Countdown.Interval(config.autoReconnect.interval)
      ensures !config.autoReconnect.enabled ==>
        autoReconnectTask == old(autoReconnectTask) && countdownSeconds == old(countdownSeconds)
    {
      var reconnect := config.autoReconnect;
      if !reconnect.enabled || limboPlayer.None? {
        return;
      }
      countdownSeconds := Countdown.Interval(reconnect.interval);
      autoReconnectTask := true;
      proxy.log := proxy.log + [ScheduleRepeat(AutoReconnectTask(player), 1000, 1000)];
    }

    /** `onConfig`: only rebinds the session handle. */
    method OnConfig(lp: LimboPlayer)
      modifies this
      ensures Fall() == old(Fall()).(bound := Some(lp))
      ensures autoReconnectTask == old(autoReconnectTask) && countdownSeconds == old(countdownSeconds)
    {
      limboPlayer := Some(lp);
    }

    /** `applyDisableFalling`, run by `onGeneric` and by the fallback timer. */
    method ApplyDisableFalling(now: int)
      modifies this, proxy
      ensures var r := AntiFall.Apply(old(Fall()), instance.config.spawn, player, now);
        Fall() == r.0 && Appended(proxy, r.1)
      ensures autoReconnectTask == old(autoReconnectTask) && countdownSeconds == old(countdownSeconds)
    {
      if !disableFallingRequested || disableFallingApplied || limboPlayer.None? {
        return;
      }
      var sinceSpawn := now - spawnMillis;
      if sinceSpawn < disableFallingDelayMs {
        return;
      }
      disableFallingApplied := true;
      var spawn := instance.config.spawn;
      holdY := Some(spawn.y);
      proxy.log := proxy.log + [Teleport(limboPlayer.value, Pose(spawn.x, spawn.y, spawn.z, spawn.yaw, spawn.pitch))];
      lastYaw := spawn.yaw;
      lastPitch := spawn.pitch;
      if disableFallingFallbackTask {
        proxy.log := proxy.log + [CancelTask(FallingFallbackTask(player))];
        disableFallingFallbackTask := false;
      }
    }

    /** `onGeneric`: any packet may activate the anti-fall. */
    method OnGeneric(now: int)
      modifies this, proxy
      ensures var r := AntiFall.Apply(old(Fall()), instance.config.spawn, player, now);
        Fall() == r.0 && Appended(proxy, r.1)
      ensures autoReconnectTask == old(autoReconnectTask) && countdownSeconds == old(countdownSeconds)
    {
      ApplyDisableFalling(now);
    }

    /** `enforceAntiFall`. */
    method EnforceAntiFall(now: int, x: real, y: real, z: real, yaw: real, pitch: real)
      modifies this, proxy
      ensures var r := AntiFall.Enforce(old(Fall()), instance.config.spawn, player, now, x, y, z, yaw, pitch);
        Fall() == r.0 && Appended(proxy, r.1)
      ensures autoReconnectTask == old(autoReconnectTask) && countdownSeconds == old(countdownSeconds)
    {
      ApplyDisableFalling(now);
      if !disableFallingApplied || limboPlayer.None? {
        return;
      }
      if holdY.None? {
        holdY := Some(y);
        return;
      }
      if y < holdY.value - 0.02 {
        proxy.log := proxy.log + [Teleport(limboPlayer.value, Pose(x, holdY.value, z, yaw, pitch))];
      }
    }

    /** `onMove(x, y, z)`. */
    method OnMove3(now: int, x: real, y: real, z: real)
      modifies this, proxy
      ensures var r := AntiFall.Move3(old(Fall()), instance.config.spawn, player, now, x, y, z);
        Fall() == r.0 && Appended(proxy, r.1)
      ensures autoReconnectTask == old(autoReconnectTask) && countdownSeconds == old(countdownSeconds)
    {
      EnforceAntiFall(now, x, y, z, lastYaw, lastPitch);
    }

    /** `onMove(x, y, z, yaw, pitch)`. */
    method OnMove5(now: int, x: real, y: real, z: real, yaw: real, pitch: real)
      modifies this, proxy
      ensures var r := AntiFall.Move5(old(Fall()), instance.config.spawn, player, now, x, y, z, yaw, pitch);
        Fall() == r.0 && Appended(proxy, r.1)
      ensures autoReconnectTask == old(autoReconnectTask) && countdownSeconds == old(countdownSeconds)
    {
      lastYaw := yaw;
      lastPitch := pitch;
      EnforceAntiFall(now, x, y, z, yaw, pitch);
    }

    /** `onChat`: mark activity, then apply the limbo's command whitelist. */
    method OnChat(chat: Option<string>, now: int)
      requires Wired()
      modifies triggers, proxy
      ensures triggers.lastActivity == old(triggers.lastActivity)[player := now] && triggers.afkTask == old(triggers.afkTask)
      ensures Appended(proxy, ChatEffects(player, Decide(chat, instance.config.commands)))
    {
      triggers.MarkActivity(player, now);
      var outcome := FilterChat(chat, instance.config.commands);
      var calls: seq<Effect> := [];
      match outcome {
        case Ignored =>
        case Rejected(message) =>
          calls := [SendMessage(PlayerAudience(player), ComponentOf(Some(message)))];
        case Dispatch(commandLine) =>
          calls := [DispatchCommand(player, commandLine)];
      }
      proxy.log := proxy.log + calls;
    }

    /** The `whenComplete` callback of a dispatched command. */
    method CommandCompleted(failure: Option<Failure>)
      modifies proxy
      ensures var m := CompletionMessage(failure);
        Appended(proxy, if m.Some? then [SendMessage(PlayerAudience(player), ComponentOf(m))] else [])
    {
      if failure.None? {
        return;
      }
      var f := failure.value;
      if f.isNullPointer || f.causeIsNullPointer {
        proxy.log := proxy.log + [SendMessage(PlayerAudience(player), ComponentOf(Some(AuthPluginMessage)))];
      } else {
        proxy.log := proxy.log + [SendMessage(PlayerAudience(player), ComponentOf(Some(CommandFailedPrefix + f.message.GetOr("null"))))];
      }
    }

    /** One run of the countdown task: at zero, ask to connect to the target
        server if it exists and restart the countdown; otherwise show the
        seconds left and count down. */
    method ReconnectTick()
      modifies this, proxy
      ensures var t := Countdown.Tick(old(countdownSeconds), Countdown.Interval(instance.config.autoReconnect.interval));
        countdownSeconds == t.1
        && Appended(proxy, Countdown.TickEffects(t.0, player, proxy.GetServer(instance.config.autoReconnect.server),
                                                 Some(instance.config.display.actionbar.message)))
      ensures var interval := Countdown.Interval(instance.config.autoReconnect.interval);
        0 <= old(countdownSeconds) <= interval ==> 0 <= countdownSeconds <= interval
      ensures Fall() == old(Fall()) && autoReconnectTask == old(autoReconnectTask)
    {
      var config := instance.config;
      var reconnect := config.autoReconnect;
      var interval := Countdown.Interval(reconnect.interval);
      if 0 <= countdownSeconds <= interval {
        Countdown.TickStaysInRange(countdownSeconds, interval);
      }
      if countdownSeconds <= 0 {
        var target := proxy.GetServer(reconnect.server);
        if target.Some? {
          proxy.log := proxy.log + [ConnectRequest(player, target.value.name)];
        }
        countdownSeconds := interval;
        return;
      }
      var actionbar := Replace(Some(config.display.actionbar.message), "{countdown}", IntToString(countdownSeconds));
      if actionbar != [] {
        proxy.log := proxy.log + [SendActionBar(player, ComponentOf(Some(actionbar)))];
      }
      countdownSeconds := countdownSeconds - 1;
    }

    /** The completion of the connection request made by the countdown. */
    method ReconnectCompleted(succeeded: bool, target: ServerInfo)
      modifies proxy
      ensures Appended(proxy, Countdown.ConnectCompleted(succeeded, player, limboPlayer, target,
                                                         instance.config.autoReconnect.successMessage))
    {
      if succeeded {
        proxy.log := proxy.log + [SendMessage(PlayerAudience(player), ComponentOf(Some(instance.config.autoReconnect.successMessage)))];
        if limboPlayer.Some? {
          proxy.log := proxy.log + [LimboDisconnect(limboPlayer.value, target.name)];
        }
      }
    }

    /** `onDisconnect`: cancel both tasks, withdraw the chat completions,
        clear the fake server, take down the display and forget the player. */
    method OnDisconnect()
      requires Wired()
      modifies proxy, display, manager
      ensures proxy.log == old(proxy.log)
        + DisconnectEffects(player, instance.config, autoReconnectTask, disableFallingFallbackTask)
        + (if player in old(display.activeDisplays) then ClearEffects(old(display.activeDisplays)[player]) else [])
      ensures proxy.servers == old(proxy.servers) && proxy.injectorAvailable == old(proxy.injectorAvailable)
      ensures display.activeDisplays == old(display.activeDisplays) - {player}
      ensures manager.playerLimbos == old(manager.playerLimbos) - {player}
      ensures manager.limboPlayers == old(manager.limboPlayers) - {player}
      ensures manager.limbos == old(manager.limbos)
    {
      var calls: seq<Effect> := [];
      if autoReconnectTask {
        calls := calls + [CancelTask(AutoReconnectTask(player))];
      }
      if disableFallingFallbackTask {
        calls := calls + [CancelTask(FallingFallbackTask(player))];
      }
      if instance.config.commands != [] {
        calls := calls + [RemoveChatCompletions(player, instance.config.commands)];
      }
      calls := calls + [ClearFakeServer(player)];
      assert calls == DisconnectEffects(player, instance.config, autoReconnectTask, disableFallingFallbackTask);
      proxy.log := proxy.log + calls;
      display.ClearDisplay(player);
      manager.OnPlayerLeaveLimbo(player);
    }
  }
}
