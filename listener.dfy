/**
 * The proxy events the plugin listens to (`PlayerListener`): activity marks,
 * interception of virtual alias servers on the first join and on later
 * transfers, the hand-over from a limbo to a real server, clean-up on
 * disconnect, and the kick fallback. The events' mutable results are the
 * methods' out-parameters; the current settings are a parameter, read once
 * per event as `plugin.getSettings()` is.
 */
module Listener {
  import opened Util
  import opened Text
  import opened MessageUtil
  import opened Config
  import opened Platform
  import opened Bridge
  import opened Display
  import opened Limbo
  import opened Triggers

  /** The limbo a server name is an alias of, when the bridge resolves it to a
      non-blank limbo name; the events ignore a blank answer. */
  function AliasTarget(config: VelocityBridgeConfig, serverName: string): (r: Option<string>)
    ensures r.Some? ==> !IsBlank(r.value) && ResolveLimboByAlias(config, Some(serverName)) == r
    ensures r.None? ==>
      ResolveLimboByAlias(config, Some(serverName)).None? || IsBlank(ResolveLimboByAlias(config, Some(serverName)).value)
  {
    var limboId := ResolveLimboByAlias(config, Some(serverName));
    if limboId.None? || IsBlank(limboId.value) then None else limboId
  }

  /** Alias interception does not depend on the case of the server name. */
  lemma AliasTargetIgnoresCase(config: VelocityBridgeConfig, a: string, b: string)
    requires EqualsIgnoreCase(a, b)
    ensures AliasTarget(config, a) == AliasTarget(config, b)
  {
    ResolveIgnoresCase(config, a, b);
  }

  /** What `onServerPreConnectClearFake` does to a transfer that is still
      allowed: whether it stays allowed, and the calls it makes. */
  function LeaveLimbo(allowed: bool, inLimbo: bool, lp: Option<LimboPlayer>, player: PlayerId,
                      target: Option<ServerInfo>): (r: (bool, seq<Effect>))
    ensures !allowed ==> r == (false, [])
    ensures allowed && !inLimbo ==> r == (true, [])
    ensures allowed && inLimbo && lp.None? ==> r == (true, [ClearFakeServer(player)])
    ensures allowed && inLimbo && lp.Some? && target.None? ==> r == (true, [])
    ensures allowed && !r.0 <==> allowed && inLimbo && lp.Some? && target.Some?
    ensures allowed && !r.0 ==> r.1 == [ClearFakeServer(player), LimboDisconnect(lp.value, target.value.name)]
  {
    if !allowed || !inLimbo then (allowed, [])
    else if lp.None? then (true, [ClearFakeServer(player)])
    else if target.None? then (true, [])
    else (false, [ClearFakeServer(player), LimboDisconnect(lp.value, target.value.name)])
  }

  /** A player in a limbo never reaches a real server through Velocity's own
      connection: whenever the limbo session is known, either there is no
      target or the transfer is taken over, the fake server being cleared
      before the limbo session is disconnected toward the target. */
  lemma TransferLeavesThroughLimbo(inLimbo: bool, lp: LimboPlayer, player: PlayerId, target: ServerInfo)
    requires inLimbo
    ensures var r := LeaveLimbo(true, inLimbo, Some(lp), player, Some(target));
      !r.0 && |r.1| == 2 && r.1[0] == ClearFakeServer(player) && r.1[1] == LimboDisconnect(lp, target.name)
  {
  }

  /** What the kick handler did with the event's result. */
  datatype KickOutcome =
    | KeepResult
    | NotifyEmpty
    /** A kick pattern did not compile; the exception left the handler. */
    | HandlerFailed

  /** `PlayerListener`. */
  class PlayerListener {
    const manager: LimboManager
    const triggers: TriggerManager
    const display: DisplayManager
    const proxy: Proxy

    predicate Wired() {
      manager.proxy == proxy && display.proxy == proxy && triggers.proxy == proxy
    }

    constructor (manager: LimboManager, triggers: TriggerManager, display: DisplayManager, proxy: Proxy)
      ensures this.manager == manager && this.triggers == triggers && this.display == display && this.proxy == proxy
    {
      this.manager := manager;
      this.triggers := triggers;
      this.display := display;
      this.proxy := proxy;
    }

    /** `onServerConnected`. */
    method OnServerConnected(player: PlayerId, now: int)
      modifies triggers
      ensures triggers.lastActivity == old(triggers.lastActivity)[player := now] && triggers.afkTask == old(triggers.afkTask)
    {
      triggers.MarkActivity(player, now);
    }

    /** `onPlayerChooseInitialServer`: an initial server that is an alias of
        a limbo is dropped, and sending the player there is scheduled for 50
        ms later. */
    method OnPlayerChooseInitialServer(settings: Settings, player: PlayerId, initial: Option<ServerInfo>)
      returns (chosen: Option<ServerInfo>)
      modifies proxy
      ensures var limbo := if initial.Some? then AliasTarget(settings.velocityBridge, initial.value.name) else None;
        if limbo.Some?
        then chosen.None? && Appended(proxy, [ScheduleOnce(DelayedSendTask(player, limbo.value), 50)])
        else chosen == initial && Appended(proxy, [])
    {
      chosen := initial;
      if initial.None? {
        return;
      }
      var targetName := initial.value.name;
      var limboId := ResolveLimboByAlias(settings.velocityBridge, Some(targetName));
      if limboId.None? || IsBlank(limboId.value) {
        return;
      }
      chosen := None;
      proxy.log := proxy.log + [ScheduleOnce(DelayedSendTask(player, limboId.value), 50)];
    }

    /** The task scheduled on the first join: send the player to the limbo if
        they are still connected. */
    method RunDelayedSend(player: PlayerId, isActive: bool, limbo: string) returns (sent: bool)
      requires manager.Valid() && manager.proxy == proxy
      modifies manager, proxy
      ensures manager.Valid()
      ensures sent <==> isActive && limbo in manager.limbos
      ensures manager.limbos == old(manager.limbos) && manager.limboPlayers == old(manager.limboPlayers)
      ensures sent ==> manager.playerLimbos == old(manager.playerLimbos)[player := limbo]
      ensures !sent ==> manager.playerLimbos == old(manager.playerLimbos)
      ensures Appended(proxy, if sent then [SpawnInLimbo(player, limbo)] else [])
    {
      sent := false;
      if isActive {
        sent := manager.SendPlayerToLimbo(player, limbo);
      }
    }

    /** `onServerPreConnect`: a transfer to an alias of a known limbo sends
        the player to the limbo and is denied; any other transfer is left alone. */
    method OnServerPreConnect(settings: Settings, player: PlayerId, target: ServerInfo) returns (denied: bool)
      requires Wired() && manager.Valid()
      modifies manager, proxy
      ensures manager.Valid()
      ensures var limbo := AliasTarget(settings.velocityBridge, target.name);
        denied <==> limbo.Some? && limbo.value in manager.limbos
      ensures manager.limbos == old(manager.limbos) && manager.limboPlayers == old(manager.limboPlayers)
      ensures denied ==>
        var limbo := AliasTarget(settings.velocityBridge, target.name).value;
        manager.playerLimbos == old(manager.playerLimbos)[player := limbo]
        && Appended(proxy, [SpawnInLimbo(player, limbo)])
      ensures !denied ==> manager.playerLimbos == old(manager.playerLimbos) && Appended(proxy, [])
    {
      denied := false;
      var limboId := ResolveLimboByAlias(settings.velocityBridge, Some(target.name));
      if limboId.None? || IsBlank(limboId.value) {
        return;
      }
      var sent := manager.SendPlayerToLimbo(player, limboId.value);
      if !sent {
        return;
      }
      denied := true;
    }

    /** `onServerPreConnectClearFake`: a player still in a limbo who is
        allowed to transfer leaves through the limbo session instead. */
    method OnServerPreConnectClearFake(player: PlayerId, allowed: bool, target: Option<ServerInfo>)
      returns (stillAllowed: bool)
      modifies proxy
      ensures var r := LeaveLimbo(allowed, player in manager.playerLimbos, manager.GetLimboPlayer(player), player, target);
        stillAllowed == r.0 && Appended(proxy, r.1)
    {
      stillAllowed := allowed;
      if !allowed {
        return;
      }
      if !manager.IsPlayerInLimbo(player) {
        return;
      }
      var limboPlayerOpt := manager.GetLimboPlayer(player);
      if limboPlayerOpt.None? {
        proxy.log := proxy.log + [ClearFakeServer(player)];
        return;
      }
      var limboPlayer := limboPlayerOpt.value;
      if target.None? {
        return;
      }
      stillAllowed := false;
      proxy.log := proxy.log + [ClearFakeServer(player)];
      proxy.log := proxy.log + [LimboDisconnect(limboPlayer, target.value.name)];
    }

    /** `onPlayerChat`. */
    method OnPlayerChat(player: PlayerId, now: int)
      modifies triggers
      ensures triggers.lastActivity == old(triggers.lastActivity)[player := now] && triggers.afkTask == old(triggers.afkTask)
    {
      triggers.MarkActivity(player, now);
    }

    /** `onDisconnect`: take down the display, forget the activity and the
        limbo membership. */
    method OnDisconnect(player: PlayerId)
      requires Wired()
      modifies display, triggers, manager, proxy
      ensures display.activeDisplays == old(display.activeDisplays) - {player}
      ensures Appended(proxy, if player in old(display.activeDisplays) then ClearEffects(old(display.activeDisplays)[player]) else [])
      ensures triggers.lastActivity == old(triggers.lastActivity) - {player} && triggers.afkTask == old(triggers.afkTask)
      ensures manager.playerLimbos == old(manager.playerLimbos) - {player}
      ensures manager.limboPlayers == old(manager.limboPlayers) - {player}
      ensures manager.limbos == old(manager.limbos)
    {
      display.ClearDisplay(player);
      triggers.RemovePlayer(player);
      manager.OnPlayerLeaveLimbo(player);
    }

    /** `onKickedFromServer`: a kick whose reason matches a fallback pattern
        sends the player to the fallback limbo; if that works, the kick becomes
        a silent notification and the fallback message, if any, is sent. */
    method OnKickedFromServer(settings: Settings, player: PlayerId, reason: Option<string>, matches: Matcher)
      returns (outcome: KickOutcome)
      requires Wired() && manager.Valid()
      modifies manager, proxy
      ensures manager.Valid()
      ensures manager.limbos == old(manager.limbos) && manager.limboPlayers == old(manager.limboPlayers)
      ensures var fallback := settings.autoTriggers.fallback;
        var decision := ShouldFallback(fallback, reason, matches);
        && (decision.None? <==> outcome == HandlerFailed)
        && (outcome == NotifyEmpty <==> decision == Some(true) && fallback.limbo in manager.limbos)
        && (outcome == NotifyEmpty ==>
              manager.playerLimbos == old(manager.playerLimbos)[player := fallback.limbo]
              && Appended(proxy, [SpawnInLimbo(player, fallback.limbo)]
                                 + (if fallback.message != [] then [SendMessage(PlayerAudience(player), ComponentOf(Some(fallback.message)))] else [])))
      ensures outcome != NotifyEmpty ==> manager.playerLimbos == old(manager.playerLimbos) && Appended(proxy, [])
    {
      var fallback := settings.autoTriggers.fallback;
      var decision := ShouldFallback(fallback, reason, matches);
      if decision.None? {
        return HandlerFailed;
      }
      if !decision.value {
        return KeepResult;
      }
      var sent := manager.SendPlayerToLimbo(player, fallback.limbo);
      outcome := KeepResult;
      if sent {
        outcome := NotifyEmpty;
        var message := fallback.message;
        if message != [] {
          proxy.log := proxy.log + [SendMessage(PlayerAudience(player), ComponentOf(Some(message)))];
        }
      }
    }
  }
}
