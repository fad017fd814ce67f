/**
 * The automatic triggers (`TriggerManager`): a kicked player goes to the
 * fallback limbo when the kick reason matches one of the configured patterns,
 * and a periodic scan sends players idle for too long to the AFK limbo.
 * The regular-expression engine is a parameter.
 */
module Triggers {
  import opened Util
  import opened MessageUtil
  import opened Config
  import opened Platform
  import opened Limbo

  /** The outcome of `Pattern.compile(pattern, CASE_INSENSITIVE).matcher(value).matches()`:
      a full match, no match, or a `PatternSyntaxException` from compiling. */
  datatype MatchResult = Matched | NotMatched | BadPattern

  /** A case-insensitive whole-string regular-expression matcher, as `(pattern, value)`. */
  type Matcher = (string, string) -> MatchResult

  /** The loop of `shouldFallback`: patterns are tried in order; the first
      that matches answers true, and one that does not compile throws, which
      is `None` here. */
  function FirstMatch(patterns: seq<string>, value: string, matches: Matcher): (r: Option<bool>)
    ensures r == Some(true) <==>
      exists k :: 0 <= k < |patterns| && matches(patterns[k], value) == Matched
        && forall j :: 0 <= j < k ==> matches(patterns[j], value) == NotMatched
    ensures r == Some(false) <==> forall k :: 0 <= k < |patterns| ==> matches(patterns[k], value) == NotMatched
  {
    if patterns == [] then Some(false)
    else
      match matches(patterns[0], value)
      case Matched => Some(true)
      case BadPattern => None
      case NotMatched =>
        var r := FirstMatch(patterns[1..], value, matches);
        assert r == Some(true) ==>
          exists k :: 0 <= k < |patterns| && matches(patterns[k], value) == Matched
            && forall j :: 0 <= j < k ==> matches(patterns[j], value) == NotMatched
        by {
          if r == Some(true) {
            var k :| 0 <= k < |patterns[1..]| && matches(patterns[1..][k], value) == Matched
              && forall j :: 0 <= j < k ==> matches(patterns[1..][j], value) == NotMatched;
            assert forall j :: 0 <= j < k + 1 ==> matches(patterns[j], value) == NotMatched by {
              forall j | 0 <= j < k + 1 ensures matches(patterns[j], value) == NotMatched {
                if j > 0 {
                  assert patterns[j] == patterns[1..][j - 1];
                }
              }
            }
            assert matches(patterns[k + 1], value) == Matched;
          }
        }
        assert (exists k :: 0 <= k < |patterns| && matches(patterns[k], value) == Matched
                  && forall j :: 0 <= j < k ==> matches(patterns[j], value) == NotMatched) ==> r == Some(true)
        by {
          if exists k :: 0 <= k < |patterns| && matches(patterns[k], value) == Matched
               && forall j :: 0 <= j < k ==> matches(patterns[j], value) == NotMatched {
            var k :| 0 <= k < |patterns| && matches(patterns[k], value) == Matched
              && forall j :: 0 <= j < k ==> matches(patterns[j], value) == NotMatched;
            assert k > 0;
            assert matches(patterns[1..][k - 1], value) == Matched;
            assert forall j :: 0 <= j < k - 1 ==> matches(patterns[1..][j], value) == NotMatched by {
              forall j | 0 <= j < k - 1 ensures matches(patterns[1..][j], value) == NotMatched {
                assert patterns[1..][j] == patterns[j + 1];
              }
            }
          }
        }
        assert r == Some(false) <==> forall k :: 0 <= k < |patterns| ==> matches(patterns[k], value) == NotMatched by {
          if forall k :: 0 <= k < |patterns[1..]| ==> matches(patterns[1..][k], value) == NotMatched {
            forall k | 0 <= k < |patterns| ensures matches(patterns[k], value) == NotMatched {
              if k > 0 {
                assert patterns[k] == patterns[1..][k - 1];
              }
            }
          }
        }
        r
  }

  /** `shouldFallback`: false when the fallback trigger is off; otherwise the
      pattern search over the reason, a null reason read as "". */
  function ShouldFallback(config: FallbackTriggerConfig, reason: Option<string>, matches: Matcher): (r: Option<bool>)
    ensures !config.enabled ==> r == Some(false)
    ensures config.enabled ==> r == FirstMatch(config.kickPatterns, reason.GetOr(""), matches)
  {
    if !config.enabled then Some(false)
    else FirstMatch(config.kickPatterns, reason.GetOr(""), matches)
  }

  /** When every pattern compiles, the answer is whether any of them matches
      the whole reason, whatever their order. */
  lemma FallbackIsAnyMatch(config: FallbackTriggerConfig, reason: Option<string>, matches: Matcher)
    requires config.enabled
    requires forall k :: 0 <= k < |config.kickPatterns| ==> matches(config.kickPatterns[k], reason.GetOr("")) != BadPattern
    ensures ShouldFallback(config, reason, matches) ==
      Some(exists k :: 0 <= k < |config.kickPatterns| && matches(config.kickPatterns[k], reason.GetOr("")) == Matched)
  {
    var ps := config.kickPatterns;
    var v := reason.GetOr("");
    if exists k :: 0 <= k < |ps| && matches(ps[k], v) == Matched {
      var k :| 0 <= k < |ps| && matches(ps[k], v) == Matched;
      FirstMatchedIndex(ps, v, matches, k);
    }
  }

  /** Some pattern matches, all compile: then there is a first that matches. */
  lemma {:induction false} FirstMatchedIndex(ps: seq<string>, v: string, matches: Matcher, k: int)
    requires 0 <= k < |ps| && matches(ps[k], v) == Matched
    requires forall j :: 0 <= j < |ps| ==> matches(ps[j], v) != BadPattern
    ensures exists m :: 0 <= m < |ps| && matches(ps[m], v) == Matched
                        && forall j :: 0 <= j < m ==> matches(ps[j], v) == NotMatched
    decreases k
  {
    if exists j :: 0 <= j < k && matches(ps[j], v) == Matched {
      var j :| 0 <= j < k && matches(ps[j], v) == Matched;
      FirstMatchedIndex(ps, v, matches, j);
    } else {
      assert forall j :: 0 <= j < k ==> matches(ps[j], v) == NotMatched;
    }
  }

  /** `max(1, idleTime) * 1000L`: the idle threshold in milliseconds. */
  function IdleMillis(idleTime: int): (ms: int)
    ensures ms >= 1000 && ms % 1000 == 0
    ensures idleTime >= 1 ==> ms == idleTime * 1000
    ensures idleTime < 1 ==> ms == 1000
  {
    Max(1, idleTime) * 1000
  }

  /** `lastActivity.getOrDefault(id, now)`. */
  function LastActivity(lastActivity: map<PlayerId, int>, id: PlayerId, now: int): int {
    if id in lastActivity then lastActivity[id] else now
  }

  predicate IsIdle(lastActivity: map<PlayerId, int>, id: PlayerId, now: int, idleTime: int) {
    now - LastActivity(lastActivity, id, now) >= IdleMillis(idleTime)
  }

  /** A player with no recorded activity is never idle on that scan. */
  lemma UnrecordedIsNotIdle(lastActivity: map<PlayerId, int>, id: PlayerId, now: int, idleTime: int)
    requires id !in lastActivity
    ensures !IsIdle(lastActivity, id, now, idleTime)
  {
  }

  /** What the scan reads and writes: the activity timestamps, the
      player-to-limbo table, and the calls made. */
  datatype ScanState = ScanState(lastActivity: map<PlayerId, int>, playerLimbos: map<PlayerId, string>, effects: seq<Effect>)

  /** The scan redirects a player that is not in a limbo, lacks the exempt
      permission, and has been idle for at least the threshold. */
  predicate Redirects(st: ScanState, afk: AfkTriggerConfig, p: OnlinePlayer, now: int) {
    p.id !in st.playerLimbos
    && afk.exemptPermission !in p.permissions
    && IsIdle(st.lastActivity, p.id, now, afk.idleTime)
  }

  /** One player of `checkAfkPlayers`. `sendPlayerToLimbo` succeeds exactly
      when the AFK limbo is loaded (`limboNames`); either way the player's
      activity is reset to `now`. */
  function ScanOne(st: ScanState, afk: AfkTriggerConfig, limboNames: set<string>, p: OnlinePlayer, now: int): (r: ScanState)
    ensures !Redirects(st, afk, p, now) ==> r == st
    ensures Redirects(st, afk, p, now) ==>
      r.lastActivity == st.lastActivity[p.id := now]
      && (afk.limbo in limboNames ==>
            r.playerLimbos == st.playerLimbos[p.id := afk.limbo]
            && r.effects == st.effects + [SpawnInLimbo(p.id, afk.limbo)]
               + (if afk.message != [] then [SendMessage(PlayerAudience(p.id), ComponentOf(Some(afk.message)))] else []))
      && (afk.limbo !in limboNames ==> r.playerLimbos == st.playerLimbos && r.effects == st.effects)
  {
    if !Redirects(st, afk, p, now) then st
    else
      var sent := afk.limbo in limboNames;
      ScanState(
        st.lastActivity[p.id := now],
        if sent then st.playerLimbos[p.id := afk.limbo] else st.playerLimbos,
        st.effects
        + (if sent then [SpawnInLimbo(p.id, afk.limbo)] else [])
        + (if sent && afk.message != [] then [SendMessage(PlayerAudience(p.id), ComponentOf(Some(afk.message)))] else []))
  }

  /** The `forEach` over the online players, in their order. */
  function Scan(st: ScanState, afk: AfkTriggerConfig, limboNames: set<string>, players: seq<OnlinePlayer>, now: int): (r: ScanState)
    ensures st.effects <= r.effects
    ensures st.lastActivity.Keys <= r.lastActivity.Keys
    ensures forall id :: id in st.playerLimbos ==> id in r.playerLimbos && r.playerLimbos[id] == st.playerLimbos[id]
    ensures forall id :: id in r.playerLimbos && id !in st.playerLimbos ==> r.playerLimbos[id] == afk.limbo && afk.limbo in limboNames
  {
    if players == [] then st
    else ScanOne(Scan(st, afk, limboNames, players[..|players| - 1], now), afk, limboNames, players[|players| - 1], now)
  }

  predicate DistinctIds(players: seq<OnlinePlayer>) {
    forall i, j :: 0 <= i < j < |players| ==> players[i].id != players[j].id
  }

  /** Scanning a player only touches that player's entries. */
  lemma ScanOneLocal(st: ScanState, afk: AfkTriggerConfig, limboNames: set<string>, p: OnlinePlayer, now: int, id: PlayerId)
    requires id != p.id
    ensures var r := ScanOne(st, afk, limboNames, p, now);
      (id in r.lastActivity <==> id in st.lastActivity)
      && (id in st.lastActivity ==> r.lastActivity[id] == st.lastActivity[id])
      && (id in r.playerLimbos <==> id in st.playerLimbos)
  {
  }

  /** Over a whole scan of distinct players, every player that was due at
      the start of the scan has its activity reset to `now`. */
  lemma {:induction false} ScanResetsTheIdle(st: ScanState, afk: AfkTriggerConfig, limboNames: set<string>,
                                             players: seq<OnlinePlayer>, now: int)
    requires DistinctIds(players)
    ensures forall i :: 0 <= i < |players| && Redirects(st, afk, players[i], now) ==>
      players[i].id in Scan(st, afk, limboNames, players, now).lastActivity
      && Scan(st, afk, limboNames, players, now).lastActivity[players[i].id] == now
    decreases |players|
  {
    if players != [] {
      var n := |players| - 1;
      var prefix := players[..n];
      var p := players[n];
      assert DistinctIds(prefix);
      ScanResetsTheIdle(st, afk, limboNames, prefix, now);
      ScanKeepsTheOthers(st, afk, limboNames, prefix, now);
      var mid := Scan(st, afk, limboNames, prefix, now);
      var r := Scan(st, afk, limboNames, players, now);
      assert r == ScanOne(mid, afk, limboNames, p, now);
      // The last player was not touched by the prefix, so it is due now exactly when it was due at the start.
      assert forall i :: 0 <= i < n ==> prefix[i].id != p.id;
      assert Redirects(mid, afk, p, now) == Redirects(st, afk, p, now);
      forall i | 0 <= i < |players| && Redirects(st, afk, players[i], now)
        ensures players[i].id in r.lastActivity && r.lastActivity[players[i].id] == now
      {
        if i < n {
          assert prefix[i] == players[i];
          ScanOneLocal(mid, afk, limboNames, p, now, players[i].id);
        }
      }
    }
  }

  /** Over a whole scan of distinct players, a player that was not due at the
      start keeps its timestamp (or its absence) and its limbo entry. */
  lemma {:induction false} ScanKeepsTheOthers(st: ScanState, afk: AfkTriggerConfig, limboNames: set<string>,
                                              players: seq<OnlinePlayer>, now: int)
    requires DistinctIds(players)
    ensures forall id :: (forall i :: 0 <= i < |players| && players[i].id == id ==> !Redirects(st, afk, players[i], now)) ==>
      (id in Scan(st, afk, limboNames, players, now).lastActivity <==> id in st.lastActivity)
      && (id in st.lastActivity ==> Scan(st, afk, limboNames, players, now).lastActivity[id] == st.lastActivity[id])
      && (id in Scan(st, afk, limboNames, players, now).playerLimbos <==> id in st.playerLimbos)
    decreases |players|
  {
    if players != [] {
      var n := |players| - 1;
      var prefix := players[..n];
      var p := players[n];
      assert DistinctIds(prefix);
      ScanKeepsTheOthers(st, afk, limboNames, prefix, now);
      var mid := Scan(st, afk, limboNames, prefix, now);
      var r := Scan(st, afk, limboNames, players, now);
      assert r == ScanOne(mid, afk, limboNames, p, now);
      // The last player was not touched by the prefix, so it is due now exactly when it was due at the start.
      assert forall i :: 0 <= i < n ==> prefix[i].id != p.id;
      assert Redirects(mid, afk, p, now) == Redirects(st, afk, p, now);
      forall id | (forall i :: 0 <= i < |players| && players[i].id == id ==> !Redirects(st, afk, players[i], now))
        ensures (id in r.lastActivity <==> id in st.lastActivity)
          && (id in st.lastActivity ==> r.lastActivity[id] == st.lastActivity[id])
          && (id in r.playerLimbos <==> id in st.playerLimbos)
      {
        assert forall i :: 0 <= i < |prefix| && prefix[i].id == id ==> !Redirects(st, afk, prefix[i], now) by {
          forall i | 0 <= i < |prefix| && prefix[i].id == id ensures !Redirects(st, afk, prefix[i], now) {
            assert players[i] == prefix[i];
          }
        }
        if id != p.id {
          ScanOneLocal(mid, afk, limboNames, p, now, id);
        } else {
          assert !Redirects(st, afk, players[n], now);
        }
      }
    }
  }

  /** The calls `stop` makes: cancel the scan if one is scheduled. */
  function StopEffects(running: bool): (r: seq<Effect>)
    ensures !running ==> r == []
    ensures running ==> r == [CancelTask(AfkScanTask)]
  {
    if running then [CancelTask(AfkScanTask)] else []
  }

  /** The scan period: `max(1, checkInterval)` seconds. */
  function ScanPeriodMillis(afk: AfkTriggerConfig): (ms: int)
    ensures ms >= 1000 && ms % 1000 == 0
    ensures afk.checkInterval >= 1 ==> ms == afk.checkInterval * 1000
    ensures afk.checkInterval < 1 ==> ms == 1000
  {
    Max(1, afk.checkInterval) * 1000
  }

  /** `TriggerManager`: the activity timestamps and the repeating AFK scan. */
  class TriggerManager {
    var lastActivity: map<PlayerId, int>
    /** `afkTask`: whether a scan is scheduled. */
    var afkTask: bool
    const proxy: Proxy

    constructor (proxy: Proxy)
      ensures lastActivity == map[] && !afkTask && this.proxy == proxy
    {
      lastActivity := map[];
      afkTask := false;
      this.proxy := proxy;
    }

    /** `stop`: cancel the scan if there is one; afterwards there is none, so
        a second call does nothing. */
    method Stop()
      modifies this, proxy
      ensures !afkTask && lastActivity == old(lastActivity)
      ensures Appended(proxy, StopEffects(old(afkTask)))
    {
      if afkTask {
        proxy.log := proxy.log + [CancelTask(AfkScanTask)];
        afkTask := false;
      }
    }

    /** `start`: always stop first; then, only when the AFK trigger is on,
        schedule the scan to repeat at its period from now. */
    method Start(afk: AfkTriggerConfig)
      modifies this, proxy
      ensures afkTask == afk.enabled && lastActivity == old(lastActivity)
      ensures Appended(proxy, StopEffects(old(afkTask))
        + (if afk.enabled then [ScheduleRepeat(AfkScanTask, 0, ScanPeriodMillis(afk))] else []))
    {
      Stop();
      if !afk.enabled {
        return;
      }
      var period := ScanPeriodMillis(afk);
      proxy.log := proxy.log + [ScheduleRepeat(AfkScanTask, 0, period)];
      afkTask := true;
    }

    /** `markActivity`: the player's timestamp becomes `now`; no other entry changes. */
    method MarkActivity(player: PlayerId, now: int)
      modifies this
      ensures lastActivity == old(lastActivity)[player := now]
      ensures afkTask == old(afkTask)
    {
      lastActivity := lastActivity[player := now];
    }

    /** `removePlayer`: the player's timestamp is dropped; no other entry changes. */
    method RemovePlayer(player: PlayerId)
      modifies this
      ensures lastActivity == old(lastActivity) - {player}
      ensures afkTask == old(afkTask)
    {
      lastActivity := lastActivity - {player};
    }

    /** The body of the `forEach` in `checkAfkPlayers`: one online player,
        skipped when already in a limbo or exempt, otherwise sent to the AFK
        limbo once idle for the configured time. `effects` are the calls of
        the players before; `added` are this player's. */
    method CheckOne(afk: AfkTriggerConfig, manager: LimboManager, player: OnlinePlayer, now: int,
                    ghost effects: seq<Effect>) returns (ghost added: seq<Effect>)
      requires manager.Valid() && manager.proxy == proxy
      modifies this, manager, proxy
      ensures manager.Valid()
      ensures afkTask == old(afkTask)
      ensures manager.limbos == old(manager.limbos) && manager.limboPlayers == old(manager.limboPlayers)
      ensures ScanState(lastActivity, manager.playerLimbos, effects + added)
        == ScanOne(ScanState(old(lastActivity), old(manager.playerLimbos), effects), afk, old(manager.limbos.Keys), player, now)
      ensures Appended(proxy, added)
    {
      added := [];
      if manager.IsPlayerInLimbo(player.id) {
        return;
      }
      if afk.exemptPermission in player.permissions {
        return;
      }
      var last := if player.id in lastActivity then lastActivity[player.id] else now;
      if now - last >= IdleMillis(afk.idleTime) {
        var sent := manager.SendPlayerToLimbo(player.id, afk.limbo);
        if sent {
          added := added + [SpawnInLimbo(player.id, afk.limbo)];
        }
        if sent && afk.message != [] {
          proxy.log := proxy.log + [SendMessage(PlayerAudience(player.id), ComponentOf(Some(afk.message)))];
          added := added + [SendMessage(PlayerAudience(player.id), ComponentOf(Some(afk.message)))];
        }
        MarkActivity(player.id, now);
      }
    }

    /** `checkAfkPlayers`, over the online players in the order the proxy
        lists them: the whole scan is the left fold `Scan` of `ScanOne`. */
    method CheckAfkPlayers(afk: AfkTriggerConfig, manager: LimboManager, players: seq<OnlinePlayer>, now: int)
      requires manager.Valid() && manager.proxy == proxy
      modifies this, manager, proxy
      ensures manager.Valid()
      ensures afkTask == old(afkTask)
      ensures manager.limbos == old(manager.limbos) && manager.limboPlayers == old(manager.limboPlayers)
      ensures !afk.enabled ==>
        lastActivity == old(lastActivity) && manager.playerLimbos == old(manager.playerLimbos) && Appended(proxy, [])
      ensures afk.enabled ==>
        var r := Scan(ScanState(old(lastActivity), old(manager.playerLimbos), []), afk, old(manager.limbos.Keys), players, now);
        lastActivity == r.lastActivity && manager.playerLimbos == r.playerLimbos && Appended(proxy, r.effects)
    {
      if !afk.enabled {
        return;
      }
      ghost var init := ScanState(lastActivity, manager.playerLimbos, []);
      ghost var names := manager.limbos.Keys;
      ghost var effects: seq<Effect> := [];
      for i := 0 to |players|
        invariant manager.Valid() && manager.limbos == old(manager.limbos) && manager.limboPlayers == old(manager.limboPlayers)
        invariant afkTask == old(afkTask)
        invariant ScanState(lastActivity, manager.playerLimbos, effects) == Scan(init, afk, names, players[..i], now)
        invariant Appended(proxy, effects)
      {
        assert players[..i + 1][..i] == players[..i];
        ghost var added := CheckOne(afk, manager, players[i], now, effects);
        AppendAssoc(old(proxy.log), effects, added);
        effects := effects + added;
      }
      assert players[..|players|] == players;
    }
  }
}
