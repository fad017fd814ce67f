/**
 * The auto-reconnect countdown of a limbo session (the repeating task of
 * `SimpleLimboHandler.startAutoReconnectIfEnabled`): once a second it either
 * shows the seconds left in the action bar and counts down, or, at zero,
 * asks the proxy to connect the player to the target server and starts over.
 */
module Countdown {
  import opened Util
  import opened Text
  import opened MessageUtil
  import opened Platform

  const Placeholder: string := "{countdown}"

  /** `max(1, autoReconnect.interval)`. */
  function Interval(configured: int): (r: int)
    ensures r >= 1 && r >= configured
    ensures configured >= 1 ==> r == configured
    ensures configured < 1 ==> r == 1
  {
    Max(1, configured)
  }

  /** What one tick does. */
  datatype TickAction = ShowCountdown(seconds: int) | AttemptConnect

  /** One tick from `countdown`: the action and the next countdown value. */
  function Tick(countdown: int, interval: int): (r: (TickAction, int))
    ensures r.0.AttemptConnect? <==> countdown <= 0
    ensures countdown <= 0 ==> r.1 == interval
    ensures countdown > 0 ==> r.0 == ShowCountdown(countdown) && r.1 == countdown - 1 >= 0
  {
    if countdown <= 0 then (AttemptConnect, interval) else (ShowCountdown(countdown), countdown - 1)
  }

  /** The countdown never leaves [0, interval]. */
  lemma TickStaysInRange(countdown: int, interval: int)
    requires interval >= 1 && 0 <= countdown <= interval
    ensures 0 <= Tick(countdown, interval).1 <= interval
  {
  }

  /** The calls one tick makes. A countdown tick sends the action-bar template
      of the limbo's periodic display with the seconds filled in, unless that
      text is empty; a connect tick asks for a connection only when the target
      server is registered. */
  function TickEffects(action: TickAction, player: PlayerId, target: Option<ServerInfo>,
                       template: Option<string>): (r: seq<Effect>)
    ensures |r| <= 1
    ensures action.AttemptConnect? ==>
      (r != [] <==> target.Some?) && (target.Some? ==> r == [ConnectRequest(player, target.value.name)])
    ensures action.ShowCountdown? ==>
      (r != [] ==> template.Some? && r[0].SendActionBar? && r[0].player == player && r[0].message.Legacy?)
      && (template.None? ==> r == [])
    ensures action.ShowCountdown? && template.Some? ==>
      var text := Replace(template, Placeholder, IntToString(action.seconds));
      r == (if text == [] then [] else [SendActionBar(player, ComponentOf(Some(text)))])
  {
    match action
    case AttemptConnect =>
      if target.Some? then [ConnectRequest(player, target.value.name)] else []
    case ShowCountdown(n) =>
      var text := Replace(template, Placeholder, IntToString(n));
      if text == [] then [] else [SendActionBar(player, ComponentOf(Some(text)))]
  }

  /** The completion of the connection request: only a successful connection
      sends the success message (even an empty one) and leaves the limbo. */
  function ConnectCompleted(succeeded: bool, player: PlayerId, lp: Option<LimboPlayer>,
                            target: ServerInfo, successMessage: string): (r: seq<Effect>)
    ensures !succeeded ==> r == []
    ensures succeeded ==> |r| >= 1 && r[0] == SendMessage(PlayerAudience(player), ComponentOf(Some(successMessage)))
    ensures succeeded && lp.Some? ==> r == r[..1] + [LimboDisconnect(lp.value, target.name)]
    ensures succeeded && lp.None? ==> r == [SendMessage(PlayerAudience(player), ComponentOf(Some(successMessage)))]
  {
    if !succeeded then []
    else
      [SendMessage(PlayerAudience(player), ComponentOf(Some(successMessage)))]
      + (if lp.Some? then [LimboDisconnect(lp.value, target.name)] else [])
  }

  /** The actions of `n` successive ticks starting from `countdown`. */
  function Actions(countdown: int, interval: int, n: nat): seq<TickAction>
    decreases n
  {
    if n == 0 then []
    else
      var t := Tick(countdown, interval);
      [t.0] + Actions(t.1, interval, n - 1)
  }

  /** The countdown value after `n` successive ticks. */
  function After(countdown: int, interval: int, n: nat): int
    decreases n
  {
    if n == 0 then countdown else After(Tick(countdown, interval).1, interval, n - 1)
  }

  /** `k, k-1, ..., 1` shown in turn. */
  function Descending(k: nat): (r: seq<TickAction>)
    ensures |r| == k
    ensures forall i :: 0 <= i < k ==> r[i] == ShowCountdown(k - i)
  {
    if k == 0 then [] else [ShowCountdown(k)] + Descending(k - 1)
  }

  /** From `c` seconds left, the next `c + 1` ticks show `c` down to 1 and then
      attempt the connection, which resets the countdown. */
  lemma {:induction false} CycleFrom(c: nat, interval: int)
    decreases c
    ensures Actions(c, interval, c + 1) == Descending(c) + [AttemptConnect]
    ensures After(c, interval, c + 1) == interval
  {
    if c > 0 {
      CycleFrom(c - 1, interval);
    }
  }
}
