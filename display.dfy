/**
 * The join display of a limbo (`DisplayManager`): on spawn a player may get a
 * chat line, a title, an action bar, a boss bar and a repeating action-bar
 * task; the boss bar and the task are remembered per player so that leaving
 * the limbo can take them down again.
 */
module Display {
  import opened Util
  import opened Text
  import opened MessageUtil
  import opened Config
  import opened Platform

  /** Minecraft ticks are 50 ms long. */
  const MillisPerTick: int := 50

  /** `normalizeProgress`: clamp a boss-bar progress into [0, 1]. */
  function NormalizeProgress(progress: real): (r: real)
    ensures 0.0 <= r <= 1.0
    ensures 0.0 <= progress <= 1.0 ==> r == progress
    ensures progress < 0.0 ==> r == 0.0
    ensures progress > 1.0 ==> r == 1.0
  {
    if progress < 0.0 then 0.0 else if progress <= 1.0 then progress else 1.0
  }

  /** Clamping twice is clamping once. */
  lemma NormalizeProgressIdempotent(progress: real)
    ensures NormalizeProgress(NormalizeProgress(progress)) == NormalizeProgress(progress)
  {
  }

  function ColorName(c: BossBarColor): string {
    match c
    case PINK => "PINK"
    case BLUE => "BLUE"
    case RED => "RED"
    case GREEN => "GREEN"
    case YELLOW => "YELLOW"
    case PURPLE => "PURPLE"
    case WHITE => "WHITE"
  }

  function OverlayName(o: BossBarOverlay): string {
    match o
    case PROGRESS => "PROGRESS"
    case NOTCHED_6 => "NOTCHED_6"
    case NOTCHED_10 => "NOTCHED_10"
    case NOTCHED_12 => "NOTCHED_12"
    case NOTCHED_20 => "NOTCHED_20"
  }

  /** `parseColor`: `BossBar.Color.valueOf` of the upper-cased name, and WHITE
      when no colour has that name. */
  function ParseColor(s: string): (c: BossBarColor)
    ensures ColorName(c) == Upper(s) || (c == WHITE && forall d :: ColorName(d) != Upper(s))
  {
    var u := Upper(s);
    if u == "PINK" then PINK
    else if u == "BLUE" then BLUE
    else if u == "RED" then RED
    else if u == "GREEN" then GREEN
    else if u == "YELLOW" then YELLOW
    else if u == "PURPLE" then PURPLE
    else WHITE
  }

  /** `parseOverlay`: `BossBar.Overlay.valueOf` of the upper-cased name, and
      PROGRESS when no overlay has that name. */
  function ParseOverlay(s: string): (o: BossBarOverlay)
    ensures OverlayName(o) == Upper(s) || (o == PROGRESS && forall d :: OverlayName(d) != Upper(s))
  {
    var u := Upper(s);
    if u == "NOTCHED_6" then NOTCHED_6
    else if u == "NOTCHED_10" then NOTCHED_10
    else if u == "NOTCHED_12" then NOTCHED_12
    else if u == "NOTCHED_20" then NOTCHED_20
    else PROGRESS
  }

  /** Every colour and overlay name, in any case, parses back to itself. */
  lemma {:induction false} BossBarNamesRoundTrip(s: string, c: BossBarColor, o: BossBarOverlay)
    ensures EqualsIgnoreCase(s, ColorName(c)) ==> ParseColor(s) == c
    ensures EqualsIgnoreCase(s, OverlayName(o)) ==> ParseOverlay(s) == o
  {
    if EqualsIgnoreCase(s, ColorName(c)) {
      EqualsIgnoreCaseUpper(s, ColorName(c));
      UpperFixed(ColorName(c));
    }
    if EqualsIgnoreCase(s, OverlayName(o)) {
      EqualsIgnoreCaseUpper(s, OverlayName(o));
      UpperFixed(OverlayName(o));
    }
  }

  /** The boss-bar style shipped in the default configuration, "SOLID", is not
      an overlay name, so the bar is drawn as PROGRESS. */
  lemma DefaultStyleIsProgress()
    ensures ParseOverlay("SOLID") == PROGRESS
  {
    UpperFixed("SOLID");
  }

  /** A tick count as milliseconds, in `long` arithmetic. */
  function TicksToMillis(ticks: int): (ms: int)
    ensures ms == ticks * MillisPerTick
  {
    ticks * 50
  }

  /** The period of the repeating action bar: at least one tick. */
  function ActionBarPeriodMillis(interval: int): (ms: int)
    ensures ms >= MillisPerTick && ms % MillisPerTick == 0
    ensures interval >= 1 ==> ms == interval * MillisPerTick
    ensures interval < 1 ==> ms == MillisPerTick
  {
    TicksToMillis(Max(1, interval))
  }

  /** `formatActionBar`: the template with `{countdown}` filled in, as a component. */
  function FormatActionBar(template: Option<string>, countdownSeconds: int): (c: Component)
    ensures template.None? ==> c == EmptyComponent
    ensures template.Some? && !Contains(template.value, "{countdown}") ==> c == ComponentOf(template)
  {
    ComponentOf(Some(Replace(template, "{countdown}", IntToString(countdownSeconds))))
  }

  /** `LimboDisplay`: what has to be taken down when the player leaves. */
  datatype LimboDisplay = LimboDisplay(player: PlayerId, bossBar: Option<BossBar>, actionBarTask: Option<Task>)

  /** `LimboDisplay.clear`: cancel the task, then hide the boss bar. */
  function ClearEffects(d: LimboDisplay): (r: seq<Effect>)
    ensures |r| == (if d.actionBarTask.Some? then 1 else 0) + (if d.bossBar.Some? then 1 else 0)
    ensures d.actionBarTask.Some? ==> r[0] == CancelTask(d.actionBarTask.value)
    ensures d.bossBar.Some? ==> r[|r| - 1] == HideBossBar(d.player, d.bossBar.value)
  {
    (if d.actionBarTask.Some? then [CancelTask(d.actionBarTask.value)] else [])
    + (if d.bossBar.Some? then [HideBossBar(d.player, d.bossBar.value)] else [])
  }

  function JoinBossBar(config: BossBarConfig): BossBar {
    BossBar(ComponentOf(Some(config.title)), NormalizeProgress(config.progress),
            ParseColor(config.color), ParseOverlay(config.style))
  }

  predicate PeriodicEnabled(config: PeriodicActionBarConfig) {
    config.enabled && config.message != []
  }

  function PeriodicTask(player: PlayerId, config: PeriodicActionBarConfig): Task {
    ActionBarTask(player, ComponentOf(Some(config.message)))
  }

  /** The display `showJoinDisplay` remembers for the player. */
  function JoinDisplay(player: PlayerId, display: DisplayConfig): LimboDisplay {
    LimboDisplay(
      player,
      if display.bossbar.enabled then Some(JoinBossBar(display.bossbar)) else None,
      if PeriodicEnabled(display.actionbar) then Some(PeriodicTask(player, display.actionbar)) else None)
  }

  /** The calls `showJoinDisplay` makes, in order: chat line, title, action bar,
      boss bar, repeating action bar. */
  function JoinEffects(player: PlayerId, display: DisplayConfig): (r: seq<Effect>)
    ensures |r| <= 5
    ensures forall e :: e in r ==> e.SendMessage? || e.ShowTitle? || e.SendActionBar? || e.ShowBossBar? || e.ScheduleRepeat?
    ensures forall e :: e in r && (e.ShowTitle? || e.SendActionBar? || e.ShowBossBar?) ==> e.player == player
    ensures forall e :: e in r && e.ScheduleRepeat? ==> e.delayMs == 0 && e.periodMs >= MillisPerTick
  {
    var onJoin := display.onJoin;
    var title := onJoin.title;
    (if onJoin.chat != [] then [SendMessage(PlayerAudience(player), ComponentOf(Some(onJoin.chat)))] else [])
    + (if title.enabled
       then [ShowTitle(player, ComponentOf(Some(title.title)), ComponentOf(Some(title.subtitle)),
                       TicksToMillis(title.fadeIn), TicksToMillis(title.stay), TicksToMillis(title.fadeOut))]
       else [])
    + (if onJoin.actionbar.enabled && onJoin.actionbar.message != []
       then [SendActionBar(player, ComponentOf(Some(onJoin.actionbar.message)))] else [])
    + (if display.bossbar.enabled then [ShowBossBar(player, JoinBossBar(display.bossbar))] else [])
    + (if PeriodicEnabled(display.actionbar)
       then [ScheduleRepeat(PeriodicTask(player, display.actionbar), 0, ActionBarPeriodMillis(display.actionbar.interval))]
       else [])
  }

  /** The join chat line is sent exactly when it is non-empty, and it is the
      only message the join display sends. */
  lemma JoinChatCall(player: PlayerId, display: DisplayConfig)
    ensures display.onJoin.chat != [] <==>
      SendMessage(PlayerAudience(player), ComponentOf(Some(display.onJoin.chat))) in JoinEffects(player, display)
    ensures forall e :: e in JoinEffects(player, display) && e.SendMessage? ==>
      e == SendMessage(PlayerAudience(player), ComponentOf(Some(display.onJoin.chat)))
  {
  }

  /** The join title is shown exactly when enabled, with its texts and its
      fade-in, stay and fade-out times converted from ticks to milliseconds. */
  lemma JoinTitleCall(player: PlayerId, display: DisplayConfig)
    ensures display.onJoin.title.enabled <==> exists e :: e in JoinEffects(player, display) && e.ShowTitle?
    ensures forall e :: e in JoinEffects(player, display) && e.ShowTitle? ==>
      var title := display.onJoin.title;
      e == ShowTitle(player, ComponentOf(Some(title.title)), ComponentOf(Some(title.subtitle)),
                     TicksToMillis(title.fadeIn), TicksToMillis(title.stay), TicksToMillis(title.fadeOut))
  {
    var title := display.onJoin.title;
    if title.enabled {
      var t := ShowTitle(player, ComponentOf(Some(title.title)), ComponentOf(Some(title.subtitle)),
                         TicksToMillis(title.fadeIn), TicksToMillis(title.stay), TicksToMillis(title.fadeOut));
      assert t in JoinEffects(player, display);
    }
  }

  /** The one-off join action bar is sent exactly when it is enabled with a
      non-empty message, and it is the only action bar sent at once. */
  lemma JoinActionBarCall(player: PlayerId, display: DisplayConfig)
    ensures display.onJoin.actionbar.enabled && display.onJoin.actionbar.message != [] <==>
      SendActionBar(player, ComponentOf(Some(display.onJoin.actionbar.message))) in JoinEffects(player, display)
    ensures forall e :: e in JoinEffects(player, display) && e.SendActionBar? ==>
      e == SendActionBar(player, ComponentOf(Some(display.onJoin.actionbar.message)))
  {
  }

  /** A boss bar is shown only when enabled, and a repeating action bar is
      scheduled only when enabled with a non-empty message; whatever is shown
      or scheduled is exactly what clearing the remembered display takes down. */
  lemma JoinDisplayIsUndoneByClear(player: PlayerId, display: DisplayConfig)
    ensures (exists b :: ShowBossBar(player, b) in JoinEffects(player, display)) <==> display.bossbar.enabled
    ensures (exists t, d, p :: ScheduleRepeat(t, d, p) in JoinEffects(player, display)) <==> PeriodicEnabled(display.actionbar)
    ensures forall b :: ShowBossBar(player, b) in JoinEffects(player, display) ==>
      HideBossBar(player, b) in ClearEffects(JoinDisplay(player, display))
    ensures forall t, d, p :: ScheduleRepeat(t, d, p) in JoinEffects(player, display) ==>
      CancelTask(t) in ClearEffects(JoinDisplay(player, display))
  {
    JoinBossBarOnly(player, display);
    JoinPeriodicOnly(player, display);
    var e := JoinEffects(player, display);
    if display.bossbar.enabled {
      assert ShowBossBar(player, JoinBossBar(display.bossbar)) in e;
    }
    if PeriodicEnabled(display.actionbar) {
      var t := PeriodicTask(player, display.actionbar);
      assert ScheduleRepeat(t, 0, ActionBarPeriodMillis(display.actionbar.interval)) in e;
    }
  }

  /** The only boss bar the join calls show is the configured one. */
  lemma JoinBossBarOnly(player: PlayerId, display: DisplayConfig)
    ensures forall x :: x in JoinEffects(player, display) && x.ShowBossBar? ==>
      display.bossbar.enabled && x == ShowBossBar(player, JoinBossBar(display.bossbar))
  {
  }

  /** The only task the join calls schedule is the periodic action bar,
      started at once and repeated with the configured period. */
  lemma JoinPeriodicOnly(player: PlayerId, display: DisplayConfig)
    ensures forall x :: x in JoinEffects(player, display) && x.ScheduleRepeat? ==>
      PeriodicEnabled(display.actionbar)
      && x == ScheduleRepeat(PeriodicTask(player, display.actionbar), 0, ActionBarPeriodMillis(display.actionbar.interval))
  {
  }

  /** `DisplayManager`: one remembered display per player. */
  class DisplayManager {
    var activeDisplays: map<PlayerId, LimboDisplay>
    const proxy: Proxy

    constructor (proxy: Proxy)
      ensures activeDisplays == map[] && this.proxy == proxy
    {
      activeDisplays := map[];
      this.proxy := proxy;
    }

    /** `showJoinDisplay`: a previous display of the player is replaced, not cleared. */
    method ShowJoinDisplay(player: PlayerId, config: LimboServerConfig)
      modifies this, proxy
      ensures activeDisplays == old(activeDisplays)[player := JoinDisplay(player, config.display)]
      ensures Appended(proxy, JoinEffects(player, config.display))
    {
      proxy.log := proxy.log + JoinEffects(player, config.display);
      activeDisplays := activeDisplays[player := JoinDisplay(player, config.display)];
    }

    /** `clearDisplay`: take down and forget the player's display, if any. */
    method ClearDisplay(player: PlayerId)
      modifies this, proxy
      ensures activeDisplays == old(activeDisplays) - {player}
      ensures Appended(proxy, if player in old(activeDisplays) then ClearEffects(old(activeDisplays)[player]) else [])
    {
      if player in activeDisplays {
        proxy.log := proxy.log + ClearEffects(activeDisplays[player]);
      }
      activeDisplays := activeDisplays - {player};
    }

    /** `clearAll`: take down every display, in the table's iteration order, and forget them all. */
    method ClearAll() returns (ghost order: seq<PlayerId>)
      modifies this, proxy
      ensures activeDisplays == map[]
      ensures Distinct(order) && forall p :: p in order <==> p in old(activeDisplays)
      ensures Appended(proxy, ClearAllEffects(old(activeDisplays), order))
    {
      var keys := Enumerate(activeDisplays.Keys);
      var i := 0;
      while i < |keys|
        invariant 0 <= i <= |keys|
        invariant activeDisplays == old(activeDisplays)
        invariant Appended(proxy, ClearAllEffects(old(activeDisplays), keys[..i]))
      {
        assert keys[..i + 1] == keys[..i] + [keys[i]];
        proxy.log := proxy.log + ClearEffects(activeDisplays[keys[i]]);
        i := i + 1;
      }
      assert keys[..i] == keys;
      order := keys;
      activeDisplays := map[];
    }
  }

  /** The calls of clearing the displays of `order`, one after the other. */
  function ClearAllEffects(displays: map<PlayerId, LimboDisplay>, order: seq<PlayerId>): seq<Effect>
  {
    if order == [] then []
    else
      ClearAllEffects(displays, order[..|order| - 1])
      + (if order[|order| - 1] in displays then ClearEffects(displays[order[|order| - 1]]) else [])
  }
}
