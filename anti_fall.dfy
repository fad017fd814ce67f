/**
 * The delayed anti-fall of a limbo session (`SimpleLimboHandler`): when a
 * limbo asks for falling to be disabled, the player is held at the spawn
 * height, but only once a configured delay after spawning has passed (or the
 * fallback timer fires). Until then movement is not corrected at all.
 *
 * The handler's fields are gathered in `FallState`; each operation is a
 * function from the old state to the new state and the calls it makes.
 */
module AntiFall {
  import opened Util
  import opened Config
  import opened Platform

  /** How far below the hold height a reported position may be before it is corrected. */
  const Tolerance: real := 0.02

  /** Extra time the fallback timer waits beyond the configured delay. */
  const FallbackGraceMs: int := 8000

  /** The anti-fall fields of one handler. `fallbackPending` says whether
      `disableFallingFallbackTask` holds a task. */
  datatype FallState = FallState(
    requested: bool,
    applied: bool,
    bound: Option<LimboPlayer>,
    delayMs: int,
    spawnMillis: int,
    holdY: Option<real>,
    lastYaw: real,
    lastPitch: real,
    fallbackPending: bool)

  /** A handler just constructed: every field at its Java default. */
  const Fresh: FallState := FallState(false, false, None, 0, 0, None, 0.0, 0.0, false)

  function SpawnPose(spawn: SpawnConfig): Pose {
    Pose(spawn.x, spawn.y, spawn.z, spawn.yaw, spawn.pitch)
  }

  /** Once active, the hold height is known, a limbo player is bound, and
      activation was asked for. */
  predicate Inv(s: FallState) {
    s.applied ==> s.requested && s.holdY.Some? && s.bound.Some?
  }

  /** The anti-fall part of `onSpawn` on a handler in state `s`: record the
      spawn time and orientation, and either arm the fallback timer or let the
      player fall normally. The timer field is only ever set here, never
      cleared, so it keeps its old value when falling is allowed. */
  function OnSpawn(s: FallState, settings: LimboSettingsConfig, spawn: SpawnConfig, player: PlayerId,
                   lp: LimboPlayer, now: int): (r: (FallState, seq<Effect>))
    ensures Inv(r.0) && !r.0.applied && r.0.holdY.None? && r.0.bound == Some(lp)
    ensures r.0.spawnMillis == now && r.0.lastYaw == spawn.yaw && r.0.lastPitch == spawn.pitch
    ensures r.0.requested <==> settings.disableFalling
    ensures r.0.requested ==>
      r.0.delayMs == (if settings.disableFallingDelayMs < 0 then 0 else settings.disableFallingDelayMs)
      && r.0.fallbackPending
      && r.1 == [ScheduleOnce(FallingFallbackTask(player), r.0.delayMs + FallbackGraceMs)]
    ensures !r.0.requested ==>
      r.0.delayMs == 0 && r.1 == [EnableFalling(lp)] && r.0.fallbackPending == s.fallbackPending
  {
    var base := FallState(false, false, Some(lp), 0, now, None, spawn.yaw, spawn.pitch, s.fallbackPending);
    if settings.disableFalling then
      var delay := Max(0, settings.disableFallingDelayMs);
      (base.(requested := true, delayMs := delay, fallbackPending := true),
       [ScheduleOnce(FallingFallbackTask(player), delay + FallbackGraceMs)])
    else
      (base, [EnableFalling(lp)])
  }

  /** The guard of `applyDisableFalling`. */
  predicate Activates(s: FallState, now: int) {
    s.requested && !s.applied && s.bound.Some? && now - s.spawnMillis >= s.delayMs
  }

  /** `applyDisableFalling`: the first call after the delay activates the hold
      at spawn height, teleports to the spawn pose and cancels the fallback timer. */
  function Apply(s: FallState, spawn: SpawnConfig, player: PlayerId, now: int): (r: (FallState, seq<Effect>))
    ensures !Activates(s, now) ==> r == (s, [])
    ensures Activates(s, now) ==>
      r.0.applied && r.0.holdY == Some(spawn.y) && !r.0.fallbackPending
      && r.0.lastYaw == spawn.yaw && r.0.lastPitch == spawn.pitch
      && |r.1| >= 1 && r.1[0] == Teleport(s.bound.value, SpawnPose(spawn))
      && r.1[1..] == (if s.fallbackPending then [CancelTask(FallingFallbackTask(player))] else [])
    ensures Inv(s) ==> Inv(r.0)
  {
    if !s.requested || s.applied || s.bound.None? then (s, [])
    else if now - s.spawnMillis < s.delayMs then (s, [])
    else
      var s' := s.(applied := true, holdY := Some(spawn.y), lastYaw := spawn.yaw,
                   lastPitch := spawn.pitch, fallbackPending := false);
      (s', [Teleport(s.bound.value, SpawnPose(spawn))]
           + (if s.fallbackPending then [CancelTask(FallingFallbackTask(player))] else []))
  }

  /** `enforceAntiFall`: activate if due, then pull the player back up to the
      hold height when the reported height is more than the tolerance below it. */
  function Enforce(s: FallState, spawn: SpawnConfig, player: PlayerId, now: int,
                   x: real, y: real, z: real, yaw: real, pitch: real): (r: (FallState, seq<Effect>))
    ensures Inv(s) ==> Inv(r.0)
  {
    var a := Apply(s, spawn, player, now);
    var s1 := a.0;
    if !s1.applied || s1.bound.None? then a
    else if s1.holdY.None? then (s1.(holdY := Some(y)), a.1)
    else if y < s1.holdY.value - Tolerance then
      (s1, a.1 + [Teleport(s1.bound.value, Pose(x, s1.holdY.value, z, yaw, pitch))])
    else a
  }

  /** `onMove(x, y, z)`: the orientation is the one stored before this move. */
  function Move3(s: FallState, spawn: SpawnConfig, player: PlayerId, now: int,
                 x: real, y: real, z: real): (r: (FallState, seq<Effect>))
    ensures Inv(s) ==> Inv(r.0)
  {
    Enforce(s, spawn, player, now, x, y, z, s.lastYaw, s.lastPitch)
  }

  /** `onMove(x, y, z, yaw, pitch)`: store the reported orientation, then enforce with it. */
  function Move5(s: FallState, spawn: SpawnConfig, player: PlayerId, now: int,
                 x: real, y: real, z: real, yaw: real, pitch: real): (r: (FallState, seq<Effect>))
    ensures Inv(s) ==> Inv(r.0)
  {
    Enforce(s.(lastYaw := yaw, lastPitch := pitch), spawn, player, now, x, y, z, yaw, pitch)
  }

  /** The branch that captures the hold height from the first movement is
      never taken: under the invariant, enforcing leaves exactly the state
      that activation left. */
  lemma CaptureBranchUnreachable(s: FallState, spawn: SpawnConfig, player: PlayerId, now: int,
                                 x: real, y: real, z: real, yaw: real, pitch: real)
    requires Inv(s)
    ensures Enforce(s, spawn, player, now, x, y, z, yaw, pitch).0 == Apply(s, spawn, player, now).0
  {
  }

  /** No movement is corrected before activation: a move that leaves the
      hold inactive makes no call at all. */
  lemma NoTeleportBeforeActivation(s: FallState, spawn: SpawnConfig, player: PlayerId, now: int,
                                   x: real, y: real, z: real, yaw: real, pitch: real)
    requires !Enforce(s, spawn, player, now, x, y, z, yaw, pitch).0.applied
    ensures Enforce(s, spawn, player, now, x, y, z, yaw, pitch).1 == []
  {
  }

  /** Once active, a move changes nothing and makes exactly one corrective
      teleport, to the reported horizontal position and orientation at the hold
      height, when it reports a height more than the tolerance below the hold
      height, and none otherwise. */
  lemma CorrectionWhenActive(s: FallState, spawn: SpawnConfig, player: PlayerId, now: int,
                             x: real, y: real, z: real, yaw: real, pitch: real)
    requires Inv(s) && s.applied
    ensures Enforce(s, spawn, player, now, x, y, z, yaw, pitch) ==
      (s, if y < s.holdY.value - Tolerance
          then [Teleport(s.bound.value, Pose(x, s.holdY.value, z, yaw, pitch))] else [])
  {
    assert Apply(s, spawn, player, now) == (s, []);
    var t := [Teleport(s.bound.value, Pose(x, s.holdY.value, z, yaw, pitch))];
    assert [] + t == t;
  }

  /** The two `onMove` overloads once active: the three-argument one corrects
      with the stored orientation, the five-argument one with the reported
      orientation, which it also stores. */
  lemma MoveOrientation(s: FallState, spawn: SpawnConfig, player: PlayerId, now: int,
                        x: real, y: real, z: real, yaw: real, pitch: real)
    requires Inv(s) && s.applied && y < s.holdY.value - Tolerance
    ensures Move3(s, spawn, player, now, x, y, z) ==
      (s, [Teleport(s.bound.value, Pose(x, s.holdY.value, z, s.lastYaw, s.lastPitch))])
    ensures Move5(s, spawn, player, now, x, y, z, yaw, pitch) ==
      (s.(lastYaw := yaw, lastPitch := pitch),
       [Teleport(s.bound.value, Pose(x, s.holdY.value, z, yaw, pitch))])
  {
    CorrectionWhenActive(s, spawn, player, now, x, y, z, s.lastYaw, s.lastPitch);
    CorrectionWhenActive(s.(lastYaw := yaw, lastPitch := pitch), spawn, player, now, x, y, z, yaw, pitch);
  }

  /** One event a session can receive: a packet, or a movement with or without orientation. */
  datatype Input =
    | Generic(now: int)
    | MoveXYZ(now: int, x: real, y: real, z: real)
    | MoveFull(now: int, x: real, y: real, z: real, yaw: real, pitch: real)

  function Step(s: FallState, spawn: SpawnConfig, player: PlayerId, i: Input): (FallState, seq<Effect>) {
    match i
    case Generic(now) => Apply(s, spawn, player, now)
    case MoveXYZ(now, x, y, z) => Move3(s, spawn, player, now, x, y, z)
    case MoveFull(now, x, y, z, yaw, pitch) => Move5(s, spawn, player, now, x, y, z, yaw, pitch)
  }

  /** How many inputs of a run switch the hold on. */
  function Activations(s: FallState, spawn: SpawnConfig, player: PlayerId, inputs: seq<Input>): nat
    decreases |inputs|
  {
    if inputs == [] then 0
    else
      var next := Step(s, spawn, player, inputs[0]).0;
      (if !s.applied && next.applied then 1 else 0) + Activations(next, spawn, player, inputs[1..])
  }

  /** Every step keeps the hold on once it is on. */
  lemma StepKeepsApplied(s: FallState, spawn: SpawnConfig, player: PlayerId, i: Input)
    requires s.applied
    ensures Step(s, spawn, player, i).0.applied
  {
  }

  /** Over any run of events, the hold is switched on at most once; and never
      again once it is on. */
  lemma {:induction false} ActivatesAtMostOnce(s: FallState, spawn: SpawnConfig, player: PlayerId, inputs: seq<Input>)
    ensures Activations(s, spawn, player, inputs) <= 1
    ensures s.applied ==> Activations(s, spawn, player, inputs) == 0
    decreases |inputs|
  {
    if inputs != [] {
      var next := Step(s, spawn, player, inputs[0]).0;
      if s.applied {
        StepKeepsApplied(s, spawn, player, inputs[0]);
      }
      ActivatesAtMostOnce(next, spawn, player, inputs[1..]);
      if !s.applied && next.applied {
        assert Activations(next, spawn, player, inputs[1..]) == 0;
      }
    }
  }
}
