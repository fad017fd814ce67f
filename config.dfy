/**
 * The configuration objects read from config.yml, as plain values. They carry
 * no behaviour; Java `int`/`long`/`float`/`double` fields become `int` and `real`.
 */
module Config {
  import opened Util

  datatype SpawnConfig = SpawnConfig(x: real, y: real, z: real, yaw: real, pitch: real)

  datatype LimboSettingsConfig = LimboSettingsConfig(
    readTimeout: int,
    shouldRejoin: bool,
    shouldRespawn: bool,
    reducedDebugInfo: bool,
    viewDistance: int,
    simulationDistance: int,
    disableFalling: bool,
    disableFallingDelayMs: int)

  datatype OffsetConfig = OffsetConfig(x: int, y: int, z: int)

  datatype WorldFileConfig = WorldFileConfig(
    enabled: bool, fileType: string, path: string, offset: OffsetConfig, lightLevel: int)

  datatype TitleConfig = TitleConfig(
    enabled: bool, title: string, subtitle: string, fadeIn: int, stay: int, fadeOut: int)

  datatype ActionBarOnJoinConfig = ActionBarOnJoinConfig(enabled: bool, message: string)

  datatype OnJoinConfig = OnJoinConfig(chat: string, title: TitleConfig, actionbar: ActionBarOnJoinConfig)

  datatype BossBarConfig = BossBarConfig(
    enabled: bool, title: string, color: string, style: string, progress: real)

  datatype PeriodicActionBarConfig = PeriodicActionBarConfig(enabled: bool, message: string, interval: int)

  datatype DisplayConfig = DisplayConfig(
    onJoin: OnJoinConfig, bossbar: BossBarConfig, actionbar: PeriodicActionBarConfig)

  datatype AutoReconnectConfig = AutoReconnectConfig(
    enabled: bool, interval: int, server: string, message: string, successMessage: string)

  /** One limbo definition. `fakeServerName` may be null in the YAML. */
  datatype LimboServerConfig = LimboServerConfig(
    enabled: bool,
    dimension: string,
    gamemode: string,
    worldTime: int,
    spawn: SpawnConfig,
    settings: LimboSettingsConfig,
    worldFile: WorldFileConfig,
    commands: seq<string>,
    display: DisplayConfig,
    autoReconnect: AutoReconnectConfig,
    fakeServerName: Option<string>)

  datatype AfkTriggerConfig = AfkTriggerConfig(
    enabled: bool, limbo: string, idleTime: int, checkInterval: int,
    exemptPermission: string, message: string)

  datatype FallbackTriggerConfig = FallbackTriggerConfig(
    enabled: bool, limbo: string, kickPatterns: seq<string>, message: string)

  datatype AutoTriggerConfig = AutoTriggerConfig(afk: AfkTriggerConfig, fallback: FallbackTriggerConfig)

  /** `aliases` is a `LinkedHashMap`: its entries keep insertion order. */
  datatype VelocityBridgeConfig = VelocityBridgeConfig(
    enabled: bool,
    registerAliases: bool,
    overrideExisting: bool,
    host: string,
    startPort: int,
    aliases: seq<(string, string)>)

  datatype Settings = Settings(
    debug: bool,
    autoTriggers: AutoTriggerConfig,
    limbos: map<string, LimboServerConfig>,
    velocityBridge: VelocityBridgeConfig)
}
