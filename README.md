# SimpleLimbo, modelled in Dafny

SimpleLimbo is a Velocity proxy plugin that hosts virtual "limbo" servers
through LimboAPI. Players can be parked in a limbo instead of being sent to
a real backend:
- when they join through an alias server name;
- when a backend kicks them for a matching reason;
- when they go idle for too long;
- when an administrator sends them there.

Inside a limbo, a session handler does several jobs:
- it shows a join display: chat line, title, action bar, boss bar and a repeating action bar;
- it whitelists chat commands;
- it can hold the player at spawn height once a delay has passed;
- it can show a fake server name in the tab list;
- it can count down and reconnect the player to a real server.

This project models the plugin's core:
- the limbo registry and instances;
- the session handler;
- the triggers;
- the Velocity alias bridge;
- the event listener;
- the admin command;
- the display manager;
- the message helpers.

Each core file is modelled in the form the source uses:
- **Classes.** The objects whose fields change (`LimboManager`, `LimboInstance`, `SimpleLimboHandler`, `TriggerManager`, `VelocityAliasBridge`, `DisplayManager`, `PlayerListener`, `SimpleLimboCommand`) are Dafny classes. Their methods modify those fields.
- **Functions.** Decision logic is written as pure functions, and the lemmas are proved about those functions:
  - chat filtering;
  - alias resolution;
  - the anti-fall state machine;
  - the countdown;
  - parsing;
  - tab completion.
- **Calls to the outside world.** Calls to Velocity, LimboAPI, the scheduler and the tab-list injector are not executed. Each one is appended as an `Effect` value to the log of a `Platform.Proxy` object. The same object also holds the proxy's server registry, keyed by lower-cased name. Each state-changing method states the exact effects it appends. Most of them use `Appended`, which also says that the registry does not change. The methods that do change the registry state its new contents instead: `Platform.Proxy.Register`, `Platform.Proxy.Unregister`, `Bridge.VelocityAliasBridge.RegisterEntry`, `RegisterAliases` and `UnregisterAliases`.

Modules:
- `Util`, `Text`: options, `Max`, Java string operations (case mapping, `trim`, `isBlank`, first regex token, decimal printing);
- `MessageUtil`: `component` and `replace`;
- `Config`: the configuration records;
- `Platform`: players, servers, tasks, the `Effect` log, the registry;
- `LimboParsing`: dimension, game mode, world-file type and read-timeout parsing;
- `Limbo`: `LimboInstance` and `LimboManager`;
- `ChatFilter`, `AntiFall`, `Countdown`, `Handler`: the session handler and its pure parts;
- `Display`: `DisplayManager`;
- `Triggers`: `TriggerManager` and its pure parts;
- `Bridge`: `VelocityAliasBridge`;
- `Listener`: `PlayerListener`;
- `Command`: `SimpleLimboCommand`.

Paths below are relative to the repository root, under `src/main/java/com/itsazni/simpleLimbo/`.

## Model

| member | source | states |
|---|---|---|
| MessageUtil.ComponentOf | src/main/java/com/itsazni/simpleLimbo/util/MessageUtil.java:13-18 | null or empty text gives the empty component; any other text is deserialised as legacy text with that exact source |
| MessageUtil.Replace | src/main/java/com/itsazni/simpleLimbo/util/MessageUtil.java:20-25 | null gives ""; a message without the key is returned unchanged |
| MessageUtil.Pieces | src/main/java/com/itsazni/simpleLimbo/util/MessageUtil.java:24 | splitting on the key yields at least one piece, and the first piece is a prefix of the message |
| MessageUtil.InsertEverywhere | src/main/java/com/itsazni/simpleLimbo/util/MessageUtil.java:24 | replacing the empty key gives length \|s\| + (\|s\|+1)·\|value\| |
| MessageUtil.InsertEverywhereSplit | src/main/java/com/itsazni/simpleLimbo/util/MessageUtil.java:24 | cutting the message around one character cuts the result there: the two sides are replaced separately and meet at that character |
| MessageUtil.InsertEverywhereEndsWithValue | src/main/java/com/itsazni/simpleLimbo/util/MessageUtil.java:24 | the result always ends with a copy of the value |
| MessageUtil.PlacementAt | src/main/java/com/itsazni/simpleLimbo/util/MessageUtil.java:24 | with k = \|value\|, the i-th character sits at i·(k+1)+k and the k places before it hold the value |
| MessageUtil.InsertEverywhereChars | src/main/java/com/itsazni/simpleLimbo/util/MessageUtil.java:24 | every character of the message sits at i·(k+1)+k in the result |
| MessageUtil.InsertEverywhereBlocks | src/main/java/com/itsazni/simpleLimbo/util/MessageUtil.java:24 | a copy of the value fills the k places before each character and the last k places, so the value is before every character and at the end |
| MessageUtil.ReplaceUnchangedWithoutKey | src/main/java/com/itsazni/simpleLimbo/util/MessageUtil.java:24 | replacing a key that does not occur leaves the text unchanged |
| MessageUtil.ReplaceAll | src/main/java/com/itsazni/simpleLimbo/util/MessageUtil.java:24 | with an empty key the result is `InsertEverywhere`, whose placement the lemmas above give; otherwise left-to-right non-overlapping replacement equals cutting the message at the key and joining the pieces with the value |
| MessageUtil.PiecesJoinBack | src/main/java/com/itsazni/simpleLimbo/util/MessageUtil.java:24 | joining the pieces with the key itself rebuilds the original text (the split/join round trip) |
| MessageUtil.ReplaceByKeyIsIdentity | src/main/java/com/itsazni/simpleLimbo/util/MessageUtil.java:24 | replacing a key by itself is the identity |
| MessageUtil.PiecesAreKeyFree | src/main/java/com/itsazni/simpleLimbo/util/MessageUtil.java:24 | no piece contains the key, so every occurrence is replaced |
| MessageUtil.JoinPrepend | src/main/java/com/itsazni/simpleLimbo/util/MessageUtil.java:24 | text put before the first piece ends up before the joined result |
| Text.TrimLeft | src/main/java/com/itsazni/simpleLimbo/limbo/handler/SimpleLimboHandler.java:121 | `String.trim` from the left: drops exactly the leading characters at or below U+0020 |
| Text.TrimRight | src/main/java/com/itsazni/simpleLimbo/limbo/handler/SimpleLimboHandler.java:121 | `String.trim` from the right: drops exactly the trailing characters at or below U+0020 |
| Text.Trim | src/main/java/com/itsazni/simpleLimbo/limbo/handler/SimpleLimboHandler.java:121 | the trimmed text is empty or starts and ends with a non-trimmable character |
| Text.FirstToken | src/main/java/com/itsazni/simpleLimbo/limbo/handler/SimpleLimboHandler.java:126 | `split("\\s+")[0]`: the longest prefix without regex whitespace |
| Text.NatToString | src/main/java/com/itsazni/simpleLimbo/display/DisplayManager.java:92 | `String.valueOf` of a natural number is a non-empty string of digits |
| Text.NatToStringRoundTrip | src/main/java/com/itsazni/simpleLimbo/display/DisplayManager.java:92 | the printed digits read back as the number, with no leading zero except for 0 |
| Text.DigitChar | src/main/java/com/itsazni/simpleLimbo/display/DisplayManager.java:92 | each digit prints as the matching character '0'..'9' |
| Text.EqualsIgnoreCaseUpper | src/main/java/com/itsazni/simpleLimbo/bridge/VelocityAliasBridge.java:67 | names equal ignoring case have the same upper-case form |
| Text.Lower | src/main/java/com/itsazni/simpleLimbo/command/SimpleLimboCommand.java:136-138 | lower-casing maps character by character, so the length stays |
| Text.Upper | src/main/java/com/itsazni/simpleLimbo/display/DisplayManager.java:105 | upper-casing maps character by character, so the length stays |
| Text.LowerSpec | src/main/java/com/itsazni/simpleLimbo/command/SimpleLimboCommand.java:37 | each upper-case letter becomes its lower-case letter, every other character stays, and no upper-case letter is left |
| Text.UpperSpec | src/main/java/com/itsazni/simpleLimbo/limbo/LimboInstance.java:129-146 | each lower-case letter becomes its upper-case letter, every other character stays, and no lower-case letter is left |
| Text.LowerOfUpper | src/main/java/com/itsazni/simpleLimbo/bridge/VelocityAliasBridge.java:79 | lower-casing an upper-cased name is lower-casing the name |
| Text.LowerIdempotent | src/main/java/com/itsazni/simpleLimbo/bridge/VelocityAliasBridge.java:49 | lower-casing twice is lower-casing once, so recorded aliases stay lower-cased |
| Platform.Proxy.constructor | src/main/java/com/itsazni/simpleLimbo/bridge/VelocityAliasBridge.java:35-49 | a proxy starts with an empty call log and the given registry |
| Platform.Proxy.GetServer | src/main/java/com/itsazni/simpleLimbo/bridge/VelocityAliasBridge.java:35 | `getServer` finds a server exactly when its lower-cased name is registered |
| Platform.Proxy.Register | src/main/java/com/itsazni/simpleLimbo/bridge/VelocityAliasBridge.java:47-48 | registering adds the server under its lower-cased name and logs exactly that registration |
| Platform.Proxy.Unregister | src/main/java/com/itsazni/simpleLimbo/bridge/VelocityAliasBridge.java:37 | unregistering removes exactly that name and logs exactly that call |
| LimboParsing.ParseDimension | src/main/java/com/itsazni/simpleLimbo/limbo/LimboInstance.java:128-134 | NETHER iff the upper-cased text is NETHER or THE_NETHER, THE_END iff END or THE_END, otherwise OVERWORLD |
| LimboParsing.ParseGameMode | src/main/java/com/itsazni/simpleLimbo/limbo/LimboInstance.java:136-143 | SURVIVAL, CREATIVE and SPECTATOR each iff named, otherwise ADVENTURE |
| LimboParsing.ParseWorldFileType | src/main/java/com/itsazni/simpleLimbo/limbo/LimboInstance.java:145-151 | WORLDEDIT_SCHEM iff WORLDEDIT_SCHEM or SCHEM, STRUCTURE iff STRUCTURE, otherwise SCHEMATIC |
| LimboParsing.ParsingIgnoresCase | src/main/java/com/itsazni/simpleLimbo/limbo/LimboInstance.java:128-151 | texts equal ignoring case parse alike, for all three parsers |
| LimboParsing.NamesRoundTrip | src/main/java/com/itsazni/simpleLimbo/limbo/LimboInstance.java:128-151 | the name of every dimension, game mode and world-file type, in any case, parses back to itself |
| LimboParsing.SanitizeReadTimeout | src/main/java/com/itsazni/simpleLimbo/limbo/LimboInstance.java:153-165 | the result always lies in (0, Integer.MAX_VALUE]: a valid value is kept, a non-positive one becomes the default, and a too-large one is capped |
| Limbo.LoadWorldFile | src/main/java/com/itsazni/simpleLimbo/limbo/LimboInstance.java:81-108 | a world is loaded iff the file is present, using the parsed file type; a missing or unreadable file leaves the limbo without a world |
| Limbo.Metas | src/main/java/com/itsazni/simpleLimbo/limbo/LimboInstance.java:74-76 | one single-name command meta per configured command, in order |
| Limbo.Built | src/main/java/com/itsazni/simpleLimbo/limbo/LimboInstance.java:38-79 | the built limbo has the instance's name, a world exactly when one is configured and present, a sane read timeout, and one meta per command |
| Limbo.LimboInstance.constructor | src/main/java/com/itsazni/simpleLimbo/limbo/LimboInstance.java:31-36 | a new instance has its name and configuration and no limbo yet |
| Limbo.LimboInstance.Create | src/main/java/com/itsazni/simpleLimbo/limbo/LimboInstance.java:38-79 | `create` sets the limbo to the one built from the configuration |
| Limbo.LimboInstance.SpawnPlayer | src/main/java/com/itsazni/simpleLimbo/limbo/LimboInstance.java:110-126 | a created limbo spawns the player; an uncreated one does nothing |
| Limbo.LimboManager.constructor | src/main/java/com/itsazni/simpleLimbo/limbo/LimboManager.java:33-59 | the manager starts with no limbos and no tracked players |
| Limbo.LimboManager.LoadAll | src/main/java/com/itsazni/simpleLimbo/limbo/LimboManager.java:33-59 | the loaded names are exactly the enabled configurations whose creation succeeded; each is created from its own configuration; player tracking is untouched |
| Limbo.LimboManager.Reload | src/main/java/com/itsazni/simpleLimbo/limbo/LimboManager.java:61-69 | as `LoadAll`, and player-to-limbo tracking is cleared |
| Limbo.LimboManager.GetLimbo | src/main/java/com/itsazni/simpleLimbo/limbo/LimboManager.java:71-73 | a limbo is found iff its exact name is loaded, and it is that instance |
| Limbo.LimboManager.GetLimboNames | src/main/java/com/itsazni/simpleLimbo/limbo/LimboManager.java:75-77 | a name is listed iff `GetLimbo` finds it |
| Limbo.LimboManager.SendPlayerToLimbo | src/main/java/com/itsazni/simpleLimbo/limbo/LimboManager.java:83-99 | the send succeeds iff the limbo is loaded; on success only that player's entry changes, to that limbo, after one spawn; on failure nothing changes; repeating a send gives the same tracking |
| Limbo.LimboManager.OnPlayerLeaveLimbo | src/main/java/com/itsazni/simpleLimbo/limbo/LimboManager.java:101-104 | the player is removed from both tables and nothing else changes, so a second call changes nothing |
| Limbo.LimboManager.RegisterLimboPlayer | src/main/java/com/itsazni/simpleLimbo/limbo/LimboManager.java:110-112 | only the player's LimboPlayer entry is set |
| Limbo.LimboManager.GetLimboPlayer | src/main/java/com/itsazni/simpleLimbo/limbo/LimboManager.java:117-119 | present iff registered, and it is the registered value |
| Limbo.LimboManager.GetPlayerLimbo | src/main/java/com/itsazni/simpleLimbo/limbo/LimboManager.java:121-127 | present iff the player is in a limbo, and the player is one of that limbo's occupants |
| Limbo.LimboManager.IsPlayerInLimbo | src/main/java/com/itsazni/simpleLimbo/limbo/LimboManager.java:125-127 | a player is in limbo iff they are an occupant of some limbo |
| Limbo.LimboManager.GetPlayerCount | src/main/java/com/itsazni/simpleLimbo/limbo/LimboManager.java:129-133 | the number of tracked players whose entry is the named limbo; at most the total, and zero iff nobody is in that limbo |
| Limbo.LimboManager.GetTotalPlayersInLimbos | src/main/java/com/itsazni/simpleLimbo/limbo/LimboManager.java:135-137 | the total is the number of tracked players |
| Limbo.SumCountsIsOccupants | src/main/java/com/itsazni/simpleLimbo/limbo/LimboManager.java:129-137 | the per-limbo counts of distinct names add up to the occupants of those limbos |
| Limbo.OccupantsOfDisjointUnion | src/main/java/com/itsazni/simpleLimbo/limbo/LimboManager.java:129-137 | the players of two disjoint groups of limbos are counted once each |
| Limbo.LimboManager.CountsAddUpToTotal | src/main/java/com/itsazni/simpleLimbo/limbo/LimboManager.java:129-137 | the `getPlayerCount` values of distinct limbo names covering every tracked player add up to `getTotalPlayersInLimbos` |
| Limbo.SubsetCardinality | src/main/java/com/itsazni/simpleLimbo/limbo/LimboManager.java:129-137 | a limbo's occupants are no more than all tracked players |
| Display.NormalizeProgress | src/main/java/com/itsazni/simpleLimbo/display/DisplayManager.java:96-101 | the result is always in [0, 1]: negatives give 0, values above 1 give 1, and in-range values are kept |
| Display.NormalizeProgressIdempotent | src/main/java/com/itsazni/simpleLimbo/display/DisplayManager.java:96-101 | clamping twice is clamping once |
| Display.ParseColor | src/main/java/com/itsazni/simpleLimbo/display/DisplayManager.java:103-109 | the colour named by the upper-cased text; WHITE when no colour has that name |
| Display.ParseOverlay | src/main/java/com/itsazni/simpleLimbo/display/DisplayManager.java:111-117 | the overlay named by the upper-cased text; PROGRESS when no overlay has that name |
| Display.BossBarNamesRoundTrip | src/main/java/com/itsazni/simpleLimbo/display/DisplayManager.java:103-117 | every colour and overlay name, in any case, parses back to itself |
| Display.DefaultStyleIsProgress | src/main/java/com/itsazni/simpleLimbo/display/DisplayManager.java:111-117 | the style "SOLID" is no overlay name and gives PROGRESS |
| Display.TicksToMillis | src/main/java/com/itsazni/simpleLimbo/display/DisplayManager.java:37-41 | title times are ticks times 50 ms |
| Display.ActionBarPeriodMillis | src/main/java/com/itsazni/simpleLimbo/display/DisplayManager.java:69 | the repeat period is max(1, interval) ticks: the configured interval when it is positive, one tick otherwise |
| Display.FormatActionBar | src/main/java/com/itsazni/simpleLimbo/display/DisplayManager.java:91-94 | a null template gives the empty component; a template without `{countdown}` is shown as it is |
| Display.ClearEffects | src/main/java/com/itsazni/simpleLimbo/display/LimboDisplay.java:19-26 | one cancellation for a task and one hide for a boss bar; the task is cancelled first and the boss bar hidden last |
| Display.JoinEffects | src/main/java/com/itsazni/simpleLimbo/display/DisplayManager.java:27-77 | at most five calls, all of the join kinds, aimed at the joining player; a repeating task starts at once with a period of at least one tick |
| Display.JoinChatCall | src/main/java/com/itsazni/simpleLimbo/display/DisplayManager.java:31-33 | the chat line is sent to the player iff it is non-empty, and it is the only message sent |
| Display.JoinTitleCall | src/main/java/com/itsazni/simpleLimbo/display/DisplayManager.java:35-47 | a title is shown iff enabled, with the configured texts and its fade-in, stay and fade-out ticks converted to milliseconds |
| Display.JoinActionBarCall | src/main/java/com/itsazni/simpleLimbo/display/DisplayManager.java:49-52 | the one-off action bar is sent iff enabled with a non-empty message, and it is the only action bar sent at once |
| Display.JoinDisplayIsUndoneByClear | src/main/java/com/itsazni/simpleLimbo/display/DisplayManager.java:27-84 | a boss bar is shown iff enabled, and a repeating action bar is scheduled iff enabled with a message; each is exactly what clearing the remembered display hides or cancels |
| Display.JoinBossBarOnly | src/main/java/com/itsazni/simpleLimbo/display/DisplayManager.java:54-64 | the only boss bar the join calls show is the configured one, and only when enabled |
| Display.JoinPeriodicOnly | src/main/java/com/itsazni/simpleLimbo/display/DisplayManager.java:66-74 | the only task the join calls schedule is the periodic action bar, only when enabled with a message, starting at once and repeating every `ActionBarPeriodMillis(interval)` |
| Display.DisplayManager.constructor | src/main/java/com/itsazni/simpleLimbo/display/DisplayManager.java:27-77 | no active displays at first |
| Display.DisplayManager.ShowJoinDisplay | src/main/java/com/itsazni/simpleLimbo/display/DisplayManager.java:27-77 | makes the join calls in order (chat, title, action bar, boss bar, repeating task) and remembers the display for the player only |
| Display.DisplayManager.ClearDisplay | src/main/java/com/itsazni/simpleLimbo/display/DisplayManager.java:79-84 | forgets only this player's display and takes down exactly what it held; without a display, nothing happens |
| Display.DisplayManager.ClearAll | src/main/java/com/itsazni/simpleLimbo/display/DisplayManager.java:86-89 | takes down every remembered display once, in iteration order, and forgets them all |
| ChatFilter.CommandLine | src/main/java/com/itsazni/simpleLimbo/limbo/handler/SimpleLimboHandler.java:121 | the text after the slash, trimmed, with no trimmable character at either end |
| ChatFilter.CommandRoot | src/main/java/com/itsazni/simpleLimbo/limbo/handler/SimpleLimboHandler.java:126 | the lower-cased first word of the command line, ending at regex whitespace |
| ChatFilter.AnyMatches | src/main/java/com/itsazni/simpleLimbo/limbo/handler/SimpleLimboHandler.java:136-137 | true iff some allowed command, lower-cased, equals the root |
| ChatFilter.Decide | src/main/java/com/itsazni/simpleLimbo/limbo/handler/SimpleLimboHandler.java:113-145 | non-commands are ignored; with no allowed commands a command is refused as disabled; with some allowed, a command whose root is not among them is refused as not available; a command is dispatched iff its root is allowed, and it is dispatched as the trimmed line |
| ChatFilter.WhitelistIgnoresCase | src/main/java/com/itsazni/simpleLimbo/limbo/handler/SimpleLimboHandler.java:126-137 | whitelists that agree entry by entry ignoring case decide every chat line alike |
| ChatFilter.SlashCommand | src/main/java/com/itsazni/simpleLimbo/limbo/handler/SimpleLimboHandler.java:113-124 | "/" followed by untrimmable-ended text is a command, and that text is its command line |
| ChatFilter.DispatchIffRootAllowed | src/main/java/com/itsazni/simpleLimbo/limbo/handler/SimpleLimboHandler.java:126-145 | a command is dispatched iff an allowed entry equals its first word ignoring case |
| ChatFilter.ExampleNoCommands | src/main/java/com/itsazni/simpleLimbo/limbo/handler/SimpleLimboHandler.java:130-133 | "/help me" with no allowed commands is refused as disabled |
| ChatFilter.ExampleHelpWithArgument | src/main/java/com/itsazni/simpleLimbo/limbo/handler/SimpleLimboHandler.java:126-145 | "/help me" with "help" allowed dispatches "help me" |
| ChatFilter.ExampleUpperCaseRoot | src/main/java/com/itsazni/simpleLimbo/limbo/handler/SimpleLimboHandler.java:126-145 | "/HELP" with "help" allowed dispatches "HELP" |
| ChatFilter.ExampleOtherRefused | src/main/java/com/itsazni/simpleLimbo/limbo/handler/SimpleLimboHandler.java:136-142 | "/other" is refused as not available when only "help" is allowed |
| ChatFilter.ExampleChatIgnored | src/main/java/com/itsazni/simpleLimbo/limbo/handler/SimpleLimboHandler.java:117-119 | chat without a leading slash is ignored |
| ChatFilter.CompletionMessage | src/main/java/com/itsazni/simpleLimbo/limbo/handler/SimpleLimboHandler.java:146-163 | no message on success; a null-pointer failure (or cause) gives the auth-plugin hint; any other failure gives "Command failed: " followed by its message, or "null" when it has none |
| AntiFall.OnSpawn | src/main/java/com/itsazni/simpleLimbo/limbo/handler/SimpleLimboHandler.java:46-69 | spawning binds the player, records the spawn time and the spawn yaw and pitch, and leaves the hold off; when falling is disabled, the delay is the configured one floored at zero and a fallback timer is armed for delay + 8 s; otherwise the delay is zero, falling is enabled and the timer field is unchanged |
| AntiFall.Apply | src/main/java/com/itsazni/simpleLimbo/limbo/handler/SimpleLimboHandler.java:219-250 | nothing happens unless requested, not yet applied, bound, and the delay has passed; activation holds at spawn height, teleports to the spawn pose first, and cancels a pending fallback timer |
| AntiFall.Enforce | src/main/java/com/itsazni/simpleLimbo/limbo/handler/SimpleLimboHandler.java:252-266 | enforcing keeps the anti-fall invariant (applied implies requested, bound and a hold height) |
| AntiFall.Move3 | src/main/java/com/itsazni/simpleLimbo/limbo/handler/SimpleLimboHandler.java:97-100 | the three-argument move keeps the invariant |
| AntiFall.Move5 | src/main/java/com/itsazni/simpleLimbo/limbo/handler/SimpleLimboHandler.java:102-107 | the five-argument move keeps the invariant |
| AntiFall.CaptureBranchUnreachable | src/main/java/com/itsazni/simpleLimbo/limbo/handler/SimpleLimboHandler.java:258-261 | under the invariant, the branch that captures the hold height from a move is never taken |
| AntiFall.NoTeleportBeforeActivation | src/main/java/com/itsazni/simpleLimbo/limbo/handler/SimpleLimboHandler.java:252-256 | a move that leaves the hold inactive makes no call |
| AntiFall.CorrectionWhenActive | src/main/java/com/itsazni/simpleLimbo/limbo/handler/SimpleLimboHandler.java:263-265 | once active, a move changes no state, and teleports back to the hold height exactly when it is more than 0.02 below it |
| AntiFall.MoveOrientation | src/main/java/com/itsazni/simpleLimbo/limbo/handler/SimpleLimboHandler.java:97-107 | the short move corrects with the stored orientation; the long one stores and uses the reported orientation |
| AntiFall.StepKeepsApplied | src/main/java/com/itsazni/simpleLimbo/limbo/handler/SimpleLimboHandler.java:219-266 | no event turns an active hold off |
| AntiFall.ActivatesAtMostOnce | src/main/java/com/itsazni/simpleLimbo/limbo/handler/SimpleLimboHandler.java:219-250 | over any run of events the hold is switched on at most once, and never again once it is on |
| Countdown.Interval | src/main/java/com/itsazni/simpleLimbo/limbo/handler/SimpleLimboHandler.java:191-192 | the interval is max(1, configured) seconds: the configured value when positive, one second otherwise |
| Countdown.Tick | src/main/java/com/itsazni/simpleLimbo/limbo/handler/SimpleLimboHandler.java:194-216 | a tick attempts the connection iff the countdown is not positive, and then resets it to the interval; otherwise it shows the seconds left and counts down by one, never below zero |
| Countdown.TickEffects | src/main/java/com/itsazni/simpleLimbo/limbo/handler/SimpleLimboHandler.java:194-216 | at most one call: the connection request to the target iff there is one; otherwise, with a template, an action bar carrying the template with `{countdown}` replaced by the seconds left, unless that text is empty; nothing without a template |
| Countdown.TickStaysInRange | src/main/java/com/itsazni/simpleLimbo/limbo/handler/SimpleLimboHandler.java:194-216 | a tick keeps the countdown in [0, interval] |
| Countdown.ConnectCompleted | src/main/java/com/itsazni/simpleLimbo/limbo/handler/SimpleLimboHandler.java:198-205 | only a successful connection sends the success message, and then disconnects the bound limbo player to the target; with no limbo player bound, only the message is sent |
| Countdown.Descending | src/main/java/com/itsazni/simpleLimbo/limbo/handler/SimpleLimboHandler.java:211-215 | the countdown shows k, k-1, ..., 1 in turn |
| Countdown.CycleFrom | src/main/java/com/itsazni/simpleLimbo/limbo/handler/SimpleLimboHandler.java:194-216 | from c seconds left, the next c+1 ticks show c down to 1, then attempt the connection and reset to the interval |
| Handler.FilterChat | src/main/java/com/itsazni/simpleLimbo/limbo/handler/SimpleLimboHandler.java:113-145 | the checks of `onChat`, in order, reach exactly the decision `ChatFilter.Decide` specifies |
| Handler.ChatEffects | src/main/java/com/itsazni/simpleLimbo/limbo/handler/SimpleLimboHandler.java:109-164 | at most one call; none iff the chat is ignored; a refusal sends exactly its message to the player |
| Handler.FakeServerEffects | src/main/java/com/itsazni/simpleLimbo/limbo/handler/SimpleLimboHandler.java:273-298 | the fake server is injected iff a non-blank name is configured, the injector is available and the server is registered; it uses the registered server's name |
| Handler.ReconnectStartEffects | src/main/java/com/itsazni/simpleLimbo/limbo/handler/SimpleLimboHandler.java:185-217 | a call is made iff auto-reconnect is enabled, and it is one repeating task with a one-second delay and period |
| Handler.DisconnectEffects | src/main/java/com/itsazni/simpleLimbo/limbo/handler/SimpleLimboHandler.java:166-183 | one call per pending item plus one, the last always clearing the fake server |
| Handler.DisconnectCalls | src/main/java/com/itsazni/simpleLimbo/limbo/handler/SimpleLimboHandler.java:166-183 | the countdown is cancelled iff it was created, the fallback timer iff pending, the completions withdrawn iff there are some, and no other call is made |
| Handler.DisconnectUndoesSpawn | src/main/java/com/itsazni/simpleLimbo/limbo/handler/SimpleLimboHandler.java:45-183 | each timer scheduled, completion added or fake server injected on spawn is cancelled, removed or cleared on disconnect |
| Handler.SpawnCallsUndoable | src/main/java/com/itsazni/simpleLimbo/limbo/handler/SimpleLimboHandler.java:45-85 | every call of `onSpawn` schedules the fallback timer only while it is pending, the countdown only when enabled, and adds only the configured completions |
| Handler.MiddleCallsUndoable | src/main/java/com/itsazni/simpleLimbo/limbo/handler/SimpleLimboHandler.java:71-75 | the chat completions and the join display add only the configured completions and schedule neither timer |
| Handler.TailCallsUndoable | src/main/java/com/itsazni/simpleLimbo/limbo/handler/SimpleLimboHandler.java:82-84 | the fake server and the countdown schedule the countdown only when it is enabled |
| Handler.SimpleLimboHandler.constructor | src/main/java/com/itsazni/simpleLimbo/limbo/handler/SimpleLimboHandler.java:38-43 | a new handler starts with every anti-fall field at its default |
| Handler.SimpleLimboHandler.OnSpawn | src/main/java/com/itsazni/simpleLimbo/limbo/handler/SimpleLimboHandler.java:45-85 | the anti-fall state and calls are those of `AntiFall.OnSpawn`, followed by completions, the join display, the fake server and the reconnect start; display, activity and limbo-player tables change only for this player |
| Handler.SimpleLimboHandler.ArmAntiFall | src/main/java/com/itsazni/simpleLimbo/limbo/handler/SimpleLimboHandler.java:46-69 | the fields become `AntiFall.OnSpawn`'s state, and exactly its calls are made |
| Handler.SimpleLimboHandler.AnnounceSpawn | src/main/java/com/itsazni/simpleLimbo/limbo/handler/SimpleLimboHandler.java:71-79 | adds completions when commands are allowed, shows the join display, marks activity and registers the limbo player |
| Handler.SimpleLimboHandler.FinishSpawn | src/main/java/com/itsazni/simpleLimbo/limbo/handler/SimpleLimboHandler.java:82-84 | injects the fake server if configured and starts auto-reconnect if enabled |
| Handler.SimpleLimboHandler.InjectFakeServerIfConfigured | src/main/java/com/itsazni/simpleLimbo/limbo/handler/SimpleLimboHandler.java:273-298 | makes exactly `FakeServerEffects` |
| Handler.SimpleLimboHandler.StartAutoReconnectIfEnabled | src/main/java/com/itsazni/simpleLimbo/limbo/handler/SimpleLimboHandler.java:185-217 | when enabled, the countdown starts at the interval and the repeating task is scheduled; otherwise nothing |
| Handler.SimpleLimboHandler.OnConfig | src/main/java/com/itsazni/simpleLimbo/limbo/handler/SimpleLimboHandler.java:87-90 | only the bound limbo player changes |
| Handler.SimpleLimboHandler.ApplyDisableFalling | src/main/java/com/itsazni/simpleLimbo/limbo/handler/SimpleLimboHandler.java:219-250 | state and calls are those of `AntiFall.Apply` |
| Handler.SimpleLimboHandler.OnGeneric | src/main/java/com/itsazni/simpleLimbo/limbo/handler/SimpleLimboHandler.java:92-95 | a packet triggers `AntiFall.Apply` |
| Handler.SimpleLimboHandler.EnforceAntiFall | src/main/java/com/itsazni/simpleLimbo/limbo/handler/SimpleLimboHandler.java:252-266 | state and calls are those of `AntiFall.Enforce` |
| Handler.SimpleLimboHandler.OnMove3 | src/main/java/com/itsazni/simpleLimbo/limbo/handler/SimpleLimboHandler.java:97-100 | state and calls are those of `AntiFall.Move3` |
| Handler.SimpleLimboHandler.OnMove5 | src/main/java/com/itsazni/simpleLimbo/limbo/handler/SimpleLimboHandler.java:102-107 | state and calls are those of `AntiFall.Move5` |
| Handler.SimpleLimboHandler.OnChat | src/main/java/com/itsazni/simpleLimbo/limbo/handler/SimpleLimboHandler.java:109-164 | marks activity, then makes exactly the calls `ChatFilter.Decide` calls for |
| Handler.SimpleLimboHandler.CommandCompleted | src/main/java/com/itsazni/simpleLimbo/limbo/handler/SimpleLimboHandler.java:146-163 | messages the player exactly when `CompletionMessage` gives a message |
| Handler.SimpleLimboHandler.ReconnectTick | src/main/java/com/itsazni/simpleLimbo/limbo/handler/SimpleLimboHandler.java:194-216 | one tick of the countdown, which stays in [0, interval] |
| Handler.SimpleLimboHandler.ReconnectCompleted | src/main/java/com/itsazni/simpleLimbo/limbo/handler/SimpleLimboHandler.java:198-205 | makes exactly `Countdown.ConnectCompleted` |
| Handler.SimpleLimboHandler.OnDisconnect | src/main/java/com/itsazni/simpleLimbo/limbo/handler/SimpleLimboHandler.java:166-183 | makes `DisconnectEffects`, clears the display and drops the player from the manager's tables |
| Triggers.FirstMatch | src/main/java/com/itsazni/simpleLimbo/trigger/TriggerManager.java:59-66 | true iff some pattern matches and every earlier one compiles and does not match; false iff none matches |
| Triggers.ShouldFallback | src/main/java/com/itsazni/simpleLimbo/trigger/TriggerManager.java:54-67 | false when the trigger is off; otherwise the pattern search over the reason, with null read as "" |
| Triggers.FallbackIsAnyMatch | src/main/java/com/itsazni/simpleLimbo/trigger/TriggerManager.java:54-67 | when every pattern compiles, the answer is whether any pattern matches |
| Triggers.FirstMatchedIndex | src/main/java/com/itsazni/simpleLimbo/trigger/TriggerManager.java:59-66 | when some pattern matches, there is a first matching pattern |
| Triggers.IdleMillis | src/main/java/com/itsazni/simpleLimbo/trigger/TriggerManager.java:76 | the threshold is max(1, idleTime) seconds: the configured value when positive, one second otherwise |
| Triggers.UnrecordedIsNotIdle | src/main/java/com/itsazni/simpleLimbo/trigger/TriggerManager.java:86-87 | a player with no recorded activity is not idle on that scan |
| Triggers.ScanOne | src/main/java/com/itsazni/simpleLimbo/trigger/TriggerManager.java:78-93 | a player not due is untouched; a due player has their activity reset to now and, when the AFK limbo is loaded, is tracked in it, spawned there and sent the AFK message if it is non-empty; otherwise nothing else changes |
| Triggers.Scan | src/main/java/com/itsazni/simpleLimbo/trigger/TriggerManager.java:78-94 | calls are only appended, no timestamp is dropped, existing limbo entries are kept, and every new entry is the loaded AFK limbo |
| Triggers.ScanOneLocal | src/main/java/com/itsazni/simpleLimbo/trigger/TriggerManager.java:78-93 | scanning one player touches no other player's entries |
| Triggers.ScanResetsTheIdle | src/main/java/com/itsazni/simpleLimbo/trigger/TriggerManager.java:69-95 | after a scan, every player that was due has activity `now` |
| Triggers.ScanKeepsTheOthers | src/main/java/com/itsazni/simpleLimbo/trigger/TriggerManager.java:69-95 | after a scan, every player that was not due keeps its timestamp, or its absence, and its limbo entry |
| Triggers.StopEffects | src/main/java/com/itsazni/simpleLimbo/trigger/TriggerManager.java:39-44 | the scan task is cancelled exactly when one is scheduled |
| Triggers.ScanPeriodMillis | src/main/java/com/itsazni/simpleLimbo/trigger/TriggerManager.java:32 | the period is max(1, checkInterval) seconds: the configured value when positive, one second otherwise |
| Triggers.TriggerManager.constructor | src/main/java/com/itsazni/simpleLimbo/trigger/TriggerManager.java:21-23 | no activity and no scan at first |
| Triggers.TriggerManager.Stop | src/main/java/com/itsazni/simpleLimbo/trigger/TriggerManager.java:39-44 | afterwards there is no scan, so stopping twice cancels once |
| Triggers.TriggerManager.Start | src/main/java/com/itsazni/simpleLimbo/trigger/TriggerManager.java:25-37 | stops first; then schedules the scan iff the AFK trigger is on |
| Triggers.TriggerManager.MarkActivity | src/main/java/com/itsazni/simpleLimbo/trigger/TriggerManager.java:46-48 | only the player's timestamp changes, to now |
| Triggers.TriggerManager.RemovePlayer | src/main/java/com/itsazni/simpleLimbo/trigger/TriggerManager.java:50-52 | only the player's timestamp is dropped |
| Triggers.TriggerManager.CheckAfkPlayers | src/main/java/com/itsazni/simpleLimbo/trigger/TriggerManager.java:69-95 | nothing when off; otherwise the limbo tracking and timestamps become those of `Scan` over the online players |
| Triggers.TriggerManager.CheckOne | src/main/java/com/itsazni/simpleLimbo/trigger/TriggerManager.java:78-93 | one player: the limbo tracking, timestamps and calls become exactly those of `ScanOne` |
| Bridge.FirstAlias | src/main/java/com/itsazni/simpleLimbo/bridge/VelocityAliasBridge.java:66-72 | the first alias entry equal ignoring case gives its limbo; none iff no entry matches |
| Bridge.ResolveLimboByAlias | src/main/java/com/itsazni/simpleLimbo/bridge/VelocityAliasBridge.java:61-74 | nothing when the bridge is off or the name is null; otherwise the first alias entry matching ignoring case |
| Bridge.ResolveIgnoresCase | src/main/java/com/itsazni/simpleLimbo/bridge/VelocityAliasBridge.java:61-74 | names equal ignoring case resolve to the same limbo |
| Bridge.FirstAliasIgnoresCase | src/main/java/com/itsazni/simpleLimbo/bridge/VelocityAliasBridge.java:66-72 | names equal ignoring case find the same entry |
| Bridge.FirstOutside | src/main/java/com/itsazni/simpleLimbo/bridge/VelocityAliasBridge.java:83-88 | the first name whose lower-case form is not recorded; none iff all are recorded |
| Bridge.AbortedStays | src/main/java/com/itsazni/simpleLimbo/bridge/VelocityAliasBridge.java:28-49 | once the loop is cut short by an invalid port, no further entry has an effect |
| Bridge.SkipsExisting | src/main/java/com/itsazni/simpleLimbo/bridge/VelocityAliasBridge.java:42-45 | without overriding, an alias naming an existing server changes nothing |
| Bridge.OverrideReplaces | src/main/java/com/itsazni/simpleLimbo/bridge/VelocityAliasBridge.java:35-49 | with overriding, the existing server is unregistered and the alias is registered on the next port |
| Bridge.Range | src/main/java/com/itsazni/simpleLimbo/bridge/VelocityAliasBridge.java:28 | consecutive ports lo..hi-1 |
| Bridge.PortsAppend | src/main/java/com/itsazni/simpleLimbo/bridge/VelocityAliasBridge.java:47-48 | the ports registered by two runs of calls are those of the first, then those of the second |
| Bridge.StepShape | src/main/java/com/itsazni/simpleLimbo/bridge/VelocityAliasBridge.java:29-50 | one entry adds possibly an unregistration, then at most one registration, on the current port |
| Bridge.UnregistrationsAddNothing | src/main/java/com/itsazni/simpleLimbo/bridge/VelocityAliasBridge.java:37 | unregistrations add no port and no registered name |
| Bridge.NoPortsWithoutRegistration | src/main/java/com/itsazni/simpleLimbo/bridge/VelocityAliasBridge.java:37 | calls that are only unregistrations register no port |
| Bridge.ShapedFacts | src/main/java/com/itsazni/simpleLimbo/bridge/VelocityAliasBridge.java:29-50 | a step of that shape moves the port forward by the number of servers it registers, and records the names it registers |
| Bridge.StepFacts | src/main/java/com/itsazni/simpleLimbo/bridge/VelocityAliasBridge.java:29-50 | each entry keeps ports consecutive and recorded aliases covering the registered names |
| Bridge.StepWellKeyed | src/main/java/com/itsazni/simpleLimbo/bridge/VelocityAliasBridge.java:29-50 | one entry keeps the registry keyed by lower-cased names |
| Bridge.RangeAppend | src/main/java/com/itsazni/simpleLimbo/bridge/VelocityAliasBridge.java:28 | adjacent port ranges join |
| Bridge.KeysGrow | src/main/java/com/itsazni/simpleLimbo/bridge/VelocityAliasBridge.java:47-49 | more calls register no fewer names |
| Bridge.GrowsTransitive | src/main/java/com/itsazni/simpleLimbo/bridge/VelocityAliasBridge.java:29-50 | progress over two stretches of the loop is progress over both |
| Bridge.RegisterStep | src/main/java/com/itsazni/simpleLimbo/bridge/VelocityAliasBridge.java:29-50 | after the loop was cut short, or for a blank alias, nothing changes; otherwise calls are only appended, at most the alias is newly recorded, the port advances by at most one, and only when the alias was registered on the current valid port; the loop is cut short only by a port above 65535 |
| Bridge.RegisterAll | src/main/java/com/itsazni/simpleLimbo/bridge/VelocityAliasBridge.java:28-51 | calls are only appended, recorded aliases only grow, the port advances at most once per entry, and a cut-short loop stays cut short |
| Bridge.UnregisterAll | src/main/java/com/itsazni/simpleLimbo/bridge/VelocityAliasBridge.java:54-59 | only unregistration calls, at most one per recorded alias, and the registry only shrinks |
| Bridge.VelocityAliasBridge.RegisterEntry | src/main/java/com/itsazni/simpleLimbo/bridge/VelocityAliasBridge.java:29-50 | one entry on the live registry does what `Bridge.RegisterStep` describes, so the rest of the loop ends where the loop from that entry would |
| Bridge.RegisterAllFacts | src/main/java/com/itsazni/simpleLimbo/bridge/VelocityAliasBridge.java:22-52 | over the whole loop, ports are consecutive from the start and every registered name is recorded |
| Bridge.RegistrationRun | src/main/java/com/itsazni/simpleLimbo/bridge/VelocityAliasBridge.java:22-52 | a full run registers its i-th server on port max(1, startPort) + i, and records each registered alias in lower case |
| Bridge.RegisterAllWellKeyed | src/main/java/com/itsazni/simpleLimbo/bridge/VelocityAliasBridge.java:22-52 | the registry stays keyed by lower-cased names |
| Bridge.UnregisterAllRemovesExactly | src/main/java/com/itsazni/simpleLimbo/bridge/VelocityAliasBridge.java:54-59 | unregistering the recorded aliases removes exactly those names, and only unregisters servers that were registered |
| Bridge.VelocityAliasBridge.constructor | src/main/java/com/itsazni/simpleLimbo/bridge/VelocityAliasBridge.java:22-52 | no recorded aliases at first |
| Bridge.VelocityAliasBridge.RegisterAliases | src/main/java/com/itsazni/simpleLimbo/bridge/VelocityAliasBridge.java:22-52 | nothing when disabled; otherwise the registry, recorded aliases and calls are those of the alias loop from port max(1, startPort) |
| Bridge.VelocityAliasBridge.UnregisterAliases | src/main/java/com/itsazni/simpleLimbo/bridge/VelocityAliasBridge.java:54-59 | unregisters each recorded alias still registered, then forgets them all, so a second call unregisters nothing |
| Bridge.VelocityAliasBridge.IsManagedAlias | src/main/java/com/itsazni/simpleLimbo/bridge/VelocityAliasBridge.java:76-81 | null is not managed; a name is managed iff its lower-case form was recorded |
| Bridge.VelocityAliasBridge.FindFirstRealServerName | src/main/java/com/itsazni/simpleLimbo/bridge/VelocityAliasBridge.java:82-88 | over a listing of exactly the registry's servers: none iff every registered server is a managed alias; otherwise the name of a registered server that is not one, the first such in the listing |
| Bridge.VelocityAliasBridge.ManagedIgnoresCase | src/main/java/com/itsazni/simpleLimbo/bridge/VelocityAliasBridge.java:76-81 | names equal ignoring case are managed alike |
| Listener.AliasTarget | src/main/java/com/itsazni/simpleLimbo/listener/PlayerListener.java:41-47 | the resolved limbo, only when it is not blank |
| Listener.AliasTargetIgnoresCase | src/main/java/com/itsazni/simpleLimbo/listener/PlayerListener.java:41-47 | server names equal ignoring case target the same limbo |
| Listener.LeaveLimbo | src/main/java/com/itsazni/simpleLimbo/listener/PlayerListener.java:105-150 | denied connections are untouched and players not in a limbo pass with no calls; a limbo player without a session only has the fake server cleared; with a session but no target nothing happens; with both, the fake server is cleared, the session disconnected to the target, and the event denied |
| Listener.TransferLeavesThroughLimbo | src/main/java/com/itsazni/simpleLimbo/listener/PlayerListener.java:105-150 | an allowed transfer out of limbo becomes a limbo disconnect to the target |
| Listener.PlayerListener.constructor | src/main/java/com/itsazni/simpleLimbo/listener/PlayerListener.java:23-26 | the listener holds the plugin's managers |
| Listener.PlayerListener.OnServerConnected | src/main/java/com/itsazni/simpleLimbo/listener/PlayerListener.java:27-30 | marks activity |
| Listener.PlayerListener.OnPlayerChooseInitialServer | src/main/java/com/itsazni/simpleLimbo/listener/PlayerListener.java:36-63 | an initial server that is an alias schedules the delayed send to its limbo after 50 ms; otherwise nothing |
| Listener.PlayerListener.RunDelayedSend | src/main/java/com/itsazni/simpleLimbo/listener/PlayerListener.java:49-56 | sends iff the player is still active and the limbo is loaded |
| Listener.PlayerListener.OnServerPreConnect | src/main/java/com/itsazni/simpleLimbo/listener/PlayerListener.java:69-95 | a connection to an alias of a loaded limbo is denied and the player is sent there; otherwise nothing changes |
| Listener.PlayerListener.OnServerPreConnectClearFake | src/main/java/com/itsazni/simpleLimbo/listener/PlayerListener.java:105-150 | the result and calls are `LeaveLimbo` of the player's limbo state |
| Listener.PlayerListener.OnPlayerChat | src/main/java/com/itsazni/simpleLimbo/listener/PlayerListener.java:152-155 | marks activity |
| Listener.PlayerListener.OnDisconnect | src/main/java/com/itsazni/simpleLimbo/listener/PlayerListener.java:157-162 | clears the display, forgets activity and leaves the limbo, for this player only |
| Listener.PlayerListener.OnKickedFromServer | src/main/java/com/itsazni/simpleLimbo/listener/PlayerListener.java:164-183 | a matching kick sends the player to the fallback limbo with its message; a failing pattern aborts; otherwise nothing |
| Command.HelpEffects | src/main/java/com/itsazni/simpleLimbo/command/SimpleLimboCommand.java:126-133 | the six help lines, in order |
| Command.ParseSubcommand | src/main/java/com/itsazni/simpleLimbo/command/SimpleLimboCommand.java:32-51 | a subcommand is chosen iff the lower-cased first argument is its name; otherwise help |
| Command.ParseSubcommandIgnoresCase | src/main/java/com/itsazni/simpleLimbo/command/SimpleLimboCommand.java:37 | a subcommand typed in any case is recognised |
| Command.ListMessage | src/main/java/com/itsazni/simpleLimbo/command/SimpleLimboCommand.java:43-46 | "none" when there are no limbos, otherwise the comma-joined names |
| Command.FindPlayer | src/main/java/com/itsazni/simpleLimbo/command/SimpleLimboCommand.java:85 | the first online player whose name equals ignoring case; none iff nobody matches |
| Command.SendOutcome | src/main/java/com/itsazni/simpleLimbo/command/SimpleLimboCommand.java:79-93 | usage, unknown player, unknown limbo, or a send, each with its reply |
| Command.SendMovesOnlyTheNamedPlayer | src/main/java/com/itsazni/simpleLimbo/command/SimpleLimboCommand.java:79-93 | every other player's tracking is unchanged |
| Command.AssignAllSendsEveryone | src/main/java/com/itsazni/simpleLimbo/command/SimpleLimboCommand.java:102-107 | after sending all, every online player is in the limbo and no one else changed |
| Command.SpawnAll | src/main/java/com/itsazni/simpleLimbo/command/SimpleLimboCommand.java:102-107 | one spawn per online player, in order |
| Command.Filter | src/main/java/com/itsazni/simpleLimbo/command/SimpleLimboCommand.java:135-140 | keeps exactly the values whose lower case starts with the lower-cased input |
| Command.FilterSingleton | src/main/java/com/itsazni/simpleLimbo/command/SimpleLimboCommand.java:135-140 | a single value is kept iff its lower case starts with the lower-cased input |
| Command.FilterAppend | src/main/java/com/itsazni/simpleLimbo/command/SimpleLimboCommand.java:135-140 | filtering a concatenation is concatenating the filtered parts, so order and repetitions are kept |
| Command.FilterEmptyKeepsAll | src/main/java/com/itsazni/simpleLimbo/command/SimpleLimboCommand.java:135-140 | an empty input keeps every value |
| Command.FilterNarrows | src/main/java/com/itsazni/simpleLimbo/command/SimpleLimboCommand.java:135-140 | typing more only narrows: filtering by a prefix and then by its extension is filtering by the extension |
| Command.FilterIgnoresCase | src/main/java/com/itsazni/simpleLimbo/command/SimpleLimboCommand.java:135-140 | inputs equal ignoring case suggest alike |
| Command.Suggestions | src/main/java/com/itsazni/simpleLimbo/command/SimpleLimboCommand.java:54-77 | subcommands, then player names for send, then limbo names, filtered by what is typed; nothing past the third argument |
| Command.Usernames | src/main/java/com/itsazni/simpleLimbo/command/SimpleLimboCommand.java:67 | the online players' names, in order |
| Command.SimpleLimboCommand.constructor | src/main/java/com/itsazni/simpleLimbo/command/SimpleLimboCommand.java:18-20 | the command holds the limbo manager |
| Command.SimpleLimboCommand.Execute | src/main/java/com/itsazni/simpleLimbo/command/SimpleLimboCommand.java:22-52 | without permission only the refusal is sent; otherwise the parsed subcommand's handler runs |
| Command.SimpleLimboCommand.HandleReload | src/main/java/com/itsazni/simpleLimbo/command/SimpleLimboCommand.java:38-41 | the plugin is reloaded, then the confirmation is sent |
| Command.SimpleLimboCommand.HandleList | src/main/java/com/itsazni/simpleLimbo/command/SimpleLimboCommand.java:42-45 | one reply listing every loaded limbo exactly once |
| Command.SimpleLimboCommand.HandleSend | src/main/java/com/itsazni/simpleLimbo/command/SimpleLimboCommand.java:79-93 | tracking and replies are exactly `SendOutcome` |
| Command.SimpleLimboCommand.HandleSendAll | src/main/java/com/itsazni/simpleLimbo/command/SimpleLimboCommand.java:95-110 | the usage reply when fewer than two arguments; otherwise every online player is tried in order, each sent when the limbo exists, and "Sent N player(s)" is reported with the number sent |
| Command.SimpleLimboCommand.SendEach | src/main/java/com/itsazni/simpleLimbo/command/SimpleLimboCommand.java:101-107 | every online player is tried in order and sent when the limbo exists; the count is the number of players when it exists and 0 otherwise |
| Command.SimpleLimboCommand.HandleInfo | src/main/java/com/itsazni/simpleLimbo/command/SimpleLimboCommand.java:112-124 | usage or unknown limbo reply; otherwise the name, player count, dimension and game mode |
| Command.SimpleLimboCommand.SendHelp | src/main/java/com/itsazni/simpleLimbo/command/SimpleLimboCommand.java:126-133 | sends the help lines in order |
| Command.SimpleLimboCommand.Suggest | src/main/java/com/itsazni/simpleLimbo/command/SimpleLimboCommand.java:54-77 | with no arguments the subcommand names; with one, those the typed prefix selects; for `send` the matching online names, then the loaded limbo names starting with the typed text ignoring case (also for `sendall`/`info`); nothing past the third argument |
| Util.Enumerate | src/main/java/com/itsazni/simpleLimbo/limbo/LimboManager.java:75-77 | a set's iteration order lists each element exactly once |

## Left out

- Logging, the debug flag's timing messages and log text are left out, because they do not change any state.
- Case mapping is ASCII-only in `Text.Lower`/`Text.Upper`. Java's locale-aware `toLowerCase`/`toUpperCase` also maps non-ASCII letters.
- `Triggers.FirstMatch`: the Java regular-expression engine is a parameter (`Matcher`), so nothing is proved about pattern syntax. A pattern that fails to compile is the `BadPattern` outcome.
- The tab-list injector works by reflection, so `InjectFakeServer`/`ClearFakeServer` are opaque effects. Whether the injector is available is a parameter of the proxy.
- Scheduled tasks do not run by themselves. A scheduled task is an effect, and its body is a separate method the caller invokes:
  - `ReconnectTick` and `ReconnectCompleted` for the auto-reconnect task;
  - `ApplyDisableFalling` for the fallback timer;
  - `RunDelayedSend` for the delayed send;
  - `CommandCompleted` for the dispatched command's completion.
  Interleavings between threads are not modelled.
- Java's `float` and `double` are modelled as `real`, so rounding is not modelled.
- Time comes from the caller as `now`, in milliseconds.
- The plugin's bootstrap (`SimpleLimbo`), the configuration loader and the YAML files are not part of this model. The configuration records are datatypes, and the reload subcommand only logs a `ReloadPlugin` effect.
- Command.SimpleLimboCommand.Execute: for reload, it states only the reply and the `ReloadPlugin` call. The plugin-wide reload is not part of this model.
- LimboAPI world building is described by a `LimboSetup` value. A creation that throws is modelled as the name being in the `failing` set given to `LoadAll`.
- Whether a world file is present and readable is a parameter (`WorldFileStatus`), not file I/O.
- Velocity's server registry is modelled as keyed by lower-cased name. `getPlayer` is modelled as the first online player whose name matches ignoring case.
- The command permission check is a `permitted` parameter.
- Legacy-text deserialisation is left out: a component records its source text.
- The constructor of `SimpleLimboHandler` is called by LimboAPI, which is not part of this model.
- Iteration order of Java hash maps and sets is unspecified. It is a ghost order that lists each element once (`Util.Enumerate`).
- Bridge.VelocityAliasBridge.RegisterAliases: an `InetSocketAddress` port above 65535 throws and ends the loop. This is modelled as an `aborted` result with no further registrations.
- Null alias keys in the configuration map cannot be written in the model, because configuration strings are never null. Blank aliases are skipped.
- Display.DisplayManager.ShowJoinDisplay: a previous display of the same player is replaced without being cleared, as in the source. The model does not claim that it is cleared.
- Handler.SimpleLimboHandler.StartAutoReconnectIfEnabled: an earlier auto-reconnect task is overwritten without being cancelled, as in the source.
- The countdown text is the periodic action-bar message of the display configuration (`display.actionbar.message`) with `{countdown}` replaced (SimpleLimboHandler.java:211).
