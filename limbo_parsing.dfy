/**
 * How `LimboInstance.create` reads the free-text parts of a limbo definition:
 * the dimension, game mode and world-file type names (matched on their
 * upper-cased form, with a default for anything else) and the read timeout.
 */
module LimboParsing {
  import opened Util
  import opened Text

  /** LimboAPI's `Dimension`. */
  datatype Dimension = OVERWORLD | NETHER | THE_END

  /** LimboAPI's `GameMode`. */
  datatype GameMode = SURVIVAL | CREATIVE | ADVENTURE | SPECTATOR

  /** LimboAPI's `BuiltInWorldFileType`. */
  datatype WorldFileType = SCHEMATIC | WORLDEDIT_SCHEM | STRUCTURE

  /** The read timeout used when the configured one is not positive. */
  const DefaultReadTimeout: int := 30000

  /** `parseDimension`: "NETHER"/"THE_NETHER" and "END"/"THE_END" in any case;
      everything else is the overworld. */
  function ParseDimension(s: string): (d: Dimension)
    ensures d == NETHER <==> Upper(s) == "NETHER" || Upper(s) == "THE_NETHER"
    ensures d == THE_END <==> Upper(s) == "END" || Upper(s) == "THE_END"
  {
    var u := Upper(s);
    if u == "NETHER" || u == "THE_NETHER" then NETHER
    else if u == "END" || u == "THE_END" then THE_END
    else OVERWORLD
  }

  /** `parseGameMode`: the three named modes in any case; everything else is adventure. */
  function ParseGameMode(s: string): (g: GameMode)
    ensures g == SURVIVAL <==> Upper(s) == "SURVIVAL"
    ensures g == CREATIVE <==> Upper(s) == "CREATIVE"
    ensures g == SPECTATOR <==> Upper(s) == "SPECTATOR"
  {
    var u := Upper(s);
    if u == "SURVIVAL" then SURVIVAL
    else if u == "CREATIVE" then CREATIVE
    else if u == "SPECTATOR" then SPECTATOR
    else ADVENTURE
  }

  /** `parseWorldFileType`: "WORLDEDIT_SCHEM"/"SCHEM" and "STRUCTURE" in any
      case; everything else is the legacy schematic format. */
  function ParseWorldFileType(s: string): (t: WorldFileType)
    ensures t == WORLDEDIT_SCHEM <==> Upper(s) == "WORLDEDIT_SCHEM" || Upper(s) == "SCHEM"
    ensures t == STRUCTURE <==> Upper(s) == "STRUCTURE"
  {
    var u := Upper(s);
    if u == "WORLDEDIT_SCHEM" || u == "SCHEM" then WORLDEDIT_SCHEM
    else if u == "STRUCTURE" then STRUCTURE
    else SCHEMATIC
  }

  function DimensionName(d: Dimension): string {
    match d
    case OVERWORLD => "OVERWORLD"
    case NETHER => "NETHER"
    case THE_END => "THE_END"
  }

  function GameModeName(g: GameMode): string {
    match g
    case SURVIVAL => "SURVIVAL"
    case CREATIVE => "CREATIVE"
    case ADVENTURE => "ADVENTURE"
    case SPECTATOR => "SPECTATOR"
  }

  function WorldFileTypeName(t: WorldFileType): string {
    match t
    case SCHEMATIC => "SCHEMATIC"
    case WORLDEDIT_SCHEM => "WORLDEDIT_SCHEM"
    case STRUCTURE => "STRUCTURE"
  }

  /** The three parsers ignore case: names equal ignoring case parse alike. */
  lemma ParsingIgnoresCase(a: string, b: string)
    requires EqualsIgnoreCase(a, b)
    ensures ParseDimension(a) == ParseDimension(b)
    ensures ParseGameMode(a) == ParseGameMode(b)
    ensures ParseWorldFileType(a) == ParseWorldFileType(b)
  {
    EqualsIgnoreCaseUpper(a, b);
  }

  /** Every constant's own name, written in any case, parses back to it. */
  lemma {:induction false} NamesRoundTrip(s: string, d: Dimension, g: GameMode, t: WorldFileType)
    ensures EqualsIgnoreCase(s, DimensionName(d)) ==> ParseDimension(s) == d
    ensures EqualsIgnoreCase(s, GameModeName(g)) ==> ParseGameMode(s) == g
    ensures EqualsIgnoreCase(s, WorldFileTypeName(t)) ==> ParseWorldFileType(s) == t
  {
    if EqualsIgnoreCase(s, DimensionName(d)) {
      EqualsIgnoreCaseUpper(s, DimensionName(d));
      UpperFixed(DimensionName(d));
    }
    if EqualsIgnoreCase(s, GameModeName(g)) {
      EqualsIgnoreCaseUpper(s, GameModeName(g));
      UpperFixed(GameModeName(g));
    }
    if EqualsIgnoreCase(s, WorldFileTypeName(t)) {
      EqualsIgnoreCaseUpper(s, WorldFileTypeName(t));
      UpperFixed(WorldFileTypeName(t));
    }
  }

  /** `sanitizeReadTimeout`: the configured `long` made into a positive `int`. */
  function SanitizeReadTimeout(timeout: int): (r: int)
    ensures 0 < r <= IntMax
    ensures 0 < timeout <= IntMax ==> r == timeout
    ensures timeout <= 0 ==> r == DefaultReadTimeout
    ensures timeout > IntMax ==> r == IntMax
  {
    if timeout <= 0 then DefaultReadTimeout
    else if timeout > IntMax then IntMax
    else timeout
  }
}
