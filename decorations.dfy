/**
 * Validation and defaulting of a decoration definition
 * (`register_decoration`, `read_deco_simple`, `read_deco_schematic`).
 */
module Decorations {
  import opened MapgenTypes
  import opened MapgenFlags
  import opened BiomeLists
  import opened Schematics

  /** Decoration kinds named by `deco_type`. */
  datatype DecoType = Simple | SchematicDeco | LSystem

  /** Schematic rotations named by `rotation`; an absent or unknown one means 0. */
  datatype Rotation = Rotate0 | Rotate90 | Rotate180 | Rotate270 | RotateRandom

  /** Decoration flag telling placement to gate on the decoration's noise (bit 0x08). */
  const DECO_USE_NOISE: FlagWord := {3}

  const SIDELEN_DEFAULT: int := 8

  /**
   * A decoration definition table; a field is absent when missing or
   * unreadable, a name list is empty when missing. `B` is how a biome is
   * given, `S` how a schematic is given.
   */
  datatype DecorationDef<B, S> = DecorationDef(
    decoType: Option<DecoType>,
    name: Option<string>,
    fillRatio: Option<real>,
    yMin: Option<int>,
    yMax: Option<int>,
    sidelen: Option<int>,
    placeOn: seq<string>,
    flags: Option<FlagWord>,
    noiseParams: Option<NoiseParams>,
    biomes: BiomeArg<B>,
    // simple decorations
    height: Option<int>,
    heightMax: Option<int>,
    numSpawnBy: Option<int>,
    decoration: seq<string>,
    spawnBy: seq<string>,
    // schematic decorations
    rotation: Option<Rotation>,
    replacements: seq<ReplacementEntry>,
    schematic: S)

  /** The kind-specific part of a validated decoration. */
  datatype DecoKind =
    | SimpleKind(decoNames: seq<string>, decoHeight: int, decoHeightMax: int,
                 nspawnby: int, spawnByNames: seq<string>)
    | SchematicKind(rotation: Rotation, schematic: nat)

  /** A validated decoration; node names are kept for later resolution. */
  datatype Decoration = Decoration(
    name: string, fillRatio: real, yMin: int, yMax: int, sidelen: int,
    placeOn: seq<string>, flags: FlagWord, np: Option<NoiseParams>,
    biomes: set<u8>, kind: DecoKind)

  datatype DecoError =
    | UnknownType        // `deco_type` missing or not a known kind
    | BadSidelen         // `sidelen` not positive
    | BadHeight          // simple decoration `height` not positive
    | NoDecorationNodes  // simple decoration with an empty `decoration` list
    | NoSpawnByNodes     // `num_spawn_by` given without a `spawn_by` list
    | NoSchematic        // the schematic could not be found or loaded
    | KindUnsupported    // no reader for this kind (L-system)
    | AddFailed          // the decoration manager refused the decoration

  /** The simple-decoration fields: `height` 1, `height_max` 0 and `num_spawn_by` -1 by default. */
  function ReadDecoSimple<B, S>(def: DecorationDef<B, S>): (r: Result<DecoKind, DecoError>)
    ensures r.Ok? <==>
      && def.height.GetOr(1) > 0
      && |def.decoration| > 0
      && (def.numSpawnBy.GetOr(-1) == -1 || |def.spawnBy| > 0)
    ensures def.height.GetOr(1) <= 0 ==> r == Err(BadHeight)
    ensures def.height.GetOr(1) > 0 && |def.decoration| == 0 ==> r == Err(NoDecorationNodes)
    ensures def.height.GetOr(1) > 0 && |def.decoration| > 0 && def.numSpawnBy.GetOr(-1) != -1 && |def.spawnBy| == 0
      ==> r == Err(NoSpawnByNodes)
    ensures r.Ok? ==> r.value == SimpleKind(
      def.decoration, def.height.GetOr(1), def.heightMax.GetOr(0), def.numSpawnBy.GetOr(-1), def.spawnBy)
    ensures r.Ok? ==> r.value.decoHeight > 0 && (r.value.nspawnby != -1 ==> |r.value.spawnByNames| > 0)
  {
    var decoHeight := def.height.GetOr(1);
    var decoHeightMax := def.heightMax.GetOr(0);
    var nspawnby := def.numSpawnBy.GetOr(-1);
    if decoHeight <= 0 then Err(BadHeight)
    else if |def.decoration| == 0 then Err(NoDecorationNodes)
    else if nspawnby != -1 && |def.spawnBy| == 0 then Err(NoSpawnByNodes)
    else Ok(SimpleKind(def.decoration, decoHeight, decoHeightMax, nspawnby, def.spawnBy))
  }

  /** A simple decoration naming only its nodes takes the default height and no neighbour requirement. */
  lemma SimpleDefaults<B, S>(def: DecorationDef<B, S>)
    requires def.height.None? && def.heightMax.None? && def.numSpawnBy.None?
    requires |def.decoration| > 0
    ensures ReadDecoSimple(def) == Ok(SimpleKind(def.decoration, 1, 0, -1, def.spawnBy))
  {
  }

  /**
   * The schematic-decoration fields: the replacement table is read into an
   * empty map, then the schematic is found or loaded with it (`load`, which
   * may fail).
   */
  function ReadDecoSchematic<B, S>(def: DecorationDef<B, S>, load: (S, map<string, string>) -> Option<nat>)
    : (r: Result<DecoKind, DecoError>)
    ensures r.Ok? <==> load(def.schematic, InsertReplacements(map[], def.replacements)).Some?
    ensures r.Ok? ==> r.value == SchematicKind(
      def.rotation.GetOr(Rotate0), load(def.schematic, InsertReplacements(map[], def.replacements)).value)
    ensures r.Err? ==> r.error == NoSchematic
  {
    var replaceNames := InsertReplacements(map[], def.replacements);
    match load(def.schematic, replaceNames)
    case None => Err(NoSchematic)
    case Some(schem) => Ok(SchematicKind(def.rotation.GetOr(Rotate0), schem))
  }

  /**
   * Reads a decoration definition. `lookup` resolves biomes; biomes that do
   * not resolve are left out of the decoration's biome set without rejecting it.
   */
  function ReadDecorationDef<B, S>(
    def: DecorationDef<B, S>, lookup: B -> Option<u8>, load: (S, map<string, string>) -> Option<nat>)
    : (r: Result<Decoration, DecoError>)
    ensures def.decoType.None? ==> r == Err(UnknownType)
    ensures def.decoType.Some? && def.sidelen.GetOr(SIDELEN_DEFAULT) <= 0 ==> r == Err(BadSidelen)
    ensures def.decoType == Some(LSystem) ==> r.Err?
    ensures def.decoType == Some(Simple) && def.sidelen.GetOr(SIDELEN_DEFAULT) > 0 ==>
      (r.Ok? <==> ReadDecoSimple(def).Ok?)
    ensures def.decoType == Some(SchematicDeco) && def.sidelen.GetOr(SIDELEN_DEFAULT) > 0 ==>
      (r.Ok? <==> ReadDecoSchematic(def, load).Ok?)
    ensures r.Ok? ==>
      && r.value.sidelen == def.sidelen.GetOr(SIDELEN_DEFAULT) > 0
      && r.value.name == def.name.GetOr("") && r.value.fillRatio == def.fillRatio.GetOr(0.02)
      && r.value.np == def.noiseParams
      && r.value.yMin == def.yMin.GetOr(Y_MIN_DEFAULT) && r.value.yMax == def.yMax.GetOr(Y_MAX_DEFAULT)
      && r.value.biomes == ResolvedBiomes(def.biomes, lookup)
      && r.value.placeOn == def.placeOn
      && (DECO_USE_NOISE <= r.value.flags <==> def.noiseParams.Some? || DECO_USE_NOISE <= def.flags.GetOr({}))
      && r.value.flags - DECO_USE_NOISE == def.flags.GetOr({}) - DECO_USE_NOISE
      && (r.value.kind.SimpleKind? <==> def.decoType == Some(Simple))
    ensures r.Ok? && def.decoType == Some(Simple) ==> r.value.kind == ReadDecoSimple(def).value
    ensures r.Ok? && def.decoType == Some(SchematicDeco) ==> r.value.kind == ReadDecoSchematic(def, load).value
    ensures r.Err? && def.decoType.Some? && def.sidelen.GetOr(SIDELEN_DEFAULT) > 0 ==>
      r.error == (match def.decoType.value
                  case Simple => ReadDecoSimple(def).error
                  case SchematicDeco => ReadDecoSchematic(def, load).error
                  case LSystem => KindUnsupported)
  {
    if def.decoType.None? then
      Err(UnknownType)
    else
      var sidelen := def.sidelen.GetOr(SIDELEN_DEFAULT);
      if sidelen <= 0 then
        Err(BadSidelen)
      else
        var flags := def.flags.GetOr({});
        var flags := if def.noiseParams.Some? then flags + DECO_USE_NOISE else flags;
        var biomes := ResolvedBiomes(def.biomes, lookup);
        var kind :=
          match def.decoType.value
          case Simple => ReadDecoSimple(def)
          case SchematicDeco => ReadDecoSchematic(def, load)
          case LSystem => Err(KindUnsupported);
        if kind.Err? then
          Err(kind.error)
        else
          Ok(Decoration(
            def.name.GetOr(""), def.fillRatio.GetOr(0.02),
            def.yMin.GetOr(Y_MIN_DEFAULT), def.yMax.GetOr(Y_MAX_DEFAULT), sidelen,
            def.placeOn, flags, def.noiseParams, biomes, kind.value))
  }

  /** Whether a decoration is accepted never depends on which of its biomes resolve. */
  lemma BiomeFailuresNeverReject<B, S>(
    def: DecorationDef<B, S>, lookup1: B -> Option<u8>, lookup2: B -> Option<u8>,
    load: (S, map<string, string>) -> Option<nat>)
    ensures ReadDecorationDef(def, lookup1, load).Ok? <==> ReadDecorationDef(def, lookup2, load).Ok?
  {
  }

  /**
   * `register_decoration`: reads the definition and hands the decoration to
   * the decoration manager, whose `add` may refuse it; the handle is returned.
   */
  function RegisterDecoration<B, S>(
    def: DecorationDef<B, S>, lookup: B -> Option<u8>, load: (S, map<string, string>) -> Option<nat>,
    add: Decoration -> Option<nat>)
    : (r: Result<nat, DecoError>)
    ensures ReadDecorationDef(def, lookup, load).Err? ==> r == Err(ReadDecorationDef(def, lookup, load).error)
    ensures r.Ok? ==>
      ReadDecorationDef(def, lookup, load).Ok? && add(ReadDecorationDef(def, lookup, load).value) == Some(r.value)
    ensures ReadDecorationDef(def, lookup, load).Ok? && add(ReadDecorationDef(def, lookup, load).value).None?
      ==> r == Err(AddFailed)
  {
    match ReadDecorationDef(def, lookup, load)
    case Err(e) => Err(e)
    case Ok(deco) =>
      match add(deco)
      case None => Err(AddFailed)
      case Some(handle) => Ok(handle)
  }
}
