/**
 * Validation and defaulting of an ore definition (`register_ore`).
 */
module Ores {
  import opened MapgenTypes
  import opened MapgenFlags

  /** Ore distribution kinds; an absent or unknown `ore_type` means scatter. */
  datatype OreType = Scatter | Sheet | Blob | Vein

  /** Ore flag telling placement to gate on the ore's noise (bit 0x08). */
  const OREFLAG_USE_NOISE: FlagWord := {3}

  /**
   * Whether a kind is driven by a noise field and so cannot be placed without
   * noise parameters: sheets, blobs and veins are; scattered clusters are not.
   */
  predicate NeedsNoise(t: OreType) {
    t != Scatter
  }

  /**
   * The value the registration code actually consults: `ore->NEEDS_NOISE` is
   * a static constant read through a pointer to the base class `Ore`, so it is
   * the base class's value whatever the ore's kind. That value must be false,
   * as scattered ores without noise are accepted.
   */
  const NEEDS_NOISE_AS_WRITTEN: bool := false

  /** An ore definition table; a field is absent when missing or unreadable. */
  datatype OreDef = OreDef(
    oreType: Option<OreType>,
    name: Option<string>,
    ore: Option<string>,
    wherein: seq<string>,
    oreParam2: Option<int>,
    clustScarcity: Option<int>,
    clustNumOres: Option<int>,
    clustSize: Option<int>,
    noiseThreshold: Option<real>,
    yMin: Option<int>,
    yMax: Option<int>,
    heightMin: Option<int>,
    heightMax: Option<int>,
    flags: Option<FlagWord>,
    noiseParams: Option<NoiseParams>,
    randomFactor: Option<real>)

  /**
   * A validated ore. `ore` and `wherein` are the node names left for later
   * resolution; `randomFactor` is present for veins only.
   */
  datatype Ore = Ore(
    oreType: OreType,
    name: string,
    ore: string,
    wherein: seq<string>,
    oreParam2: u8,
    clustScarcity: int,
    clustNumOres: int,
    clustSize: int,
    nthresh: real,
    yMin: int,
    yMax: int,
    flags: FlagWord,
    np: Option<NoiseParams>,
    randomFactor: Option<real>)

  datatype OreError =
    | BadCluster    // clust_scarcity or clust_num_ores not positive
    | MissingNoise  // the kind needs noise parameters and none were read
    | AddFailed     // the ore manager refused the ore

  /**
   * Reads an ore definition; `needsNoise` is what the check for missing
   * noise parameters consults.
   */
  function ReadOre(def: OreDef, needsNoise: bool): (r: Result<Ore, OreError>)
    ensures r.Ok? <==>
      && def.clustScarcity.GetOr(1) > 0 && def.clustNumOres.GetOr(1) > 0
      && (def.noiseParams.Some? || !needsNoise)
    ensures (def.clustScarcity.GetOr(1) <= 0 || def.clustNumOres.GetOr(1) <= 0) ==> r == Err(BadCluster)
    ensures r.Ok? ==>
      && r.value.oreType == def.oreType.GetOr(Scatter)
      && r.value.clustScarcity == def.clustScarcity.GetOr(1) > 0
      && r.value.clustNumOres == def.clustNumOres.GetOr(1) > 0
      && r.value.clustSize == def.clustSize.GetOr(0)
      && r.value.nthresh == def.noiseThreshold.GetOr(0.0)
      && r.value.oreParam2 == ToU8(def.oreParam2.GetOr(0))
      && r.value.name == def.name.GetOr("") && r.value.ore == def.ore.GetOr("")
      && r.value.wherein == def.wherein
      && r.value.np == def.noiseParams
      // `random_factor`, 1.0 by default, is read for veins only.
      && r.value.randomFactor == (if r.value.oreType == Vein then Some(def.randomFactor.GetOr(1.0)) else None)
    // The y range: `y_min`, else the deprecated `height_min`, else -31000; `y_max` likewise.
    ensures r.Ok? && def.yMin.Some? ==> r.value.yMin == def.yMin.value
    ensures r.Ok? && def.yMin.None? && def.heightMin.Some? ==> r.value.yMin == def.heightMin.value
    ensures r.Ok? && def.yMin.None? && def.heightMin.None? ==> r.value.yMin == Y_MIN_DEFAULT
    ensures r.Ok? && def.yMax.Some? ==> r.value.yMax == def.yMax.value
    ensures r.Ok? && def.yMax.None? && def.heightMax.Some? ==> r.value.yMax == def.heightMax.value
    ensures r.Ok? && def.yMax.None? && def.heightMax.None? ==> r.value.yMax == Y_MAX_DEFAULT
    // The noise flag is set exactly when noise parameters were read (or the flags field set it).
    ensures r.Ok? ==>
      (OREFLAG_USE_NOISE <= r.value.flags <==> def.noiseParams.Some? || OREFLAG_USE_NOISE <= def.flags.GetOr({}))
    ensures r.Ok? ==> r.value.flags - OREFLAG_USE_NOISE == def.flags.GetOr({}) - OREFLAG_USE_NOISE
  {
    var oreType := def.oreType.GetOr(Scatter);
    var clustScarcity := def.clustScarcity.GetOr(1);
    var clustNumOres := def.clustNumOres.GetOr(1);
    var yMin := if def.yMin.Some? then def.yMin.value
                else if def.heightMin.Some? then def.heightMin.value
                else Y_MIN_DEFAULT;
    var yMax := if def.yMax.Some? then def.yMax.value
                else if def.heightMax.Some? then def.heightMax.value
                else Y_MAX_DEFAULT;
    if clustScarcity <= 0 || clustNumOres <= 0 then
      Err(BadCluster)
    else
      var flags := def.flags.GetOr({});
      if def.noiseParams.None? && needsNoise then
        Err(MissingNoise)
      else
        Ok(Ore(
          oreType,
          def.name.GetOr(""),
          def.ore.GetOr(""),
          def.wherein,
          ToU8(def.oreParam2.GetOr(0)),
          clustScarcity,
          clustNumOres,
          def.clustSize.GetOr(0),
          def.noiseThreshold.GetOr(0.0),
          yMin,
          yMax,
          if def.noiseParams.Some? then flags + OREFLAG_USE_NOISE else flags,
          def.noiseParams,
          if oreType == Vein then Some(def.randomFactor.GetOr(1.0)) else None))
  }

  /** Ore definition reading as the source has it: the missing-noise check never rejects. */
  function ReadOreDefAsWritten(def: OreDef): (r: Result<Ore, OreError>)
    ensures r != Err(MissingNoise)
    ensures r.Ok? <==> def.clustScarcity.GetOr(1) > 0 && def.clustNumOres.GetOr(1) > 0
  {
    ReadOre(def, NEEDS_NOISE_AS_WRITTEN)
  }

  /** Ore definition reading with the kind's own noise requirement. */
  function ReadOreDef(def: OreDef): (r: Result<Ore, OreError>)
    ensures r.Ok? ==> (NeedsNoise(r.value.oreType) ==> r.value.np.Some? && OREFLAG_USE_NOISE <= r.value.flags)
    ensures def.noiseParams.None? && NeedsNoise(def.oreType.GetOr(Scatter))
      && def.clustScarcity.GetOr(1) > 0 && def.clustNumOres.GetOr(1) > 0
      ==> r == Err(MissingNoise)
  {
    ReadOre(def, NeedsNoise(def.oreType.GetOr(Scatter)))
  }

  /** A sheet ore without noise parameters: accepted as written, rejected as intended. */
  const SHEET_WITHOUT_NOISE := OreDef(
    Some(Sheet), Some("stone_with_coal"), Some("default:stone_with_coal"), ["default:stone"],
    None, None, None, None, None, None, None, None, None, None, None, None)

  lemma SheetWithoutNoiseAccepted()
    ensures ReadOreDefAsWritten(SHEET_WITHOUT_NOISE).Ok?
    ensures ReadOreDefAsWritten(SHEET_WITHOUT_NOISE).value.np.None?
    ensures ReadOreDef(SHEET_WITHOUT_NOISE) == Err(MissingNoise)
  {
  }

  /**
   * `register_ore`: reads the definition and hands the ore to the ore
   * manager, whose `add` may refuse it; the handle is returned.
   */
  function RegisterOre(def: OreDef, add: Ore -> Option<nat>): (r: Result<nat, OreError>)
    ensures ReadOreDef(def).Err? ==> r == Err(ReadOreDef(def).error)
    ensures r.Ok? ==> ReadOreDef(def).Ok? && add(ReadOreDef(def).value) == Some(r.value)
    ensures ReadOreDef(def).Ok? && add(ReadOreDef(def).value).None? ==> r == Err(AddFailed)
  {
    match ReadOreDef(def)
    case Err(e) => Err(e)
    case Ok(ore) =>
      match add(ore)
      case None => Err(AddFailed)
      case Some(handle) => Ok(handle)
  }
}
