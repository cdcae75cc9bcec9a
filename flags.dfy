/**
 * Flag-word updates of the global map generator parameters
 * (`set_mapgen_params`) and of the generation-notification state
 * (`set_gen_notify`), held by the emerge manager.
 */
module MapgenFlags {
  import opened MapgenTypes

  /** A bit position of a 32-bit word. */
  newtype BitIndex = i: int | 0 <= i < 32

  /**
   * A 32-bit flag word (C++ `u32`), given as the set of its set bit
   * positions: `a & b` is `a * b`, `a | b` is `a + b` and `a & ~b` is `a - b`.
   */
  type FlagWord = set<BitIndex>

  /**
   * A flags field as read from Lua: the bits it sets, and the mask of every
   * bit it names (set or cleared).
   */
  datatype FlagSpec = FlagSpec(flags: FlagWord, flagmask: FlagWord)

  /** A flag word after a flags field: `(word & ~flagmask) | flags`. */
  function SetFlags(word: FlagWord, flags: FlagWord, flagmask: FlagWord): (r: FlagWord)
    ensures forall b :: b in flags ==> b in r
    ensures forall b :: b in flagmask && b !in flags ==> b !in r
    ensures forall b :: b !in flagmask && b !in flags ==> (b in r <==> b in word)
  {
    (word - flagmask) + flags
  }

  /** A flag word after the deprecated `flagmask` field: `word & ~flagmask`; no bit is set. */
  function ClearFlags(word: FlagWord, flagmask: FlagWord): (r: FlagWord)
    ensures r <= word
    ensures forall b :: b in flagmask ==> b !in r
    ensures forall b :: b !in flagmask ==> (b in r <==> b in word)
  {
    word - flagmask
  }

  /**
   * The flag word after `set_mapgen_params` has read the deprecated
   * `flagmask` field and then the `flags` field.
   */
  function UpdateFlagWord(word: FlagWord, deprecated: Option<FlagWord>, flags: Option<FlagSpec>): (r: FlagWord)
    ensures flags.Some? ==> flags.value.flags <= r
    ensures flags.Some? ==> forall b :: b in flags.value.flagmask && b !in flags.value.flags ==> b !in r
    ensures deprecated.Some? ==> forall b :: b in deprecated.value && b !in Named(flags) ==> b !in r
    ensures forall b :: b !in deprecated.GetOr({}) && b !in Named(flags) ==> (b in r <==> b in word)
  {
    var cleared := if deprecated.Some? then ClearFlags(word, deprecated.value) else word;
    if flags.Some? then SetFlags(cleared, flags.value.flags, flags.value.flagmask) else cleared
  }

  /** The bits a flags field names, set or cleared. */
  function Named(flags: Option<FlagSpec>): FlagWord {
    if flags.Some? then flags.value.flagmask + flags.value.flags else {}
  }

  /** The global map generator parameters; `hasSparams` says whether generator-specific parameters are attached. */
  datatype MapgenParams = MapgenParams(
    mgName: string, seed: int, waterLevel: int, chunksize: int, flags: FlagWord, hasSparams: bool)

  /**
   * The table given to `set_mapgen_params`: each field is absent when it is
   * missing or of the wrong Lua type; `flagmask` is the deprecated field.
   */
  datatype ParamsTable = ParamsTable(
    mgname: Option<string>, seed: Option<int>, waterLevel: Option<int>,
    flagmask: Option<FlagWord>, flags: Option<FlagSpec>)

  /** The parameters after `set_mapgen_params` has read the table `t`. */
  function ApplyParamsTable(p: MapgenParams, t: ParamsTable): (r: MapgenParams)
    ensures r.chunksize == p.chunksize
    ensures r.mgName == t.mgname.GetOr(p.mgName)
    ensures r.hasSparams <==> p.hasSparams && t.mgname.None?
    ensures r.seed == t.seed.GetOr(p.seed) && r.waterLevel == t.waterLevel.GetOr(p.waterLevel)
    ensures r.flags == UpdateFlagWord(p.flags, t.flagmask, t.flags)
  {
    MapgenParams(
      t.mgname.GetOr(p.mgName),
      t.seed.GetOr(p.seed),
      t.waterLevel.GetOr(p.waterLevel),
      p.chunksize,
      UpdateFlagWord(p.flags, t.flagmask, t.flags),
      p.hasSparams && t.mgname.None?)
  }

  /** An element of the decoration-id table of `set_gen_notify`: a number, or anything else. */
  datatype LuaScalar = Number(n: int) | NonNumber

  /** The numbers among the first `k` elements of a table. */
  function NumbersIn(values: seq<LuaScalar>, k: nat): set<int>
    requires k <= |values|
  {
    set j | 0 <= j < k && values[j].Number? :: values[j].n
  }

  /** The emerge manager's map generator parameters and generation-notification state. */
  class EmergeManager {
    var params: MapgenParams
    var genNotifyOn: FlagWord
    var genNotifyOnDecoIds: set<int>

    constructor (params: MapgenParams, genNotifyOn: FlagWord)
      ensures this.params == params && this.genNotifyOn == genNotifyOn && genNotifyOnDecoIds == {}
    {
      this.params := params;
      this.genNotifyOn := genNotifyOn;
      genNotifyOnDecoIds := {};
    }

    /** `set_mapgen_params`: does nothing unless given a table. */
    method SetMapgenParams(arg: Option<ParamsTable>)
      modifies this
      ensures params == if arg.Some? then ApplyParamsTable(old(params), arg.value) else old(params)
      ensures genNotifyOn == old(genNotifyOn) && genNotifyOnDecoIds == old(genNotifyOnDecoIds)
    {
      if arg.None? {
        return;
      }
      var t := arg.value;
      if t.mgname.Some? {
        params := params.(mgName := t.mgname.value, hasSparams := false);
      }
      if t.seed.Some? {
        params := params.(seed := t.seed.value);
      }
      if t.waterLevel.Some? {
        params := params.(waterLevel := t.waterLevel.value);
      }
      if t.flagmask.Some? {
        params := params.(flags := params.flags - t.flagmask.value);
      }
      if t.flags.Some? {
        params := params.(flags := params.flags - t.flags.value.flagmask);
        params := params.(flags := params.flags + t.flags.value.flags);
      }
    }

    /**
     * `set_gen_notify`: updates the notification flag word when a flags
     * argument was read, and adds every number of the decoration-id table.
     */
    method SetGenNotify(flagsArg: Option<FlagSpec>, decoIds: Option<seq<LuaScalar>>)
      modifies this
      ensures genNotifyOn == if flagsArg.Some?
        then SetFlags(old(genNotifyOn), flagsArg.value.flags, flagsArg.value.flagmask)
        else old(genNotifyOn)
      ensures genNotifyOnDecoIds == old(genNotifyOnDecoIds)
        + (if decoIds.Some? then NumbersIn(decoIds.value, |decoIds.value|) else {})
      ensures params == old(params)
    {
      if flagsArg.Some? {
        genNotifyOn := genNotifyOn - flagsArg.value.flagmask;
        genNotifyOn := genNotifyOn + flagsArg.value.flags;
      }
      if decoIds.Some? {
        var values := decoIds.value;
        var k := 0;
        while k < |values|
          invariant 0 <= k <= |values|
          invariant genNotifyOnDecoIds == old(genNotifyOnDecoIds) + NumbersIn(values, k)
          invariant flagsArg.None? ==> genNotifyOn == old(genNotifyOn)
          invariant flagsArg.Some? ==> genNotifyOn == SetFlags(old(genNotifyOn), flagsArg.value.flags, flagsArg.value.flagmask)
          invariant params == old(params)
        {
          assert NumbersIn(values, k + 1)
              == NumbersIn(values, k) + (if values[k].Number? then {values[k].n} else {});
          if values[k].Number? {
            genNotifyOnDecoIds := genNotifyOnDecoIds + {values[k].n};
          }
          k := k + 1;
        }
      }
    }
  }
}
