/**
 * Resolution of the `biomes` field of a decoration definition into a set of
 * biome indices (`get_biome_list`). Looking a biome up, or loading and
 * registering it, is an outside operation that may fail; it is the
 * parameter `lookup`, which yields the biome's index when it succeeds.
 */
module BiomeLists {
  import opened MapgenTypes

  /**
   * The Lua value given for a biome list: nil, a single biome (a handle, a
   * name, or a definition table carrying a `name` field), or a table of such
   * biomes (a table without a `name` field), listed in traversal order.
   */
  datatype BiomeArg<B> = Nil | Single(biome: B) | List(biomes: seq<B>)

  /** Positions among the first `k` entries whose biome does not resolve. */
  function FailedIndices<B>(items: seq<B>, lookup: B -> Option<u8>, k: nat): set<int>
    requires k <= |items|
  {
    set j | 0 <= j < k && lookup(items[j]).None?
  }

  /** Indices of the biomes among the first `k` entries that resolve. */
  function ResolvedIds<B>(items: seq<B>, lookup: B -> Option<u8>, k: nat): set<u8>
    requires k <= |items|
  {
    set j | 0 <= j < k && lookup(items[j]).Some? :: lookup(items[j]).value
  }

  /** Indices of the biomes that a biome-list argument names and that resolve. */
  function ResolvedBiomes<B>(arg: BiomeArg<B>, lookup: B -> Option<u8>): set<u8> {
    match arg
    case Nil => {}
    case Single(b) => if lookup(b).Some? then {lookup(b).value} else {}
    case List(items) => ResolvedIds(items, lookup, |items|)
  }

  /** Adding one entry to the traversed prefix adds at most that entry to each set. */
  lemma StepSets<B>(items: seq<B>, lookup: B -> Option<u8>, k: nat)
    requires k < |items|
    ensures FailedIndices(items, lookup, k + 1)
         == FailedIndices(items, lookup, k) + (if lookup(items[k]).None? then {k} else {})
    ensures ResolvedIds(items, lookup, k + 1)
         == ResolvedIds(items, lookup, k) + (if lookup(items[k]).Some? then {lookup(items[k]).value} else {})
  {
  }

  /** There are never more failures than entries. */
  lemma {:induction false} FailuresAtMostEntries<B>(items: seq<B>, lookup: B -> Option<u8>, k: nat)
    requires k <= |items|
    ensures |FailedIndices(items, lookup, k)| <= k
  {
    if k > 0 {
      FailuresAtMostEntries(items, lookup, k - 1);
      StepSets(items, lookup, k - 1);
    }
  }

  /**
   * Resolves a biome-list argument, adding the index of every biome that
   * resolves to `biomeIdList`; the number of biomes that did not resolve is
   * returned. A failed entry does not stop the traversal.
   */
  method GetBiomeList<B>(arg: BiomeArg<B>, lookup: B -> Option<u8>, biomeIdList: set<u8>)
    returns (failCount: nat, biomeIds: set<u8>)
    ensures biomeIds == biomeIdList + ResolvedBiomes(arg, lookup)
    ensures arg.Nil? ==> failCount == 0 && biomeIds == biomeIdList
    ensures arg.Single? ==> failCount == (if lookup(arg.biome).None? then 1 else 0)
    ensures arg.List? ==> failCount == |FailedIndices(arg.biomes, lookup, |arg.biomes|)|
    ensures arg.List? ==> failCount <= |arg.biomes|
  {
    biomeIds := biomeIdList;
    match arg {
      case Nil =>
        return 0, biomeIds;
      case Single(b) =>
        var biome := lookup(b);
        if biome.None? {
          return 1, biomeIds;
        }
        biomeIds := biomeIds + {biome.value};
        return 0, biomeIds;
      case List(items) =>
        failCount := 0;
        var count := 0;
        while count < |items|
          invariant 0 <= count <= |items|
          invariant failCount == |FailedIndices(items, lookup, count)|
          invariant biomeIds == biomeIdList + ResolvedIds(items, lookup, count)
        {
          StepSets(items, lookup, count);
          var biome := lookup(items[count]);
          count := count + 1;
          if biome.None? {
            failCount := failCount + 1;
            continue;
          }
          biomeIds := biomeIds + {biome.value};
        }
        FailuresAtMostEntries(items, lookup, |items|);
    }
  }
}
