/**
 * Assembly of a schematic from a Lua definition table (`read_schematic_def`)
 * and reading of node-name replacement tables (`read_schematic_replacements`).
 */
module Schematics {
  import opened MapgenTypes

  /** The `size` field of a schematic definition (a `v3s16`). */
  datatype Size = Size(x: nat, y: nat, z: nat)

  /** Number of cells of a schematic of size `s`. */
  function Volume(s: Size): nat {
    s.x * s.y * s.z
  }

  /**
   * One entry of the `data` list: a node name with optional `param1` and
   * `param2`. These two are `None` only when nil; any other value counts as
   * given, and one that is not a number reads as `Some(0)`.
   */
  datatype NodeEntry = NodeEntry(name: string, param1: Option<int>, param2: Option<int>)

  /** One entry of the `yslice_prob` list. */
  datatype SliceEntry = SliceEntry(ypos: Option<int>, prob: Option<int>)

  /**
   * A schematic definition table. `data` and `ysliceProb` are listed in the
   * order the table is traversed; an absent `yslice_prob` is the empty list.
   */
  datatype SchematicDef = SchematicDef(size: Size, data: seq<NodeEntry>, ysliceProb: seq<SliceEntry>)

  /** A schematic cell (`MapNode`); the node is kept by its name. */
  datatype MapNode = MapNode(name: string, param1: u8, param2: u8)

  /** An assembled schematic: its size, its dense cell array and its per-slice probabilities. */
  class Schematic {
    const size: Size
    const schemdata: array<MapNode>
    const sliceProbs: array<u8>

    constructor (size: Size, schemdata: array<MapNode>, sliceProbs: array<u8>)
      ensures this.size == size && this.schemdata == schemdata && this.sliceProbs == sliceProbs
    {
      this.size := size;
      this.schemdata := schemdata;
      this.sliceProbs := sliceProbs;
    }
  }

  /** The name a node takes once the replacement map has been consulted. */
  function ReplacedName(name: string, replaceNames: map<string, string>): string {
    if name in replaceNames then replaceNames[name] else name
  }

  /**
   * `cell` is what the data entry `e` becomes: its name replaced when the map
   * has it, `param1` defaulting to "always place" and `param2` to 0.
   */
  predicate IsCellOf(cell: MapNode, e: NodeEntry, replaceNames: map<string, string>) {
    && cell.name == ReplacedName(e.name, replaceNames)
    && cell.param1 == (if e.param1.Some? then ToU8(e.param1.value) else PROB_ALWAYS)
    && cell.param2 == (if e.param2.Some? then ToU8(e.param2.value) else 0)
  }

  /** The effect of one `yslice_prob` entry: only an in-range `ypos` sets a slice. */
  function ApplySliceEntry(probs: seq<u8>, e: SliceEntry): seq<u8> {
    if e.ypos.Some? && 0 <= e.ypos.value < |probs|
    then probs[e.ypos.value := ToU8(e.prob.GetOr(PROB_ALWAYS as int))]
    else probs
  }

  /** The effect of a list of `yslice_prob` entries, applied in order. */
  function ApplySliceEntries(probs: seq<u8>, es: seq<SliceEntry>): (r: seq<u8>)
    ensures |r| == |probs|
    decreases |es|
  {
    if es == [] then probs
    else ApplySliceEntry(ApplySliceEntries(probs, es[..|es| - 1]), es[|es| - 1])
  }

  /** The slice probabilities of a schematic `sizeY` high: all "always", then the entries. */
  function SliceProbs(sizeY: nat, es: seq<SliceEntry>): (r: seq<u8>)
    ensures |r| == sizeY
  {
    ApplySliceEntries(seq(sizeY, _ => PROB_ALWAYS), es)
  }

  /** A slice that no entry names keeps its value. */
  lemma {:induction false} SliceUntouched(probs: seq<u8>, es: seq<SliceEntry>, y: int)
    requires 0 <= y < |probs|
    requires forall j :: 0 <= j < |es| ==> es[j].ypos != Some(y)
    ensures ApplySliceEntries(probs, es)[y] == probs[y]
  {
    if es != [] {
      var init := es[..|es| - 1];
      forall j | 0 <= j < |init| ensures init[j].ypos != Some(y) {
        assert init[j] == es[j];
      }
      SliceUntouched(probs, init, y);
    }
  }

  /** The last entry naming an in-range slice decides that slice; an absent `prob` means "always". */
  lemma {:induction false} SliceLastEntryWins(probs: seq<u8>, es: seq<SliceEntry>, j: int)
    requires 0 <= j < |es|
    requires es[j].ypos.Some? && 0 <= es[j].ypos.value < |probs|
    requires forall k :: j < k < |es| ==> es[k].ypos != es[j].ypos
    ensures ApplySliceEntries(probs, es)[es[j].ypos.value] == ToU8(es[j].prob.GetOr(PROB_ALWAYS as int))
  {
    var init := es[..|es| - 1];
    if j < |es| - 1 {
      assert init[j] == es[j];
      forall k | j < k < |init| ensures init[k].ypos != init[j].ypos {
        assert init[k] == es[k];
      }
      SliceLastEntryWins(probs, init, j);
    }
  }

  /** A schematic's slices are "always" except where an in-range entry names them. */
  lemma SliceProbsDefault(sizeY: nat, es: seq<SliceEntry>, y: int)
    requires 0 <= y < sizeY
    requires forall j :: 0 <= j < |es| ==> es[j].ypos != Some(y)
    ensures SliceProbs(sizeY, es)[y] == PROB_ALWAYS
  {
    SliceUntouched(seq(sizeY, _ => PROB_ALWAYS), es, y);
  }

  /**
   * Fills the cell array of a schematic with `numnodes` cells from the `data`
   * entries; entries beyond `numnodes` are counted but not read. `count` is
   * the number of entries seen.
   */
  method ReadSchematicData(data: seq<NodeEntry>, numnodes: nat, replaceNames: map<string, string>)
    returns (schemdata: array<MapNode>, count: nat)
    ensures schemdata.Length == numnodes && count == |data|
    ensures forall j :: 0 <= j < |data| && j < numnodes ==> IsCellOf(schemdata[j], data[j], replaceNames)
  {
    schemdata := new MapNode[numnodes];
    var i := 0;
    // `k` is the traversal cursor over the `data` table; `i` counts entries seen.
    var k := 0;
    while k < |data|
      invariant 0 <= k <= |data| && i == k
      invariant forall j :: 0 <= j < k && j < numnodes ==> IsCellOf(schemdata[j], data[j], replaceNames)
    {
      if i >= numnodes {
        i := i + 1;
        k := k + 1;
        continue;
      }
      var e := data[k];
      var param1 := if e.param1.Some? then ToU8(e.param1.value) else PROB_ALWAYS;
      var param2 := if e.param2.Some? then ToU8(e.param2.value) else 0;
      var name := e.name;
      if name in replaceNames {
        name := replaceNames[name];
      }
      schemdata[i] := MapNode(name, param1, param2);
      i := i + 1;
      k := k + 1;
    }
    count := i;
  }

  /** Builds the per-slice probability array: all "always", then the `yslice_prob` entries in order. */
  method ReadSliceProbs(sizeY: nat, es: seq<SliceEntry>) returns (sliceProbs: array<u8>)
    ensures sliceProbs[..] == SliceProbs(sizeY, es)
  {
    sliceProbs := new u8[sizeY];
    var i := 0;
    while i != sizeY
      invariant 0 <= i <= sizeY
      invariant forall j :: 0 <= j < i ==> sliceProbs[j] == PROB_ALWAYS
    {
      sliceProbs[i] := PROB_ALWAYS;
      i := i + 1;
    }
    assert sliceProbs[..] == seq(sizeY, _ => PROB_ALWAYS);

    var k := 0;
    while k < |es|
      invariant 0 <= k <= |es|
      invariant sliceProbs[..] == ApplySliceEntries(seq(sizeY, _ => PROB_ALWAYS), es[..k])
    {
      var e := es[k];
      assert es[..k + 1][..k] == es[..k];
      if e.ypos.Some? && 0 <= e.ypos.value < sizeY {
        sliceProbs[e.ypos.value] := ToU8(e.prob.GetOr(PROB_ALWAYS as int));
      }
      k := k + 1;
    }
    assert es[..k] == es;
  }

  /**
   * Assembles a schematic from its definition. The definition must list
   * exactly one entry per cell: surplus entries are counted without being
   * read, and any mismatch yields no schematic.
   */
  method ReadSchematicDef(def: SchematicDef, replaceNames: map<string, string>) returns (schem: Schematic?)
    ensures schem != null <==> |def.data| == Volume(def.size)
    ensures schem != null ==>
      && schem.size == def.size
      && schem.schemdata.Length == |def.data|
      && (forall j :: 0 <= j < |def.data| ==> IsCellOf(schem.schemdata[j], def.data[j], replaceNames))
      && schem.sliceProbs[..] == SliceProbs(def.size.y, def.ysliceProb)
  {
    var numnodes := Volume(def.size);
    var schemdata, i := ReadSchematicData(def.data, numnodes, replaceNames);
    if i != numnodes {
      return null;
    }
    var sliceProbs := ReadSliceProbs(def.size.y, def.ysliceProb);
    schem := new Schematic(def.size, schemdata, sliceProbs);
  }

  /**
   * One entry of a replacement table: either the old `{from, to}` pair form
   * or the `from = to` field form. Both name a node to replace and its substitute.
   */
  datatype ReplacementEntry = PairForm(from: string, to: string) | FieldForm(from: string, to: string)

  /** Map insertion that never overwrites: an existing key keeps its value. */
  function InsertReplacement(m: map<string, string>, e: ReplacementEntry): map<string, string> {
    if e.from in m then m else m[e.from := e.to]
  }

  /** The replacement map after inserting the entries of a table in order. */
  function InsertReplacements(m: map<string, string>, es: seq<ReplacementEntry>): map<string, string>
    decreases |es|
  {
    if es == [] then m
    else InsertReplacement(InsertReplacements(m, es[..|es| - 1]), es[|es| - 1])
  }

  /** The keys after reading are the keys before plus every entry's `from`. */
  lemma {:induction false} ReplacementKeys(m: map<string, string>, es: seq<ReplacementEntry>)
    ensures InsertReplacements(m, es).Keys == m.Keys + (set j | 0 <= j < |es| :: es[j].from)
  {
    if es != [] {
      var init := es[..|es| - 1];
      ReplacementKeys(m, init);
      var froms := set j | 0 <= j < |es| :: es[j].from;
      var initFroms := set j | 0 <= j < |init| :: init[j].from;
      assert froms == initFroms + {es[|es| - 1].from} by {
        forall s | s in froms ensures s in initFroms + {es[|es| - 1].from} {
          var j :| 0 <= j < |es| && es[j].from == s;
          if j < |init| { assert init[j] == es[j]; }
        }
        forall s | s in initFroms ensures s in froms {
          var j :| 0 <= j < |init| && init[j].from == s;
          assert init[j] == es[j];
        }
      }
    }
  }

  /** A key already present before reading keeps its value. */
  lemma {:induction false} ReplacementKeepsExisting(m: map<string, string>, es: seq<ReplacementEntry>, key: string)
    requires key in m
    ensures key in InsertReplacements(m, es) && InsertReplacements(m, es)[key] == m[key]
  {
    if es != [] {
      ReplacementKeepsExisting(m, es[..|es| - 1], key);
    }
  }

  /** For a new key, the first entry that names it decides its substitute. */
  lemma {:induction false} ReplacementFirstWins(m: map<string, string>, es: seq<ReplacementEntry>, j: int)
    requires 0 <= j < |es| && es[j].from !in m
    requires forall i :: 0 <= i < j ==> es[i].from != es[j].from
    ensures es[j].from in InsertReplacements(m, es)
    ensures InsertReplacements(m, es)[es[j].from] == es[j].to
  {
    var init := es[..|es| - 1];
    if j < |es| - 1 {
      assert init[j] == es[j];
      forall i | 0 <= i < j ensures init[i].from != init[j].from {
        assert init[i] == es[i];
      }
      ReplacementFirstWins(m, init, j);
    } else {
      ReplacementKeys(m, init);
      forall i | 0 <= i < |init| ensures init[i].from != es[j].from {
        assert init[i] == es[i];
      }
    }
  }

  /**
   * Reads a replacement table into `replaceNames`, entry by entry, in
   * traversal order; the map as it is after the table has been read is returned.
   */
  method ReadSchematicReplacements(table: seq<ReplacementEntry>, replaceNames: map<string, string>)
    returns (r: map<string, string>)
    ensures r == InsertReplacements(replaceNames, table)
  {
    r := replaceNames;
    var k := 0;
    while k < |table|
      invariant 0 <= k <= |table|
      invariant r == InsertReplacements(replaceNames, table[..k])
    {
      var e := table[k];
      var replaceFrom, replaceTo;
      match e {
        case PairForm(f, t) =>
          replaceFrom, replaceTo := f, t;
        case FieldForm(f, t) =>
          replaceFrom, replaceTo := f, t;
      }
      assert table[..k + 1][..k] == table[..k];
      if replaceFrom !in r {
        r := r[replaceFrom := replaceTo];
      }
      k := k + 1;
    }
    assert table[..k] == table;
  }
}
