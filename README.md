# Map generator definition rules, modelled in Dafny

This project models the part of the voxel engine's map generator Lua API
(`src/script/lua_api/l_mapgen.cpp`) that turns the definition tables supplied
by scripts into validated generator inputs:

- **Schematic assembly** (`read_schematic_def`): a size `(X, Y, Z)` and a list
  of node entries become a dense array of exactly `X·Y·Z` cells. Each cell's
  name goes through the replacement map. `param1` defaults to the "always
  place" byte and `param2` to 0. A per-Y-slice probability array starts as all
  "always" and is then overwritten by the in-range `yslice_prob` entries. A
  wrong number of entries yields no schematic.
- **Replacement tables** (`read_schematic_replacements`): `{from, to}` pairs
  and `from = to` fields are inserted into a map that never overwrites, so the
  first mapping for a name wins.
- **Biome lists** (`get_biome_list`): nil, a single biome, or a list of biomes
  is resolved into a set of biome indices, and the number of failures is
  returned. Biome lookup (and loading) is an outside operation that may fail.
  It is a parameter of the model.
- **Ore and decoration definitions** (`register_ore`, `register_decoration`,
  `read_deco_simple`, `read_deco_schematic`): accept/reject rules plus the
  defaults of every field.
- **Flag words** (`set_mapgen_params`, `set_gen_notify`): the update
  `(old & ~mask) | flags` and the deprecated `flagmask` field, which only
  clears bits.

The Lua stack is replaced by plain values:

- A definition table is a record whose fields are `Option`s (absent when the
  field is missing or unreadable). The exception is a schematic data entry's
  `param1` and `param2`: absent only when nil, and a non-nil value that is not
  a number reads as 0 (a never-placed cell for `param1`).
- A Lua list is a sequence, in the order the table is traversed.
- A 32-bit flag word is the set of its set bit positions (`FlagWord`). In that
  form `a & ~b` is `a - b` and `a | b` is `a + b`.
- A `u8` is a newtype, and C++ conversions to it keep the value modulo 256
  (`ToU8`).

The imperative routines are methods with loops:

- `ReadSchematicDef`, with its helpers `ReadSchematicData` and `ReadSliceProbs`,
  fills `array`s.
- `ReadSchematicReplacements` and `GetBiomeList` take the map or set the
  source updates through a pointer, and return its new value.
- The emerge manager, whose fields `set_mapgen_params` and `set_gen_notify`
  update in place, is a class.

Each method is proved against a specification: `ReadSliceProbs` against
`SliceProbs`, `ReadSchematicData` against the cell rule `IsCellOf`,
`ReadSchematicReplacements` against `InsertReplacements`, `GetBiomeList`
against `ResolvedBiomes` and `FailedIndices`, `SetMapgenParams` against
`ApplyParamsTable`, and `SetGenNotify` against `SetFlags` and `NumbersIn`.
Lemmas and the functions' own contracts then prove what the source promises
about those specifications.

Modules: `MapgenTypes` (types.dfy), `Schematics` (schematic.dfy), `BiomeLists`
(biomes.dfy), `MapgenFlags` (flags.dfy), `Ores` (ores.dfy), `Decorations`
(decorations.dfy).

## Model

| member | source | states |
|---|---|---|
| `Schematics.ReadSchematicDef` | src/script/lua_api/l_mapgen.cpp:285-372 | A schematic is produced iff the entry count equals X·Y·Z. It then has the definition's size, one cell per entry built by the cell rule, and the slice array `SliceProbs(Y, yslice_prob)`. |
| `Schematics.ReadSchematicData` | src/script/lua_api/l_mapgen.cpp:300-335 | The cell array has exactly `numnodes` cells and every entry is counted. Only entries below `numnodes` are stored. Each takes its name through the replacement map, param1 defaults to "always" and param2 to 0. |
| `Schematics.ReadSliceProbs` | src/script/lua_api/l_mapgen.cpp:345-360 | The slice array equals `SliceProbs(Y, entries)`: first all "always", then each entry applied in order. |
| `Schematics.SliceProbs` | src/script/lua_api/l_mapgen.cpp:346-348 | The slice array has exactly Y entries. |
| `Schematics.SliceUntouched` | src/script/lua_api/l_mapgen.cpp:353-357 | A slice that no entry names keeps its value. Out-of-range or missing `ypos` entries never change any slice. |
| `Schematics.SliceProbsDefault` | src/script/lua_api/l_mapgen.cpp:346-357 | A slice that no in-range entry names is "always". |
| `Schematics.SliceLastEntryWins` | src/script/lua_api/l_mapgen.cpp:354-356 | The last entry naming an in-range slice decides it. A missing `prob` means "always", and other values are truncated to a byte. |
| `Schematics.ReadSchematicReplacements` | src/script/lua_api/l_mapgen.cpp:375-401 | The resulting map is the given map with every entry inserted in order, in either form, never overwriting a key. |
| `Schematics.ReplacementKeys` | src/script/lua_api/l_mapgen.cpp:398 | After reading, the keys are the earlier keys plus every entry's `from`. |
| `Schematics.ReplacementKeepsExisting` | src/script/lua_api/l_mapgen.cpp:398 | A key present before reading keeps its value. |
| `Schematics.ReplacementFirstWins` | src/script/lua_api/l_mapgen.cpp:385-398 | For a new key, the first entry naming it decides its substitute, in pair or field form. |
| `BiomeLists.GetBiomeList` | src/script/lua_api/l_mapgen.cpp:214-259 | Nil gives 0 failures and adds nothing. A single biome gives 1 failure if it does not resolve, else 0. A list gives the number of entries that do not resolve, at most its length. The set grows by exactly the indices of the biomes that resolve. |
| `BiomeLists.FailuresAtMostEntries` | src/script/lua_api/l_mapgen.cpp:241-258 | The failure count of a list never exceeds its number of entries. |
| `MapgenFlags.SetFlags` | src/script/lua_api/l_mapgen.cpp:571-574 | After `(old & ~mask) \| flags`, every bit of `flags` is set and every masked bit outside `flags` is clear. Every bit outside `mask ∪ flags` is unchanged. |
| `MapgenFlags.ClearFlags` | src/script/lua_api/l_mapgen.cpp:567-569 | The deprecated `flagmask` clears the bits it names, leaves the others, and never sets a bit. |
| `MapgenFlags.UpdateFlagWord` | src/script/lua_api/l_mapgen.cpp:565-574 | After `flagmask` and then `flags`, the bits of `flags` are set and the other bits its mask names are clear. Bits only the deprecated mask names are clear. Bits neither names are unchanged. |
| `MapgenFlags.ApplyParamsTable` | src/script/lua_api/l_mapgen.cpp:547-574 | `mgname`, `seed` and `water_level` replace the old values when given. A new name drops the generator-specific parameters. The chunk size never changes, and the flags follow `UpdateFlagWord`. |
| `MapgenFlags.EmergeManager.SetMapgenParams` | src/script/lua_api/l_mapgen.cpp:542-577 | A non-table argument changes nothing. Otherwise the parameters become `ApplyParamsTable(old, table)`, and the notification state is untouched. |
| `MapgenFlags.EmergeManager.SetGenNotify` | src/script/lua_api/l_mapgen.cpp:599-619 | The notification word becomes `SetFlags(old, flags, mask)` when flags were read, and is unchanged otherwise. Every number of the id table is added to the decoration-id set. |
| `MapgenTypes.ToU8` | src/script/lua_api/l_mapgen.cpp:813 | A conversion to `u8` keeps values in 0..255 and is congruent to its input modulo 256. |
| `Ores.ReadOre` | src/script/lua_api/l_mapgen.cpp:804-860 | Accepts iff scarcity and ore count (default 1) are positive and noise is present or not required. A bad cluster is reported first. `y_min` comes from `y_min`, else `height_min`, else -31000, and `y_max` likewise with 31000. The noise flag is set iff noise parameters were read (or the flags field set it), and other flag bits come from the flags field. Every stored field is the definition's value or its default: scarcity and ore count 1, `clust_size` 0, `noise_threshhold` 0, `ore_param2` 0 truncated to a byte, names empty, and `random_factor` 1.0, which only veins carry. |
| `Ores.ReadOreDefAsWritten` | src/script/lua_api/l_mapgen.cpp:845-853 | As written, the missing-noise rejection never fires. A definition is accepted iff its cluster fields are positive. |
| `Ores.ReadOreDef` | src/script/lua_api/l_mapgen.cpp:845-853 | Every accepted ore of a noise-driven kind has noise parameters and the noise flag. Such an ore without noise is rejected. |
| `Ores.SheetWithoutNoiseAccepted` | src/script/lua_api/l_mapgen.cpp:848 | A sheet ore without `noise_params` is accepted as written and rejected by the corrected rule. |
| `Ores.RegisterOre` | src/script/lua_api/l_mapgen.cpp:862-866 | A rejected definition returns its error. Otherwise the manager's handle is returned, or `AddFailed` when the manager refuses. |
| `Decorations.ReadDecoSimple` | src/script/lua_api/l_mapgen.cpp:733-770 | Accepts iff height (default 1) is positive, the decoration list is non-empty, and `num_spawn_by` (default -1) is -1 or `spawn_by` is non-empty. The errors `BadHeight`, `NoDecorationNodes` and `NoSpawnByNodes` come in that order. An accepted decoration carries the decoration and `spawn_by` lists, and `height`, `height_max` and `num_spawn_by` as given or defaulted to 1, 0 and -1. |
| `Decorations.SimpleDefaults` | src/script/lua_api/l_mapgen.cpp:737-739 | With no height fields, the decoration has height 1, height_max 0 and num_spawn_by -1. |
| `Decorations.ReadDecoSchematic` | src/script/lua_api/l_mapgen.cpp:773-792 | Accepts iff the schematic loads with the replacements read first-wins into an empty map, and otherwise reports `NoSchematic`. The kind holds the loaded schematic and the rotation, which defaults to 0. |
| `Decorations.ReadDecorationDef` | src/script/lua_api/l_mapgen.cpp:647-720 | Rejects an unknown type, then `sidelen` (default 8) ≤ 0. L-system decorations are always rejected, and simple or schematic ones are accepted iff their reader accepts. y bounds default to ∓31000. `name` defaults to "", `fill_ratio` to 0.02 and `sidelen` to 8. The stored kind and any rejection are exactly what the kind's reader returns. The biome set is the resolved biomes, the noise parameters are those read, and the noise flag is set iff noise parameters were read. |
| `Decorations.BiomeFailuresNeverReject` | src/script/lua_api/l_mapgen.cpp:696-700 | Whether a decoration is accepted never depends on which of its biomes resolve. |
| `Decorations.RegisterDecoration` | src/script/lua_api/l_mapgen.cpp:717-729 | A rejected definition returns its error. Otherwise the manager's handle is returned, or `AddFailed` when the manager refuses. |

## Findings

| source | as written | input that shows it | evidently intended | confidence | as-written member | corrected member |
|---|---|---|---|---|---|---|
| src/script/lua_api/l_mapgen.cpp:848 | `ore->NEEDS_NOISE` reads a static constant through a pointer to the base class `Ore`. C++ resolves that at compile time to `Ore::NEEDS_NOISE`, whatever the ore's kind. Scattered ores without noise are accepted, so that value is false, and the "requires valid noise parameters" branch can never fire. | `ore_type = "sheet"` with no `noise_params` (`SHEET_WITHOUT_NOISE`) | Reject an ore without noise parameters when its own kind needs noise (sheet, blob, vein). | medium, not executed (the kinds' declarations are not part of this model) | `Ores.ReadOreDefAsWritten` | `Ores.ReadOreDef` |

## Left out

- The Lua C API (stack handling, `lua_next`, userdata, metatables) is replaced by input records.
- Lua errors raised by `luaL_check*` abort a call; the model takes a schematic's `data` table and each entry's `name` as present.
- Traversal order of Lua tables with non-sequence keys is unspecified; the model takes the order of the sequence given.
- Node-name resolution (`MapNode(ndef, name, …)`, `pendNodeResolve`) is left out. Cells keep the node name. Ore and decoration records keep the names to resolve.
- The object managers (`create`, `add`, `get`, `getByName`, `clear`) are outside code. `add`, biome lookup and schematic loading are parameters that may fail. `create` is assumed to succeed for every ore kind.
- Whether the decoration manager's `create` already refuses L-system decorations is not visible here. Either way they are rejected.
- Ores.RegisterOre: registers under the corrected noise rule (`ReadOreDef`). As written, the source also registers a sheet, blob or vein ore without noise parameters (see Findings; `ReadOreDefAsWritten` models that acceptance).
- Ores.ReadOre: the ore kinds' declarations are not part of this model, so the per-kind noise requirement (scatter: none; sheet, blob, vein: noise) is a modelling decision.
- The header constants are not part of this model and are taken as: "always place" byte 0xFF, `OREFLAG_USE_NOISE` 0x08, `DECO_USE_NOISE` 0x08. A decoration's flag word is taken to start at 0 before its flags field.
- Flag-string parsing (`readFlagString`, `read_flags`) is outside code. Flags fields arrive already parsed, as the bits set and the bits named.
- Schematics.ReadSchematicDef: size components are taken as non-negative and their product as unbounded. The source's signed 16-bit components and `int` product, and `new[]` of a negative count, are not modelled.
- Schematics.ReadSchematicData: a numeric `param1`/`param2` is a Lua number (a double). The model takes integers and keeps them modulo 256. Converting an out-of-range double is undefined in C++.
- Schematics.ReadSchematicReplacements: keys are taken to be strings. Numeric keys (which `lua_tostring` converts in place during traversal) and pair entries missing an element are not modelled.
- Schematics.ReadSchematicReplacements and BiomeLists.GetBiomeList update a caller's map or set through a pointer. The model passes its value in and returns the new value.
- BiomeLists.GetBiomeList: loading a biome from a definition table registers it, which can change later lookups. The model treats lookup as a fixed partial function. The running `count` only feeds an error message.
- Integer widths of fields declared in headers not part of this model are not modelled. This covers the `s16` y bounds, `seed` narrowed to `int`, and decoration ids narrowed to `u32`.
- Floating-point fields (`fill_ratio`, `noise_threshhold`, `random_factor`, noise parameters, biome heat and humidity) are kept uninterpreted.
- `load_schematic`, `get_or_load_schematic`, `register_schematic`, `create_schematic` and `place_schematic` are left out. They need schematic files, the world map and the schematic manager. Decorations reach a schematic only through the `load` parameter.
- `get_mapgen_object` and `get_mapgen_params` only copy engine state into Lua tables. `set_noiseparams` writes global settings. `generate_ores` and `generate_decorations` call placement code not part of this model.
- `register_biome` / `read_biome_def` and the `clear_registered_*` calls are left out. They only fill or empty a registry.
- The MapgenParams record in src/mapgen.h does not declare the generator name or generator-specific parameters that `set_mapgen_params` updates. The model adds both.
- Error and warning log output is not modelled.
