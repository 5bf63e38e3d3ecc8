# MCEdit schematic reader

A Dafny model of WorldEdit's reader for legacy MCEdit ("Alpha") schematics:
`MCEditSchematicReader.read()` and its two identifier-rename tables
`convertEntityId` and `convertBlockEntityId`.

The reader takes the root tag of an already parsed NBT tree. It turns that tree
into a block-array clipboard in five stages:

1. **Header validation** (`SchematicReader.ReadHeader`). The root must be called
   `Schematic`, must carry `Blocks`, and must have `Materials` = `"Alpha"`.
2. **Metadata** (`ReadMetadata`). The dimensions are required short tags. The
   six `WEOrigin*`/`WEOffset*` int tags are all-or-nothing: any one missing or
   mistyped drops the whole group to zero.
3. **Legacy block ids** (`LegacyIds.ReconstructIds`). A 12-bit id is built per
   cell from the `Blocks` byte and a nibble of the optional `AddBlocks` array.
   Two neighbouring cells share one `AddBlocks` byte.
4. **Tile entities** (`CollectTileEntities`). Each tile entity's id is
   normalised and the ordered block compatibility-handler chain is run. The
   pass fills two maps: the tile-entity values, and the block overrides where
   the chain's block differs from the resolved one.
5. **Placement and entities** (`PlaceBlocks`, `AddEntities`). Every cell of the
   `width x height x length` volume that receives a block state is written at
   the region's minimum plus the cell; the others stay empty. Entities are decoded through the entity rename table and the entity
   handler chain.

`MCEditSchematicReader.Read` runs the stages in order. It either returns the
first structural error with no clipboard, or a fresh clipboard plus the
warnings the source logs.

The collaborators are parameters, gathered in `SchematicReader.Env`:

- the legacy block table, a function from (id, data) to an optional block state;
- the two ordered handler lists, each handler a recogniser plus an update;
- the entity-type registry, a partial map.

The loops are methods with invariants. Each one is proved equal to a
specification function:

- a left fold over the list for the tile-entity and entity passes;
- a per-cell function for placement.

The properties are proved about those functions.

Modules:

- `Nbt`: the tag tree, errors, `Result`, and the tag accessors.
- `Geometry`: vectors, the cuboid region, and the flat index.
- `LegacyIds`: id packing.
- `Compat`: the handler chains.
- `Renames`: the two rename tables.
- `Clipboards`: the clipboard class.
- `SchematicReader`: the reader.

Two behaviours of the code worth stating:

- A handler chain that returns `null` records a `null` override. Placement then
  leaves that cell empty and logs nothing (lines 206-207, 220-236). The previous
  block state is not kept.
- Take two cells sharing the `AddBlocks` byte `0x1F`, with `Blocks` bytes
  `0x05` and `0x0A`. They reconstruct to `0xF05` (even cell, low nibble) and
  `0x10A` (odd cell, high nibble). See `LegacyIds.PackingExample`.

## Model

| member | source | states |
|---|---|---|
| Nbt.RequireTag | worldedit-core/src/main/java/com/sk89q/worldedit/extent/clipboard/io/MCEditSchematicReader.java:109 | `requireTag` succeeds exactly when the key is present with the requested tag class, and then yields that entry; a missing key and a wrong class are distinct errors |
| Nbt.GetTag | worldedit-core/src/main/java/com/sk89q/worldedit/extent/clipboard/io/MCEditSchematicReader.java:247 | `getTag` yields the entry exactly when `requireTag` would succeed, and is absent otherwise rather than failing |
| Nbt.GetInt | worldedit-core/src/main/java/com/sk89q/worldedit/extent/clipboard/io/MCEditSchematicReader.java:182-184 | `getInt` yields the int entry exactly when `getTag` finds an int tag there, and 0 otherwise |
| Nbt.GetString | worldedit-core/src/main/java/com/sk89q/worldedit/extent/clipboard/io/MCEditSchematicReader.java:185 | `getString` yields the string entry exactly when `getTag` finds a string tag there, and "" otherwise |
| Nbt.GetList | worldedit-core/src/main/java/com/sk89q/worldedit/extent/clipboard/io/MCEditSchematicReader.java:254 | `getListTag` yields the list entry's elements exactly when `getTag` finds a list tag there, and no elements otherwise |
| Nbt.Wrap32 | worldedit-core/src/main/java/com/sk89q/worldedit/extent/clipboard/io/MCEditSchematicReader.java:190 | Java `int` arithmetic: a value already in the 32-bit signed range is unchanged, and every result differs from the exact value by a multiple of 2^32 |
| Nbt.WrapNested | worldedit-core/src/main/java/com/sk89q/worldedit/extent/clipboard/io/MCEditSchematicReader.java:190 | evaluating `a * b + c + d` with a wrap after every operation, as Java does, gives the wrapped exact value |
| SchematicReader.HeaderErrors | worldedit-core/src/main/java/com/sk89q/worldedit/extent/clipboard/io/MCEditSchematicReader.java:96-112 | a root not named `Schematic`, a compound without `Blocks`, and a `Materials` other than `Alpha` each give their own error; the header is accepted iff none applies, and then yields the root compound's entries |
| SchematicReader.ReadHeader | worldedit-core/src/main/java/com/sk89q/worldedit/extent/clipboard/io/MCEditSchematicReader.java:96-112 | an accepted header has a root named `Schematic` whose tag is a compound with `Blocks` and `Materials` = `Alpha`, and yields that compound's entries |
| SchematicReader.PrepareHeaderErrors | worldedit-core/src/main/java/com/sk89q/worldedit/extent/clipboard/io/MCEditSchematicReader.java:96-112 | every header error aborts the whole read with that error; an accepted read has `Materials` = `Alpha` |
| SchematicReader.ReadMetadata | worldedit-core/src/main/java/com/sk89q/worldedit/extent/clipboard/io/MCEditSchematicReader.java:122-142 | a successful read takes width, height and length from the `Width`, `Height` and `Length` short tags, and the region is always the `width x height x length` cuboid from its first corner: corner to corner + (W,H,L) - 1 |
| SchematicReader.MetadataErrors | worldedit-core/src/main/java/com/sk89q/worldedit/extent/clipboard/io/MCEditSchematicReader.java:122-124 | the metadata fails exactly when one of `Width`, `Height`, `Length` is missing or not a short tag |
| SchematicReader.OriginGroup | worldedit-core/src/main/java/com/sk89q/worldedit/extent/clipboard/io/MCEditSchematicReader.java:126-135 | the origin group succeeds exactly when all six `WEOrigin*`/`WEOffset*` entries are int tags, and then yields the corner and the offset read from them |
| SchematicReader.OriginAllOrNothing | worldedit-core/src/main/java/com/sk89q/worldedit/extent/clipboard/io/MCEditSchematicReader.java:122-142 | once `Width`, `Height` and `Length` are short tags the metadata read succeeds with those dimensions, whatever the origin group holds; with all six origin/offset int tags, origin = min - offset and the region spans [min, min + (W,H,L) - 1]; with any one missing or mistyped, origin = (0,0,0) and the region spans [0, (W,H,L) - 1] |
| SchematicReader.Prepare | worldedit-core/src/main/java/com/sk89q/worldedit/extent/clipboard/io/MCEditSchematicReader.java:96-174 | preparation succeeds exactly when the header and the metadata pass, `Blocks` and `Data` are byte arrays, `AddBlocks` is a byte array when present and `TileEntities` is a list; then its arrays and lists are exactly the `Blocks`, `Data`, `AddBlocks` (when present), `TileEntities` and `Entities` (when present) entries of the schematic |
| SchematicReader.PrepareAddBlocks | worldedit-core/src/main/java/com/sk89q/worldedit/extent/clipboard/io/MCEditSchematicReader.java:149-158 | a present but mistyped `AddBlocks` is an error; an absent one leaves the extension array empty; a successful read had a `TileEntities` entry |
| SchematicReader.EntitiesOptional | worldedit-core/src/main/java/com/sk89q/worldedit/extent/clipboard/io/MCEditSchematicReader.java:247-248 | a schematic whose other tags pass is accepted whether or not `Entities` is present; the entity list is absent exactly when `Entities` is missing or not a list |
| LegacyIds.Unsigned | worldedit-core/src/main/java/com/sk89q/worldedit/extent/clipboard/io/MCEditSchematicReader.java:163 | `b & 0xFF` lies in [0, 255]: a non-negative byte unchanged, a negative one plus 256 |
| LegacyIds.LegacyId | worldedit-core/src/main/java/com/sk89q/worldedit/extent/clipboard/io/MCEditSchematicReader.java:161-170 | every reconstructed id lies in [0, 4095] and its low 8 bits are the cell's `Blocks` byte read as unsigned |
| LegacyIds.LegacyIdArray | worldedit-core/src/main/java/com/sk89q/worldedit/extent/clipboard/io/MCEditSchematicReader.java:152 | the reconstructed array has one id per `Blocks` byte |
| LegacyIds.ReconstructIds | worldedit-core/src/main/java/com/sk89q/worldedit/extent/clipboard/io/MCEditSchematicReader.java:151-171 | the loop fills a fresh array as long as `Blocks` whose every cell holds that cell's legacy id |
| LegacyIds.UncoveredId | worldedit-core/src/main/java/com/sk89q/worldedit/extent/clipboard/io/MCEditSchematicReader.java:151-163 | a cell with `index >> 1 >= |AddBlocks|` (every cell when it is absent) has id `Blocks[index] & 0xFF`, in [0, 255] |
| LegacyIds.CoveredId | worldedit-core/src/main/java/com/sk89q/worldedit/extent/clipboard/io/MCEditSchematicReader.java:164-170 | a covered cell's id lies in [0, 4095] and its low 8 bits are the `Blocks` byte; bits 8-11 are the low nibble of the shared byte for an even index and the high nibble for an odd one |
| LegacyIds.PackingExample | worldedit-core/src/main/java/com/sk89q/worldedit/extent/clipboard/io/MCEditSchematicReader.java:164-170 | `Blocks` [0x05, 0x0A] with `AddBlocks` [0x1F] reconstruct to [0xF05, 0x10A] |
| LegacyIds.ReconstructInvertsPacking | worldedit-core/src/main/java/com/sk89q/worldedit/extent/clipboard/io/MCEditSchematicReader.java:154-171 | splitting any list of 12-bit ids into a low-byte array and a two-nibbles-per-byte array, then reconstructing, gives the list back |
| Geometry.Region.Minimum | worldedit-core/src/main/java/com/sk89q/worldedit/extent/clipboard/io/MCEditSchematicReader.java:228 | the region's minimum point is, per axis, the smaller of its two corners |
| Geometry.Region.Maximum | worldedit-core/src/main/java/com/sk89q/worldedit/extent/clipboard/io/MCEditSchematicReader.java:228-230 | the region's maximum point, which bounds the cells `setBlock` accepts, is per axis the larger of its two corners |
| Geometry.FlatIndex | worldedit-core/src/main/java/com/sk89q/worldedit/extent/clipboard/io/MCEditSchematicReader.java:190 | defines the flat index `y*W*L + z*W + x`; its range, injectivity and coverage of the volume are stated by the three rows below |
| Geometry.FlatIndexInRange | worldedit-core/src/main/java/com/sk89q/worldedit/extent/clipboard/io/MCEditSchematicReader.java:215-218 | for 0 <= x < W, 0 <= y < H, 0 <= z < L the index `y*W*L + z*W + x` lies in [0, W*H*L) |
| Geometry.FlatIndexInjective | worldedit-core/src/main/java/com/sk89q/worldedit/extent/clipboard/io/MCEditSchematicReader.java:215-219 | distinct cells of the volume have distinct indices, so the placement loop reads each array cell at most once |
| Geometry.FlatIndexOnto | worldedit-core/src/main/java/com/sk89q/worldedit/extent/clipboard/io/MCEditSchematicReader.java:215-219 | every index in [0, W*H*L) is the index of a cell of the volume, so each array cell is read exactly once |
| Renames.Rename | worldedit-core/src/main/java/com/sk89q/worldedit/extent/clipboard/io/MCEditSchematicReader.java:277-339 | a name in a rename table maps to its entry, every other name to itself |
| Renames.ConvertEntityId | worldedit-core/src/main/java/com/sk89q/worldedit/extent/clipboard/io/MCEditSchematicReader.java:277-318 | names outside the table are returned unchanged; the result is empty iff the name is; `PigZombie` becomes `zombie_pigman` |
| Renames.ConvertBlockEntityId | worldedit-core/src/main/java/com/sk89q/worldedit/extent/clipboard/io/MCEditSchematicReader.java:320-339 | names outside the table are returned unchanged; `Music` and `noteblock` both become `note_block`; the result is empty iff the name is |
| Renames.EntityNamesCapitalised | worldedit-core/src/main/java/com/sk89q/worldedit/extent/clipboard/io/MCEditSchematicReader.java:279-315 | every old entity name starts with a capital letter |
| Renames.EntityIdsLowerCase | worldedit-core/src/main/java/com/sk89q/worldedit/extent/clipboard/io/MCEditSchematicReader.java:279-315 | every new entity identifier starts with a lower-case letter |
| Renames.EntityRenamesAreFinal | worldedit-core/src/main/java/com/sk89q/worldedit/extent/clipboard/io/MCEditSchematicReader.java:279-316 | no new entity identifier is itself an old name |
| Renames.BlockEntityRenamesAreFinal | worldedit-core/src/main/java/com/sk89q/worldedit/extent/clipboard/io/MCEditSchematicReader.java:322-337 | no new tile-entity identifier is itself an old name |
| Renames.ConvertIdempotent | worldedit-core/src/main/java/com/sk89q/worldedit/extent/clipboard/io/MCEditSchematicReader.java:277-339 | converting an already converted id changes nothing, for both tables |
| Renames.BlockEntityRenamesInjective | worldedit-core/src/main/java/com/sk89q/worldedit/extent/clipboard/io/MCEditSchematicReader.java:333-335 | the only two old tile-entity names sharing a new one are `Music` and `noteblock` |
| Renames.LowerChar | worldedit-core/src/main/java/com/sk89q/worldedit/extent/clipboard/io/MCEditSchematicReader.java:257 | an ASCII capital becomes the matching lower-case letter (its code plus 32); any other character is unchanged |
| Renames.ToLower | worldedit-core/src/main/java/com/sk89q/worldedit/extent/clipboard/io/MCEditSchematicReader.java:257 | `toLowerCase` keeps the length and lower-cases each character |
| Compat.ApplyBlockHandlers | worldedit-core/src/main/java/com/sk89q/worldedit/extent/clipboard/io/MCEditSchematicReader.java:192-202 | the handler loop with its running block, shared values and `break` computes the block chain: each handler is asked about the running block, is given the original block, and the chain stops at the first null |
| Compat.BlockChain | worldedit-core/src/main/java/com/sk89q/worldedit/extent/clipboard/io/MCEditSchematicReader.java:192-202 | defines the block handler chain: each handler is asked about the running block, is given the originally resolved block, and the chain stops at the first null; ApplyBlockHandlers, BlockChainAppend and BlockChainResultOrigin state its properties |
| Compat.BlockChainUnaffected | worldedit-core/src/main/java/com/sk89q/worldedit/extent/clipboard/io/MCEditSchematicReader.java:193-202 | when no handler recognises the block, the chain keeps the block and the values |
| Compat.BlockChainAppend | worldedit-core/src/main/java/com/sk89q/worldedit/extent/clipboard/io/MCEditSchematicReader.java:194-200 | handlers run in registration order: running a concatenation is running the first part, then the second on its result, unless the first part ended on null, after which no handler runs |
| Compat.BlockChainResultOrigin | worldedit-core/src/main/java/com/sk89q/worldedit/extent/clipboard/io/MCEditSchematicReader.java:196 | the chain's block is the starting block, null, or what some handler returned when given the originally resolved block |
| Compat.ApplyEntityHandlers | worldedit-core/src/main/java/com/sk89q/worldedit/extent/clipboard/io/MCEditSchematicReader.java:259-263 | the entity handler loop computes the entity chain, each affected handler seeing the previous handler's compound |
| Compat.EntityChain | worldedit-core/src/main/java/com/sk89q/worldedit/extent/clipboard/io/MCEditSchematicReader.java:259-263 | defines the entity handler chain: each affected handler rewrites the compound the previous one left; ApplyEntityHandlers and EntityChainAppend state its properties |
| Compat.EntityChainUnaffected | worldedit-core/src/main/java/com/sk89q/worldedit/extent/clipboard/io/MCEditSchematicReader.java:259-263 | an entity no handler recognises keeps its compound |
| Compat.EntityChainAppend | worldedit-core/src/main/java/com/sk89q/worldedit/extent/clipboard/io/MCEditSchematicReader.java:259-263 | entity handlers compose in registration order |
| SchematicReader.TilePass | worldedit-core/src/main/java/com/sk89q/worldedit/extent/clipboard/io/MCEditSchematicReader.java:178-209 | the tile-entity pass as a left fold over the list; every override position also has a tile entity |
| SchematicReader.CollectTileEntities | worldedit-core/src/main/java/com/sk89q/worldedit/extent/clipboard/io/MCEditSchematicReader.java:174-209 | the tile-entity loop leaves the two maps equal to the fold of the per-tag step over the list |
| SchematicReader.CollectTile | worldedit-core/src/main/java/com/sk89q/worldedit/extent/clipboard/io/MCEditSchematicReader.java:179-208 | one element of the tile-entity list: both maps become what the per-tag step gives, with the cell read at the Java-wrapped 32-bit index |
| SchematicReader.JavaTileIndexWraps | worldedit-core/src/main/java/com/sk89q/worldedit/extent/clipboard/io/MCEditSchematicReader.java:190 | the tile index as Java computes it, wrapping after every multiplication and addition, equals the exact flat index wrapped once to 32 bits |
| SchematicReader.TileIndexWrapExample | worldedit-core/src/main/java/com/sk89q/worldedit/extent/clipboard/io/MCEditSchematicReader.java:190 | a tile at (2, 2^31 - 1, 0) in a 2-wide, 1-long volume has exact index 2^32, which Java wraps to cell 0 |
| SchematicReader.NormalisedValues | worldedit-core/src/main/java/com/sk89q/worldedit/extent/clipboard/io/MCEditSchematicReader.java:187-188 | the tile entity's values keep every entry except `id`, which becomes the converted block-entity id |
| SchematicReader.TileIndex | worldedit-core/src/main/java/com/sk89q/worldedit/extent/clipboard/io/MCEditSchematicReader.java:190 | defines the index a tile entity reads: its exact flat index wrapped to a Java `int`; JavaTileIndexWraps states that this is the value line 190 computes operation by operation |
| SchematicReader.JavaTileIndex | worldedit-core/src/main/java/com/sk89q/worldedit/extent/clipboard/io/MCEditSchematicReader.java:190 | defines the index as line 190 evaluates it, wrapping after each `*` and `+`; JavaTileIndexWraps and TileIndexWrapExample state its outcomes |
| SchematicReader.TileBlock | worldedit-core/src/main/java/com/sk89q/worldedit/extent/clipboard/io/MCEditSchematicReader.java:191 | defines the block the legacy table gives for a tile entity's cell, read at the wrapped index; LastTileAt and OverrideKeys state its outcomes |
| SchematicReader.TileUpdate | worldedit-core/src/main/java/com/sk89q/worldedit/extent/clipboard/io/MCEditSchematicReader.java:192-202 | defines what the block handler chain makes of a tile entity: the chain runs only when the looked-up block is not null, otherwise block and normalised values stay as they are; LastTileAt states its outcomes |
| SchematicReader.Overrides | worldedit-core/src/main/java/com/sk89q/worldedit/extent/clipboard/io/MCEditSchematicReader.java:206 | defines when a tile entity records an override: the chain's block differs from the looked-up one, null included; OverrideKeys and LastTileAt state its outcomes |
| SchematicReader.TileStep | worldedit-core/src/main/java/com/sk89q/worldedit/extent/clipboard/io/MCEditSchematicReader.java:179-208 | one tag: a non-compound changes nothing; a compound stores the chain's values at its position, records the chain's block there when it differs from the resolved block and otherwise keeps any earlier override; nothing at another position changes |
| SchematicReader.TileKeys | worldedit-core/src/main/java/com/sk89q/worldedit/extent/clipboard/io/MCEditSchematicReader.java:178-205 | the tile-entity map has an entry at a position iff some compound element of the list has those coordinates; other elements are skipped |
| SchematicReader.OverrideKeys | worldedit-core/src/main/java/com/sk89q/worldedit/extent/clipboard/io/MCEditSchematicReader.java:193-208 | the override map has an entry at a position iff some compound element at that position has a chain block different from its resolved block, null included; an unchanged block never records one |
| SchematicReader.OtherTilesKeep | worldedit-core/src/main/java/com/sk89q/worldedit/extent/clipboard/io/MCEditSchematicReader.java:204-208 | tags at other positions leave the tile entity and the override stored at a position unchanged |
| SchematicReader.LastTileAt | worldedit-core/src/main/java/com/sk89q/worldedit/extent/clipboard/io/MCEditSchematicReader.java:185-208 | for a tag after which no other compound sits at its position: its position holds its id-normalised values as the chain left them, or the values alone when its block is unknown; an override holding the chain's block is recorded there iff the chain's block differs from the resolved one, null included; otherwise the earlier override there, if any, is kept |
| SchematicReader.CellInBounds | worldedit-core/src/main/java/com/sk89q/worldedit/extent/clipboard/io/MCEditSchematicReader.java:218-223 | every cell of the volume indexes inside `Blocks` and `Data` when they cover the volume |
| SchematicReader.CellState | worldedit-core/src/main/java/com/sk89q/worldedit/extent/clipboard/io/MCEditSchematicReader.java:220-223 | defines the state a cell gets: the override when its position has one, possibly null, else the legacy lookup; PlacementCell states the outcomes |
| SchematicReader.CellBlock | worldedit-core/src/main/java/com/sk89q/worldedit/extent/clipboard/io/MCEditSchematicReader.java:226-231 | defines the block a cell receives, with its tile entity attached when it has one; PlacementCell states the outcomes |
| SchematicReader.PlacementCell | worldedit-core/src/main/java/com/sk89q/worldedit/extent/clipboard/io/MCEditSchematicReader.java:220-236 | an overridden cell takes the override, and a null override leaves it empty with no warning; otherwise the legacy lookup decides, and a failed lookup leaves the cell empty and logs its id and data; a written block, overridden or looked up, carries the cell's tile entity when it has one and none otherwise |
| SchematicReader.CellWarnings | worldedit-core/src/main/java/com/sk89q/worldedit/extent/clipboard/io/MCEditSchematicReader.java:232-235 | a cell logs at most one warning, and only an unknown-block warning for a cell with no override and no state |
| SchematicReader.CellWarningIff | worldedit-core/src/main/java/com/sk89q/worldedit/extent/clipboard/io/MCEditSchematicReader.java:220-235 | a cell logs a warning iff it has no override and gets no block, and the warning is its own id and data |
| SchematicReader.ColumnWarningsOf | worldedit-core/src/main/java/com/sk89q/worldedit/extent/clipboard/io/MCEditSchematicReader.java:217-239 | the inner loop logs exactly the warnings of its cells |
| SchematicReader.SliceWarningsOf | worldedit-core/src/main/java/com/sk89q/worldedit/extent/clipboard/io/MCEditSchematicReader.java:216-240 | the middle loop logs exactly the warnings of its cells |
| SchematicReader.PlacementWarningsOf | worldedit-core/src/main/java/com/sk89q/worldedit/extent/clipboard/io/MCEditSchematicReader.java:215-241 | the outer loop logs exactly the warnings of the cells it has visited |
| SchematicReader.UnknownBlockWarning | worldedit-core/src/main/java/com/sk89q/worldedit/extent/clipboard/io/MCEditSchematicReader.java:215-241 | placement warns exactly about the cells with no override and no block, each by its legacy id and data |
| SchematicReader.RegionHoldsVolume | worldedit-core/src/main/java/com/sk89q/worldedit/extent/clipboard/io/MCEditSchematicReader.java:228-230 | every cell of the volume, moved to the region's minimum, lies inside the region, so no `setBlock` is refused |
| SchematicReader.PlaceCell | worldedit-core/src/main/java/com/sk89q/worldedit/extent/clipboard/io/MCEditSchematicReader.java:218-238 | one cell: the clipboard gains the cell's block at minimum + cell, or nothing, and the cell's warning is logged |
| SchematicReader.PlaceColumn | worldedit-core/src/main/java/com/sk89q/worldedit/extent/clipboard/io/MCEditSchematicReader.java:217-239 | the z loop extends the placed prefix by one row |
| SchematicReader.PlaceSlice | worldedit-core/src/main/java/com/sk89q/worldedit/extent/clipboard/io/MCEditSchematicReader.java:216-240 | the y loop extends the placed prefix by one slice |
| SchematicReader.PlaceBlocks | worldedit-core/src/main/java/com/sk89q/worldedit/extent/clipboard/io/MCEditSchematicReader.java:215-241 | the clipboard ends up holding exactly the cells that receive a block, each at the region's minimum plus the cell with its per-cell block; the warnings are the cells' warnings in x, y, z loop order |
| SchematicReader.PlaceStep | worldedit-core/src/main/java/com/sk89q/worldedit/extent/clipboard/io/MCEditSchematicReader.java:217-239 | placing one cell advances the placed prefix past that cell |
| SchematicReader.NextRow | worldedit-core/src/main/java/com/sk89q/worldedit/extent/clipboard/io/MCEditSchematicReader.java:216-217 | a finished row is the prefix up to the next row |
| SchematicReader.NextSlice | worldedit-core/src/main/java/com/sk89q/worldedit/extent/clipboard/io/MCEditSchematicReader.java:215-216 | a finished slice is the prefix up to the next slice |
| SchematicReader.PlacedAll | worldedit-core/src/main/java/com/sk89q/worldedit/extent/clipboard/io/MCEditSchematicReader.java:215-241 | the prefix after the last slice is the whole volume placed |
| SchematicReader.EntityRules | worldedit-core/src/main/java/com/sk89q/worldedit/extent/clipboard/io/MCEditSchematicReader.java:251-268 | an element that is not a compound, or whose id is empty, is skipped silently; an id whose converted lower-case form is unknown is skipped with a warning naming that form; otherwise an entity of that type is created with the compound the handlers leave, at the location read from that compound's own `Pos` and `Rotation` before the handlers run |
| SchematicReader.DecodeEntity | worldedit-core/src/main/java/com/sk89q/worldedit/extent/clipboard/io/MCEditSchematicReader.java:251-269 | a created entity comes from a compound, has a type from the registry and sits at the location read from the compound's `Pos` and `Rotation`; an unknown outcome comes from a compound and names a non-empty id the registry lacks |
| SchematicReader.AddEntity | worldedit-core/src/main/java/com/sk89q/worldedit/extent/clipboard/io/MCEditSchematicReader.java:251-269 | one element: the clipboard's entity list gains its entity, if any, and its warning, if any, is returned |
| SchematicReader.AddEntities | worldedit-core/src/main/java/com/sk89q/worldedit/extent/clipboard/io/MCEditSchematicReader.java:247-272 | the entity loop appends the decoded entities in list order and returns the warnings in list order |
| SchematicReader.EntitiesAccounted | worldedit-core/src/main/java/com/sk89q/worldedit/extent/clipboard/io/MCEditSchematicReader.java:250-271 | each list element yields at most one entity or one warning; every created entity has a type from the registry |
| SchematicReader.CreatedEntitiesOf | worldedit-core/src/main/java/com/sk89q/worldedit/extent/clipboard/io/MCEditSchematicReader.java:250-271 | an entity is created iff some list element decodes to it |
| SchematicReader.EntityWarningsOf | worldedit-core/src/main/java/com/sk89q/worldedit/extent/clipboard/io/MCEditSchematicReader.java:266-268 | an unknown-entity warning for a name is logged iff some list element decodes to that unknown name |
| Clipboards.Clipboard.constructor | worldedit-core/src/main/java/com/sk89q/worldedit/extent/clipboard/io/MCEditSchematicReader.java:211 | a new clipboard over a region is empty and keeps every block inside its region |
| Clipboards.Clipboard.SetOrigin | worldedit-core/src/main/java/com/sk89q/worldedit/extent/clipboard/io/MCEditSchematicReader.java:212 | sets the origin and nothing else |
| Clipboards.Clipboard.SetBlock | worldedit-core/src/main/java/com/sk89q/worldedit/extent/clipboard/io/MCEditSchematicReader.java:228-230 | stores the block exactly when the region contains the position, and reports whether it did |
| Clipboards.Clipboard.CreateEntity | worldedit-core/src/main/java/com/sk89q/worldedit/extent/clipboard/io/MCEditSchematicReader.java:265 | appends the entity at its location |
| SchematicReader.MCEditSchematicReader.constructor | worldedit-core/src/main/java/com/sk89q/worldedit/extent/clipboard/io/MCEditSchematicReader.java:88-91 | the reader keeps its input |
| SchematicReader.MCEditSchematicReader.Read | worldedit-core/src/main/java/com/sk89q/worldedit/extent/clipboard/io/MCEditSchematicReader.java:94-275 | a read fails iff validation fails, with that error, no clipboard and no warnings; otherwise a fresh clipboard has the metadata's region and origin, exactly the placed cells, and the decoded entities, and the warnings are the placement warnings followed by the entity warnings |
| SchematicReader.MCEditSchematicReader.Build | worldedit-core/src/main/java/com/sk89q/worldedit/extent/clipboard/io/MCEditSchematicReader.java:161-275 | once the tags are validated: a fresh clipboard over the metadata's region and origin holds exactly the placed cells and the decoded entities, and the warnings are the placement warnings followed by the entity warnings |

## Left out

- Parsing the binary NBT stream (`readNamedTag`, line 96) is not part of this model. The reader starts from the root tag as a value.
- `close()` (lines 341-344) is stream I/O and is not modelled.
- Logging (lines 234, 267) is modelled as a returned sequence of `Warning` values. The message text is not modelled.
- The collaborators are parameters in `Env`: `LegacyMapper`'s table, the concrete compatibility handlers (sign, flower pot, note block, skull, pre-1.13 hanging entity), the `EntityTypes` registry, and `BlockState.toBaseBlock`. Their contents are not modelled.
- `NBTConversions.toLocation` (line 254) is not part of this model. An entity's location keeps the raw `Pos` and `Rotation` list elements.
- The jnbt `CompoundTag` accessors `getInt`, `getString` and `getListTag` are implemented outside the reader's source. The model (`Nbt.GetInt`, `Nbt.GetString`, `Nbt.GetList`) assumes they return the entry's value when it is present with that class, and 0, "" and an empty list otherwise.
- The clipboard (`BlockArrayClipboard`) is implemented outside the reader's source. The model (`Clipboards.Clipboard`) assumes it holds a map from positions to blocks plus an entity list, and refuses positions outside its region; its array storage is not modelled.
- SchematicReader.MCEditSchematicReader.Read: requires that every array index the source computes is in bounds. The source does not check tile-entity coordinates, or `Blocks`/`Data` shorter than the volume (lines 190-191, 218-223), and would throw an index exception. The model states these as a precondition instead of modelling the exception.
- SchematicReader.PlaceBlocks: the placement index is computed on unbounded integers. Java arrays hold fewer than 2^31 entries, so when `Blocks` covers the volume this index never wraps in the source. The model does not bound the arrays' length by that limit.
- SchematicReader.TileStep: the override test `newBlock != block` compares block states by value. The source compares object identity, so a handler result equal to the resolved block but a distinct object records an override in the source and none in the model. Usually that override writes the same state. It differs when an earlier tile entity at the same cell recorded an override, null or another state: the source replaces that override with the later state and places it, while the model keeps the earlier override (leaving the cell empty when it was null, placing the other state otherwise).
- Geometry.Add: block vectors are unbounded integers. The source's 32-bit wrap-around in `BlockVector3` arithmetic is not modelled.
- SchematicReader.ReadHeader: a root tag that is not a compound is reported as the error `RootNotCompound`. In the source the cast at line 100 throws a `ClassCastException`.
- Renames.ToLower: `toLowerCase` is modelled on ASCII letters only.
- The handler lists' fixed contents (lines 67-78) are left out. The model takes any ordered list.
- The command glue (`GeneralCommands`, `WorldEditCommands`) and `TranslationManager` are outside the reader and are not modelled.
