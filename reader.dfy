/**
 * The MCEdit ("Alpha") schematic reader: header validation, metadata,
 * block-id reconstruction, the tile-entity pass, block placement and the
 * entity pass, writing into a clipboard.
 */
module SchematicReader {
  import opened Nbt
  import opened Geometry
  import opened LegacyIds
  import opened Compat
  import opened Renames
  import opened Clipboards

  /** The collaborators the reader consults, as parameters. */
  datatype Env = Env(
    legacy: (int, int) -> Option<BlockState>,   // LegacyMapper.getBlockFromLegacy(id, data)
    blockHandlers: seq<BlockHandler>,           // COMPATIBILITY_HANDLERS, in registration order
    entityHandlers: seq<EntityHandler>,         // ENTITY_COMPATIBILITY_HANDLERS, in registration order
    entityTypes: map<string, EntityType>)       // EntityTypes.get

  /** The diagnostics the reader logs without failing. */
  datatype Warning = UnknownBlock(id: int, data: int) | UnknownEntity(entityId: string)

  /** Dimensions, origin and region of the schematic. */
  datatype Metadata = Metadata(width: Short, height: Short, length: Short, origin: Vec3, region: Region)

  /** Everything the reader takes from the schematic compound once it is validated. */
  datatype Input = Input(
    meta: Metadata,
    blockId: seq<Byte>,          // "Blocks"
    blockData: seq<Byte>,        // "Data"
    addId: seq<Byte>,            // "AddBlocks", empty when absent
    tileEntities: seq<Tag>,      // "TileEntities"
    entities: Option<seq<Tag>>)  // "Entities", when present as a list

  // -----------------------------------------------------------------------
  // Header and metadata
  // -----------------------------------------------------------------------

  /** Header validation: the root must be a compound named "Schematic", with "Blocks" and with "Materials" = "Alpha". */
  function ReadHeader(root: NamedTag): (r: Result<map<string, Tag>>)
    ensures r.Ok? ==> root.name == "Schematic" && root.tag.CompoundTag? && r.value == root.tag.fields
                      && "Blocks" in r.value && "Materials" in r.value && r.value["Materials"] == StringTag("Alpha")
  {
    if root.name != "Schematic" then Err(NotSchematicRoot(root.name))
    else if !root.tag.CompoundTag? then Err(RootNotCompound)
    else if "Blocks" !in root.tag.fields then Err(MissingBlocks)
    else
      var materials :- RequireTag(root.tag.fields, "Materials", StringKind);
      if materials.str != "Alpha" then Err(NotAlpha(materials.str)) else Ok(root.tag.fields)
  }

  /** The three ways a header is refused, and acceptance exactly when none applies. */
  lemma HeaderErrors(root: NamedTag)
    ensures root.name != "Schematic" ==> ReadHeader(root) == Err(NotSchematicRoot(root.name))
    ensures root.name == "Schematic" && root.tag.CompoundTag? && "Blocks" !in root.tag.fields
            ==> ReadHeader(root) == Err(MissingBlocks)
    ensures root.name == "Schematic" && root.tag.CompoundTag? && "Blocks" in root.tag.fields
            && "Materials" in root.tag.fields && root.tag.fields["Materials"].StringTag?
            && root.tag.fields["Materials"].str != "Alpha"
            ==> ReadHeader(root) == Err(NotAlpha(root.tag.fields["Materials"].str))
    ensures ReadHeader(root).Ok? <==>
            root.name == "Schematic" && root.tag.CompoundTag? && "Blocks" in root.tag.fields
            && "Materials" in root.tag.fields && root.tag.fields["Materials"] == StringTag("Alpha")
    ensures ReadHeader(root).Ok? ==> ReadHeader(root).value == root.tag.fields
  {
  }

  function RequireShort(items: map<string, Tag>, key: string): Result<Short>
  {
    var t :- RequireTag(items, key, ShortKind);
    Ok(t.s)
  }

  function RequireInt(items: map<string, Tag>, key: string): Result<Int32>
  {
    var t :- RequireTag(items, key, IntKind);
    Ok(t.i)
  }

  /** The origin group, read inside a try block: the corner the schematic was copied from, and its offset. */
  function OriginGroup(schematic: map<string, Tag>): (r: Result<(Vec3, Vec3)>)
    ensures r.Ok? <==> HasInt(schematic, "WEOriginX") && HasInt(schematic, "WEOriginY") && HasInt(schematic, "WEOriginZ")
                       && HasInt(schematic, "WEOffsetX") && HasInt(schematic, "WEOffsetY") && HasInt(schematic, "WEOffsetZ")
    ensures r.Ok? ==> r.value == (Vec3(GetInt(schematic, "WEOriginX"), GetInt(schematic, "WEOriginY"), GetInt(schematic, "WEOriginZ")),
                                  Vec3(GetInt(schematic, "WEOffsetX"), GetInt(schematic, "WEOffsetY"), GetInt(schematic, "WEOffsetZ")))
  {
    var originX :- RequireInt(schematic, "WEOriginX");
    var originY :- RequireInt(schematic, "WEOriginY");
    var originZ :- RequireInt(schematic, "WEOriginZ");
    var offsetX :- RequireInt(schematic, "WEOffsetX");
    var offsetY :- RequireInt(schematic, "WEOffsetY");
    var offsetZ :- RequireInt(schematic, "WEOffsetZ");
    Ok((Vec3(originX, originY, originZ), Vec3(offsetX, offsetY, offsetZ)))
  }

  /** The six tags of the origin group. */
  const OriginKeys: seq<string> := ["WEOriginX", "WEOriginY", "WEOriginZ", "WEOffsetX", "WEOffsetY", "WEOffsetZ"]

  predicate HasInt(items: map<string, Tag>, key: string)
  {
    key in items && items[key].IntTag?
  }

  /** The region of a `width x height x length` volume whose minimum corner is `min`. */
  function VolumeRegion(min: Vec3, width: int, height: int, length: int): Region
  {
    Cuboid(min, Sub(Add(min, Vec3(width, height, length)), One))
  }

  /** Metadata: dimensions are required; the origin group falls back to zero as a whole. */
  function ReadMetadata(schematic: map<string, Tag>): (r: Result<Metadata>)
    ensures r.Ok? ==> "Width" in schematic && schematic["Width"] == ShortTag(r.value.width)
                      && "Height" in schematic && schematic["Height"] == ShortTag(r.value.height)
                      && "Length" in schematic && schematic["Length"] == ShortTag(r.value.length)
    ensures r.Ok? ==> r.value.region == VolumeRegion(r.value.region.pos1, r.value.width, r.value.height, r.value.length)
  {
    var width :- RequireShort(schematic, "Width");
    var height :- RequireShort(schematic, "Height");
    var length :- RequireShort(schematic, "Length");
    match OriginGroup(schematic)
    case Ok((min, offset)) =>
      Ok(Metadata(width, height, length, Sub(min, offset), VolumeRegion(min, width, height, length)))
    case Err(_) =>
      Ok(Metadata(width, height, length, Zero, VolumeRegion(Zero, width, height, length)))
  }

  /** Metadata fails exactly when a dimension is missing or not a short tag. */
  lemma MetadataErrors(schematic: map<string, Tag>)
    ensures ReadMetadata(schematic).Err? <==>
            exists key :: key in ["Width", "Height", "Length"] && !(key in schematic && schematic[key].ShortTag?)
  {
    if ReadMetadata(schematic).Err? {
      if !("Width" in schematic && schematic["Width"].ShortTag?) {
        assert "Width" in ["Width", "Height", "Length"];
      } else if !("Height" in schematic && schematic["Height"].ShortTag?) {
        assert "Height" in ["Width", "Height", "Length"];
      } else {
        assert "Length" in ["Width", "Height", "Length"];
      }
    }
  }

  /**
   * The origin group is all or nothing, and never an error: once the three
   * dimension tags are short tags the metadata is read, with those dimensions.
   * With all six int tags the origin is the copied corner minus the offset and
   * the region starts at that corner; with any of them missing or of another
   * kind the origin is zero and the region starts at zero. Either way the
   * region spans Width x Height x Length.
   */
  lemma OriginAllOrNothing(schematic: map<string, Tag>)
    requires "Width" in schematic && schematic["Width"].ShortTag?
    requires "Height" in schematic && schematic["Height"].ShortTag?
    requires "Length" in schematic && schematic["Length"].ShortTag?
    ensures ReadMetadata(schematic).Ok?
    ensures var m := ReadMetadata(schematic).value;
            var w, h, l := schematic["Width"].s, schematic["Height"].s, schematic["Length"].s;
            var min := Vec3(GetInt(schematic, "WEOriginX"), GetInt(schematic, "WEOriginY"), GetInt(schematic, "WEOriginZ"));
            var offset := Vec3(GetInt(schematic, "WEOffsetX"), GetInt(schematic, "WEOffsetY"), GetInt(schematic, "WEOffsetZ"));
            && m.width == w && m.height == h && m.length == l
            && if forall k :: k in OriginKeys ==> HasInt(schematic, k) then
                 m.origin == Vec3(min.x - offset.x, min.y - offset.y, min.z - offset.z)
                 && m.region == Cuboid(min, Vec3(min.x + w - 1, min.y + h - 1, min.z + l - 1))
               else
                 m.origin == Vec3(0, 0, 0)
                 && m.region == Cuboid(Vec3(0, 0, 0), Vec3(w - 1, h - 1, l - 1))
  {
    OriginKeysPresent(schematic);
  }

  /** Every key of `OriginKeys` is an int tag exactly when each of the six named tags is. */
  lemma OriginKeysPresent(schematic: map<string, Tag>)
    ensures (forall k :: k in OriginKeys ==> HasInt(schematic, k)) <==>
            HasInt(schematic, "WEOriginX") && HasInt(schematic, "WEOriginY") && HasInt(schematic, "WEOriginZ")
            && HasInt(schematic, "WEOffsetX") && HasInt(schematic, "WEOffsetY") && HasInt(schematic, "WEOffsetZ")
  {
    if forall k :: k in OriginKeys ==> HasInt(schematic, k) {
      assert OriginKeys[0] in OriginKeys && OriginKeys[1] in OriginKeys && OriginKeys[2] in OriginKeys;
      assert OriginKeys[3] in OriginKeys && OriginKeys[4] in OriginKeys && OriginKeys[5] in OriginKeys;
    }
  }

  // -----------------------------------------------------------------------
  // Required arrays and lists
  // -----------------------------------------------------------------------

  /** Everything `read` takes from the schematic before its loops, with the optional "Entities" list, or the first failure. */
  function Prepare(root: NamedTag): (r: Result<Input>)
    ensures r.Ok? <==>
              ReadHeader(root).Ok? &&
              var s := ReadHeader(root).value;
              && ReadMetadata(s).Ok?
              && s["Blocks"].ByteArrayTag?
              && "Data" in s && s["Data"].ByteArrayTag?
              && ("AddBlocks" in s ==> s["AddBlocks"].ByteArrayTag?)
              && "TileEntities" in s && s["TileEntities"].ListTag?
    ensures r.Ok? ==>
              ReadHeader(root).Ok? &&
              var s := ReadHeader(root).value;
              && ReadMetadata(s) == Ok(r.value.meta)
              && s["Blocks"] == ByteArrayTag(r.value.blockId)
              && "Data" in s && s["Data"] == ByteArrayTag(r.value.blockData)
              && ("AddBlocks" in s ==> s["AddBlocks"] == ByteArrayTag(r.value.addId))
              && "TileEntities" in s && s["TileEntities"] == ListTag(r.value.tileEntities)
              && (r.value.entities.Some? ==> "Entities" in s && s["Entities"] == ListTag(r.value.entities.value))
  {
    var schematic :- ReadHeader(root);
    var meta :- ReadMetadata(schematic);
    var blocks :- RequireTag(schematic, "Blocks", ByteArrayKind);
    var data :- RequireTag(schematic, "Data", ByteArrayKind);
    var add :- if "AddBlocks" in schematic then RequireTag(schematic, "AddBlocks", ByteArrayKind)
               else Ok(ByteArrayTag([]));
    var tiles :- RequireTag(schematic, "TileEntities", ListKind);
    var entities := GetTag(schematic, "Entities", ListKind);
    Ok(Input(meta, blocks.bytes, data.bytes, add.bytes, tiles.elems,
             if entities.Some? then Some(entities.value.elems) else None))
  }

  /** Every header error of the root aborts the whole read with that error. */
  lemma PrepareHeaderErrors(root: NamedTag)
    ensures ReadHeader(root).Err? ==> Prepare(root) == Err(ReadHeader(root).error)
    ensures root.name != "Schematic" ==> Prepare(root) == Err(NotSchematicRoot(root.name))
    ensures root.name == "Schematic" && root.tag.CompoundTag? && "Blocks" !in root.tag.fields
            ==> Prepare(root) == Err(MissingBlocks)
    ensures Prepare(root).Ok? ==> root.tag.CompoundTag? && root.tag.fields["Materials"] == StringTag("Alpha")
  {
    HeaderErrors(root);
  }

  /** A present but mistyped "AddBlocks" is an error; an absent one means no extension. */
  lemma PrepareAddBlocks(root: NamedTag)
    requires ReadHeader(root).Ok? && ReadMetadata(ReadHeader(root).value).Ok?
    ensures var s := ReadHeader(root).value;
            s["Blocks"].ByteArrayTag? && "Data" in s && s["Data"].ByteArrayTag?
            && "AddBlocks" in s && !s["AddBlocks"].ByteArrayTag?
            ==> Prepare(root) == Err(WrongTagKind("AddBlocks"))
    ensures Prepare(root).Ok? && "AddBlocks" !in ReadHeader(root).value ==> Prepare(root).value.addId == []
    ensures Prepare(root).Ok? ==> "TileEntities" in ReadHeader(root).value
  {
  }

  /**
   * A missing or mistyped "Entities" list is no error: a schematic whose other
   * tags pass is accepted, and then there are simply no entities.
   */
  lemma EntitiesOptional(root: NamedTag)
    ensures ReadHeader(root).Ok? ==>
              var s := ReadHeader(root).value;
              ReadMetadata(s).Ok? && s["Blocks"].ByteArrayTag? && "Data" in s && s["Data"].ByteArrayTag?
              && ("AddBlocks" in s ==> s["AddBlocks"].ByteArrayTag?)
              && "TileEntities" in s && s["TileEntities"].ListTag?
              && !("Entities" in s && s["Entities"].ListTag?)
              ==> Prepare(root).Ok? && Prepare(root).value.entities.None?
    ensures Prepare(root).Ok? ==>
              var s := ReadHeader(root).value;
              Prepare(root).value.entities.None? <==> !("Entities" in s && s["Entities"].ListTag?)
  {
  }

  // -----------------------------------------------------------------------
  // What read() assumes without checking
  // -----------------------------------------------------------------------

  /** The tile entity's "x", "y", "z" ints (0 when absent). */
  function TilePos(fields: map<string, Tag>): Vec3
  {
    Vec3(GetInt(fields, "x"), GetInt(fields, "y"), GetInt(fields, "z"))
  }

  /**
   * The array index of a tile entity's cell: `y * width * length + z * width + x`
   * evaluated in 32-bit `int` arithmetic, which wraps around for coordinates far
   * outside the volume.
   */
  function TileIndex(input: Input, pos: Vec3): Int32
  {
    Wrap32(FlatIndex(input.meta.width, input.meta.length, pos))
  }

  /** The same index as Java evaluates it, wrapping after every multiplication and addition. */
  function JavaTileIndex(width: Short, length: Short, pos: Vec3): Int32
  {
    Wrap32(Wrap32(Wrap32(Wrap32(pos.y * width) * length) + Wrap32(pos.z * width)) + pos.x)
  }

  /** Wrapping once at the end gives what wrapping after every operation gives. */
  lemma JavaTileIndexWraps(width: Short, length: Short, pos: Vec3)
    ensures JavaTileIndex(width, length, pos) == Wrap32(FlatIndex(width, length, pos))
  {
    WrapNested(pos.y * width, length, pos.z * width, pos.x);
  }

  /** A tile far outside a 2-wide, 1-long volume wraps round to cell 0: (2 * (2^31 - 1)) wraps to -2, plus x = 2. */
  lemma TileIndexWrapExample()
    ensures FlatIndex(2, 1, Vec3(2, 0x7FFF_FFFF, 0)) == 0x1_0000_0000
    ensures JavaTileIndex(2, 1, Vec3(2, 0x7FFF_FFFF, 0)) == 0
  {
  }

  /** The cell index the reader computes for a tile-entity tag lies inside both byte arrays. */
  predicate TileInBounds(input: Input, t: Tag)
  {
    t.CompoundTag? ==>
      var index := TileIndex(input, TilePos(t.fields));
      0 <= index < |input.blockId| && index < |input.blockData|
  }

  /** "Blocks" and "Data" hold at least one entry per cell of the volume. */
  predicate CoversVolume(input: Input)
  {
    var m := input.meta;
    m.width <= 0 || m.height <= 0 || m.length <= 0 ||
    (m.width * m.height * m.length <= |input.blockId| && m.width * m.height * m.length <= |input.blockData|)
  }

  /** Every array index read() computes is in bounds (the source indexes without checking). */
  predicate InBounds(input: Input)
  {
    CoversVolume(input) && forall i :: 0 <= i < |input.tileEntities| ==> TileInBounds(input, input.tileEntities[i])
  }

  /** The reconstructed legacy ids. */
  function Ids(input: Input): (ids: seq<int>)
    ensures |ids| == |input.blockId|
  {
    LegacyIdArray(input.blockId, input.addId)
  }

  // -----------------------------------------------------------------------
  // Tile-entity pass
  // -----------------------------------------------------------------------

  /** The two maps the tile-entity loop fills: tile-entity values and block overrides. */
  datatype TileState = TileState(tiles: map<Vec3, map<string, Tag>>, overrides: map<Vec3, Option<BlockState>>)

  /** The two states hold the same tile entity and the same override (or none) at `v`. */
  predicate SameAt(a: TileState, b: TileState, v: Vec3)
  {
    && (v in a.tiles <==> v in b.tiles) && (v in a.tiles ==> a.tiles[v] == b.tiles[v])
    && (v in a.overrides <==> v in b.overrides) && (v in a.overrides ==> a.overrides[v] == b.overrides[v])
  }

  /** The tile-entity values with the id normalised, before any handler runs. */
  function NormalisedValues(fields: map<string, Tag>): (values: map<string, Tag>)
    ensures values.Keys == fields.Keys + {"id"}
    ensures values["id"] == StringTag(ConvertBlockEntityId(GetString(fields, "id")))
    ensures forall k :: k in fields && k != "id" ==> values[k] == fields[k]
  {
    fields["id" := StringTag(ConvertBlockEntityId(GetString(fields, "id")))]
  }

  /** The block the legacy table gives for a tile entity's cell. */
  function TileBlock(input: Input, env: Env, t: Tag): Option<BlockState>
    requires TileInBounds(input, t) && t.CompoundTag?
  {
    var index := TileIndex(input, TilePos(t.fields));
    env.legacy(Ids(input)[index], input.blockData[index])
  }

  /** What the block handler chain makes of a tile entity: no handler runs when its block is unknown. */
  function TileUpdate(input: Input, env: Env, t: Tag): BlockUpdate
    requires TileInBounds(input, t) && t.CompoundTag?
  {
    var block := TileBlock(input, env, t);
    if block.Some? then BlockChain(env.blockHandlers, block.value, block.value, NormalisedValues(t.fields))
    else BlockUpdate(None, NormalisedValues(t.fields))
  }

  /** The tile entity records an override: the chain's block differs from the resolved one. */
  predicate Overrides(input: Input, env: Env, t: Tag)
  {
    t.CompoundTag? && TileInBounds(input, t) && TileUpdate(input, env, t).block != TileBlock(input, env, t)
  }

  /**
   * One element of the tile-entity list. A compound stores its handler-updated
   * values at its position and, when it overrides, its chain's block there;
   * nothing at any other position changes, and anything else is skipped.
   */
  function TileStep(input: Input, env: Env, acc: TileState, t: Tag): (r: TileState)
    requires TileInBounds(input, t)
    ensures !t.CompoundTag? ==> r == acc
    ensures t.CompoundTag? ==> forall v :: v != TilePos(t.fields) ==> SameAt(r, acc, v)
    ensures t.CompoundTag? ==>
              var pos := TilePos(t.fields);
              && pos in r.tiles && r.tiles[pos] == TileUpdate(input, env, t).values
              && (pos in r.overrides <==> pos in acc.overrides || Overrides(input, env, t))
              && (Overrides(input, env, t) ==> r.overrides[pos] == TileUpdate(input, env, t).block)
              && (!Overrides(input, env, t) && pos in acc.overrides ==> r.overrides[pos] == acc.overrides[pos])
  {
    if !t.CompoundTag? then acc
    else
      var pos := TilePos(t.fields);
      var u := TileUpdate(input, env, t);
      TileState(acc.tiles[pos := u.values],
                if u.block != TileBlock(input, env, t) then acc.overrides[pos := u.block] else acc.overrides)
  }

  /** The tile-entity loop over a list, element by element from the front; every override has a tile entity. */
  function TilePass(input: Input, env: Env, tags: seq<Tag>): (r: TileState)
    requires forall i :: 0 <= i < |tags| ==> TileInBounds(input, tags[i])
    ensures r.overrides.Keys <= r.tiles.Keys
    decreases |tags|
  {
    if tags == [] then TileState(map[], map[])
    else TileStep(input, env, TilePass(input, env, tags[..|tags| - 1]), tags[|tags| - 1])
  }

  /** The loop over "TileEntities" in `read`, filling the tile-entity map and the override map. */
  method CollectTileEntities(input: Input, blocks: array<int>, env: Env)
    returns (tileEntitiesMap: map<Vec3, map<string, Tag>>, blockOverrides: map<Vec3, Option<BlockState>>)
    requires blocks[..] == Ids(input)
    requires forall i :: 0 <= i < |input.tileEntities| ==> TileInBounds(input, input.tileEntities[i])
    ensures TileState(tileEntitiesMap, blockOverrides) == TilePass(input, env, input.tileEntities)
  {
    var tags := input.tileEntities;
    tileEntitiesMap, blockOverrides := map[], map[];
    var i := 0;
    while i < |tags|
      invariant 0 <= i <= |tags|
      invariant TileState(tileEntitiesMap, blockOverrides) == TilePass(input, env, tags[..i])
    {
      assert tags[..i + 1][..i] == tags[..i];
      tileEntitiesMap, blockOverrides := CollectTile(input, blocks, env, tileEntitiesMap, blockOverrides, tags[i]);
      i := i + 1;
    }
    assert tags[..i] == tags;
  }

  /** One iteration of the tile-entity loop: a compound tag updates both maps at its position, anything else is skipped. */
  method CollectTile(input: Input, blocks: array<int>, env: Env,
                     tiles: map<Vec3, map<string, Tag>>, overrides: map<Vec3, Option<BlockState>>, tag: Tag)
    returns (tileEntitiesMap: map<Vec3, map<string, Tag>>, blockOverrides: map<Vec3, Option<BlockState>>)
    requires blocks[..] == Ids(input)
    requires TileInBounds(input, tag)
    ensures TileState(tileEntitiesMap, blockOverrides) == TileStep(input, env, TileState(tiles, overrides), tag)
  {
    tileEntitiesMap, blockOverrides := tiles, overrides;
    if tag.CompoundTag? {
      var width, length := input.meta.width, input.meta.length;
      var t := tag.fields;
      var x, y, z := GetInt(t, "x"), GetInt(t, "y"), GetInt(t, "z");
      var id := GetString(t, "id");
      var values := t["id" := StringTag(ConvertBlockEntityId(id))];
      var index := Wrap32(Wrap32(Wrap32(Wrap32(y * width) * length) + Wrap32(z * width)) + x);
      JavaTileIndexWraps(width, length, Vec3(x, y, z));
      var block := env.legacy(blocks[index], input.blockData[index]);
      var newBlock := block;
      if newBlock.Some? {
        newBlock, values := ApplyBlockHandlers(env.blockHandlers, block.value, values);
      }
      var vec := Vec3(x, y, z);
      tileEntitiesMap := tileEntitiesMap[vec := values];
      if newBlock != block {
        blockOverrides := blockOverrides[vec := newBlock];
      }
    }
  }

  /** The tile-entity map has an entry exactly at the positions of the compound tags of the list. */
  lemma {:induction false} TileKeys(input: Input, env: Env, tags: seq<Tag>, v: Vec3)
    requires forall i :: 0 <= i < |tags| ==> TileInBounds(input, tags[i])
    ensures v in TilePass(input, env, tags).tiles <==>
            exists i :: 0 <= i < |tags| && tags[i].CompoundTag? && TilePos(tags[i].fields) == v
    decreases |tags|
  {
    if tags != [] {
      var n := |tags| - 1;
      var front := tags[..n];
      TileKeys(input, env, front, v);
      if v in TilePass(input, env, tags).tiles {
        if !(tags[n].CompoundTag? && TilePos(tags[n].fields) == v) {
          var i :| 0 <= i < |front| && front[i].CompoundTag? && TilePos(front[i].fields) == v;
          assert tags[i] == front[i];
        }
      } else {
        forall i | 0 <= i < |tags| && tags[i].CompoundTag?
          ensures TilePos(tags[i].fields) != v
        {
          if i < n {
            assert front[i] == tags[i];
          }
        }
      }
    }
  }

  /**
   * The override map has an entry exactly at the positions of the tags whose
   * chain's block differs from their resolved block (a null from the chain
   * included); an unchanged block never records one.
   */
  lemma {:induction false} OverrideKeys(input: Input, env: Env, tags: seq<Tag>, v: Vec3)
    requires forall i :: 0 <= i < |tags| ==> TileInBounds(input, tags[i])
    ensures v in TilePass(input, env, tags).overrides <==>
            exists i :: 0 <= i < |tags| && tags[i].CompoundTag? && TilePos(tags[i].fields) == v
                        && Overrides(input, env, tags[i])
    decreases |tags|
  {
    if tags != [] {
      var n := |tags| - 1;
      OverrideKeys(input, env, tags[..n], v);
      OverrideAt(input, env, TilePass(input, env, tags[..n]), tags[n], v);
      ExistsSplit(tags, tags[..n], (t: Tag) => t.CompoundTag? && TilePos(t.fields) == v && Overrides(input, env, t));
    }
  }

  /** Some element of a non-empty list satisfies `p` exactly when one of its front does or its last one does. */
  lemma ExistsSplit<T>(s: seq<T>, front: seq<T>, p: T -> bool)
    requires s != [] && front == s[..|s| - 1]
    ensures (exists i :: 0 <= i < |s| && p(s[i])) <==> (exists i :: 0 <= i < |front| && p(front[i])) || p(s[|s| - 1])
  {
    if exists i :: 0 <= i < |s| && p(s[i]) {
      var i :| 0 <= i < |s| && p(s[i]);
      if i < |front| {
        assert front[i] == s[i];
      }
    }
    if exists i :: 0 <= i < |front| && p(front[i]) {
      var i :| 0 <= i < |front| && p(front[i]);
      assert s[i] == front[i];
    }
  }

  /** One step holds an override at `v` exactly when the state before did or the tag overrides at `v`. */
  lemma OverrideAt(input: Input, env: Env, acc: TileState, t: Tag, v: Vec3)
    requires TileInBounds(input, t)
    ensures v in TileStep(input, env, acc, t).overrides <==>
            v in acc.overrides || (t.CompoundTag? && TilePos(t.fields) == v && Overrides(input, env, t))
  {
  }

  /** Tags at other positions leave what the pass holds at `v` unchanged. */
  lemma {:induction false} OtherTilesKeep(input: Input, env: Env, prefix: seq<Tag>, rest: seq<Tag>, v: Vec3)
    requires forall i :: 0 <= i < |prefix| ==> TileInBounds(input, prefix[i])
    requires forall j :: 0 <= j < |rest| ==> TileInBounds(input, rest[j])
    requires forall j :: 0 <= j < |rest| && rest[j].CompoundTag? ==> TilePos(rest[j].fields) != v
    ensures forall i :: 0 <= i < |prefix + rest| ==> TileInBounds(input, (prefix + rest)[i])
    ensures SameAt(TilePass(input, env, prefix + rest), TilePass(input, env, prefix), v)
    decreases |rest|
  {
    if rest == [] {
      assert prefix + rest == prefix;
    } else {
      var n := |rest| - 1;
      OtherTilesKeep(input, env, prefix, rest[..n], v);
      assert (prefix + rest)[..|prefix + rest| - 1] == prefix + rest[..n];
      assert (prefix + rest)[|prefix + rest| - 1] == rest[n];
    }
  }

  /**
   * For a tag `t` after which no other compound sits at its position: the
   * tile entity stored there is what the handler chain left of its
   * id-normalised values (the values alone when its block is unknown); an
   * override is recorded there exactly when the chain's block differs from the
   * resolved block, null included, holding the chain's block; otherwise
   * whatever override earlier tags recorded there is kept.
   */
  lemma LastTileAt(input: Input, env: Env, tags: seq<Tag>, t: Tag, rest: seq<Tag>)
    requires forall i :: 0 <= i < |tags| ==> TileInBounds(input, tags[i])
    requires TileInBounds(input, t) && t.CompoundTag?
    requires forall j :: 0 <= j < |rest| ==> TileInBounds(input, rest[j])
    requires forall j :: 0 <= j < |rest| && rest[j].CompoundTag? ==> TilePos(rest[j].fields) != TilePos(t.fields)
    ensures forall i :: 0 <= i < |tags + [t] + rest| ==> TileInBounds(input, (tags + [t] + rest)[i])
    ensures var pos := TilePos(t.fields);
            var block := TileBlock(input, env, t);
            var u := TileUpdate(input, env, t);
            var tp := TilePass(input, env, tags + [t] + rest);
            var before := TilePass(input, env, tags);
            && (block.None? ==> u == BlockUpdate(None, NormalisedValues(t.fields)))
            && (block.Some? ==> u == BlockChain(env.blockHandlers, block.value, block.value, NormalisedValues(t.fields)))
            && pos in tp.tiles && tp.tiles[pos] == u.values
            && (u.block != block ==> pos in tp.overrides && tp.overrides[pos] == u.block)
            && (u.block == block ==> (pos in tp.overrides <==> pos in before.overrides)
                                     && (pos in before.overrides ==> tp.overrides[pos] == before.overrides[pos]))
  {
    var front := tags + [t];
    assert front[..|tags|] == tags;
    assert forall i :: 0 <= i < |front| ==> TileInBounds(input, front[i]);
    OtherTilesKeep(input, env, front, rest, TilePos(t.fields));
  }

  // -----------------------------------------------------------------------
  // Block placement
  // -----------------------------------------------------------------------

  /** A loop bound `0 <= i < s` runs max(s, 0) times. */
  function Dim(s: Short): nat
  {
    if s < 0 then 0 else s
  }

  /** The volume's cell `p` reads inside both byte arrays. */
  lemma CellInBounds(input: Input, p: Vec3)
    requires CoversVolume(input) && InBox(p, input.meta.width, input.meta.height, input.meta.length)
    ensures 0 <= FlatIndex(input.meta.width, input.meta.length, p) < |input.blockId|
    ensures FlatIndex(input.meta.width, input.meta.length, p) < |input.blockData|
  {
    FlatIndexInRange(input.meta.width, input.meta.height, input.meta.length, p);
  }

  /** The state a cell gets: the override when the cell has one (possibly null), else the legacy lookup. */
  function CellState(input: Input, env: Env, tp: TileState, p: Vec3): Option<BlockState>
    requires CoversVolume(input) && InBox(p, input.meta.width, input.meta.height, input.meta.length)
  {
    if p in tp.overrides then tp.overrides[p]
    else
      CellInBounds(input, p);
      var index := FlatIndex(input.meta.width, input.meta.length, p);
      env.legacy(Ids(input)[index], input.blockData[index])
  }

  /** What the cell receives, with its tile-entity values attached when it has some. */
  function CellBlock(input: Input, env: Env, tp: TileState, p: Vec3): Option<BaseBlock>
    requires CoversVolume(input) && InBox(p, input.meta.width, input.meta.height, input.meta.length)
  {
    match CellState(input, env, tp, p)
    case None => None
    case Some(state) => Some(BaseBlock(state, if p in tp.tiles then Some(tp.tiles[p]) else None))
  }

  /** The unknown-block warning for the cell, if it logs one. */
  function CellWarnings(input: Input, env: Env, tp: TileState, p: Vec3): (ws: seq<Warning>)
    requires CoversVolume(input) && InBox(p, input.meta.width, input.meta.height, input.meta.length)
    ensures |ws| <= 1
    ensures ws != [] ==> p !in tp.overrides && CellState(input, env, tp, p).None? && ws[0].UnknownBlock?
  {
    if CellState(input, env, tp, p).None? && p !in tp.overrides then
      CellInBounds(input, p);
      var index := FlatIndex(input.meta.width, input.meta.length, p);
      [UnknownBlock(Ids(input)[index], input.blockData[index])]
    else []
  }

  /**
   * The per-cell outcome of placement: an overridden cell takes the override
   * (a null override leaves the cell empty and logs nothing); otherwise the
   * legacy lookup decides, and a failed lookup leaves the cell empty and logs
   * the legacy id and data. A written block carries the cell's tile entity.
   */
  lemma PlacementCell(input: Input, env: Env, tp: TileState, p: Vec3)
    requires CoversVolume(input) && InBox(p, input.meta.width, input.meta.height, input.meta.length)
    ensures p in tp.overrides && tp.overrides[p].None? ==>
              CellBlock(input, env, tp, p).None? && CellWarnings(input, env, tp, p) == []
    ensures p in tp.overrides && tp.overrides[p].Some? ==>
              CellBlock(input, env, tp, p) == Some(BaseBlock(tp.overrides[p].value,
                                                    if p in tp.tiles then Some(tp.tiles[p]) else None))
    ensures p !in tp.overrides ==>
              var index := FlatIndex(input.meta.width, input.meta.length, p);
              0 <= index < |input.blockId| && index < |input.blockData| &&
              var looked := env.legacy(Ids(input)[index], input.blockData[index]);
              (looked.None? ==> CellBlock(input, env, tp, p).None?
                                && CellWarnings(input, env, tp, p) == [UnknownBlock(Ids(input)[index], input.blockData[index])])
              && (looked.Some? ==> CellBlock(input, env, tp, p).Some? && CellBlock(input, env, tp, p).value.state == looked.value
                                   && CellBlock(input, env, tp, p).value.nbt == (if p in tp.tiles then Some(tp.tiles[p]) else None)
                                   && CellWarnings(input, env, tp, p) == [])
  {
    CellInBounds(input, p);
  }

  /** Warnings of the cells (x, y, 0) .. (x, y, z - 1), in loop order. */
  function ColumnWarnings(input: Input, env: Env, tp: TileState, x: int, y: int, z: nat): seq<Warning>
    requires CoversVolume(input)
    requires 0 <= x < input.meta.width && 0 <= y < input.meta.height && z <= Dim(input.meta.length)
  {
    if z == 0 then []
    else ColumnWarnings(input, env, tp, x, y, z - 1) + CellWarnings(input, env, tp, Vec3(x, y, z - 1))
  }

  /** Warnings of the cells with this x and a smaller y, in loop order. */
  function SliceWarnings(input: Input, env: Env, tp: TileState, x: int, y: nat): seq<Warning>
    requires CoversVolume(input)
    requires 0 <= x < input.meta.width && y <= Dim(input.meta.height)
  {
    if y == 0 then []
    else SliceWarnings(input, env, tp, x, y - 1) + ColumnWarnings(input, env, tp, x, y - 1, Dim(input.meta.length))
  }

  /** Warnings of the cells with a smaller x, in loop order. */
  function PlacementWarnings(input: Input, env: Env, tp: TileState, x: nat): seq<Warning>
    requires CoversVolume(input) && x <= Dim(input.meta.width)
  {
    if x == 0 then []
    else PlacementWarnings(input, env, tp, x - 1) + SliceWarnings(input, env, tp, x - 1, Dim(input.meta.height))
  }

  /** The column's warnings are those of its cells below z. */
  lemma {:induction false} ColumnWarningsOf(input: Input, env: Env, tp: TileState, x: int, y: int, z: nat, w: Warning)
    requires CoversVolume(input)
    requires 0 <= x < input.meta.width && 0 <= y < input.meta.height && z <= Dim(input.meta.length)
    ensures w in ColumnWarnings(input, env, tp, x, y, z) <==>
            exists p :: InBox(p, input.meta.width, input.meta.height, input.meta.length)
                        && p.x == x && p.y == y && p.z < z && w in CellWarnings(input, env, tp, p)
  {
    if z > 0 {
      ColumnWarningsOf(input, env, tp, x, y, z - 1, w);
      var c := Vec3(x, y, z - 1);
      if w in CellWarnings(input, env, tp, c) {
        assert c.z < z;
      }
    }
  }

  /** The slice's warnings are those of its cells below y. */
  lemma {:induction false} SliceWarningsOf(input: Input, env: Env, tp: TileState, x: int, y: nat, w: Warning)
    requires CoversVolume(input)
    requires 0 <= x < input.meta.width && y <= Dim(input.meta.height)
    ensures w in SliceWarnings(input, env, tp, x, y) <==>
            exists p :: InBox(p, input.meta.width, input.meta.height, input.meta.length)
                        && p.x == x && p.y < y && w in CellWarnings(input, env, tp, p)
  {
    if y > 0 {
      SliceWarningsOf(input, env, tp, x, y - 1, w);
      ColumnWarningsOf(input, env, tp, x, y - 1, Dim(input.meta.length), w);
    }
  }

  /**
   * A warning is logged for the cells with x below the bound, and only for
   * them, exactly when the cell's own warning says so: by PlacementCell, a
   * cell without an override whose legacy lookup fails.
   */
  lemma {:induction false} PlacementWarningsOf(input: Input, env: Env, tp: TileState, x: nat, w: Warning)
    requires CoversVolume(input) && x <= Dim(input.meta.width)
    ensures w in PlacementWarnings(input, env, tp, x) <==>
            exists p :: InBox(p, input.meta.width, input.meta.height, input.meta.length)
                        && p.x < x && w in CellWarnings(input, env, tp, p)
  {
    if x > 0 {
      PlacementWarningsOf(input, env, tp, x - 1, w);
      SliceWarningsOf(input, env, tp, x - 1, Dim(input.meta.height), w);
    }
  }

  /** The warning of the unknown block at cell `p`: its legacy id and data. */
  function UnknownAt(input: Input, p: Vec3): (w: Warning)
    requires CoversVolume(input) && InBox(p, input.meta.width, input.meta.height, input.meta.length)
    ensures w.UnknownBlock?
  {
    CellInBounds(input, p);
    var index := FlatIndex(input.meta.width, input.meta.length, p);
    UnknownBlock(Ids(input)[index], input.blockData[index])
  }

  /** A cell logs a warning exactly when it has no override and receives no block, and then only its own. */
  lemma CellWarningIff(input: Input, env: Env, tp: TileState, p: Vec3, w: Warning)
    requires CoversVolume(input) && InBox(p, input.meta.width, input.meta.height, input.meta.length)
    ensures w in CellWarnings(input, env, tp, p) <==>
            p !in tp.overrides && CellBlock(input, env, tp, p).None? && w == UnknownAt(input, p)
  {
  }

  /** The placement loop's warnings are exactly the unknown blocks of the cells with no override and no block. */
  lemma UnknownBlockWarning(input: Input, env: Env, tp: TileState, w: Warning)
    requires CoversVolume(input)
    ensures w in PlacementWarnings(input, env, tp, Dim(input.meta.width)) <==>
            exists p :: InBox(p, input.meta.width, input.meta.height, input.meta.length)
                        && p !in tp.overrides && CellBlock(input, env, tp, p).None? && w == UnknownAt(input, p)
  {
    var m := input.meta;
    PlacementWarningsOf(input, env, tp, Dim(m.width), w);
    if w in PlacementWarnings(input, env, tp, Dim(m.width)) {
      var p :| InBox(p, m.width, m.height, m.length) && p.x < Dim(m.width) && w in CellWarnings(input, env, tp, p);
      CellWarningIff(input, env, tp, p, w);
    }
    if exists p :: InBox(p, m.width, m.height, m.length)
                   && p !in tp.overrides && CellBlock(input, env, tp, p).None? && w == UnknownAt(input, p) {
      var p :| InBox(p, m.width, m.height, m.length)
               && p !in tp.overrides && CellBlock(input, env, tp, p).None? && w == UnknownAt(input, p);
      CellWarningIff(input, env, tp, p, w);
      assert p.x < Dim(m.width) && w in CellWarnings(input, env, tp, p);
    }
  }

  /** Cell `p` comes before the loop position (x, y, z): x outermost, z innermost. */
  predicate Before(p: Vec3, x: int, y: int, z: int)
  {
    p.x < x || (p.x == x && (p.y < y || (p.y == y && p.z < z)))
  }

  /** The clipboard's blocks after the cells before (x, y, z) were placed, at the region's minimum plus the cell. */
  ghost predicate PlacedUpTo(blocks: map<Vec3, BaseBlock>, input: Input, env: Env, tp: TileState, x: int, y: int, z: int)
    requires CoversVolume(input)
  {
    var m := input.meta;
    var min := m.region.Minimum();
    && (forall p :: InBox(p, m.width, m.height, m.length) ==>
          (Add(min, p) in blocks <==> Before(p, x, y, z) && CellBlock(input, env, tp, p).Some?))
    && (forall p :: InBox(p, m.width, m.height, m.length) && Add(min, p) in blocks ==>
          blocks[Add(min, p)] == CellBlock(input, env, tp, p).value)
    && (forall q :: q in blocks ==> InBox(Sub(q, min), m.width, m.height, m.length) && Before(Sub(q, min), x, y, z))
  }

  /** The clipboard's blocks after placement: exactly the cells that receive a block, each at the region's minimum plus the cell. */
  ghost predicate BlocksPlaced(blocks: map<Vec3, BaseBlock>, input: Input, env: Env, tp: TileState)
    requires CoversVolume(input)
  {
    var m := input.meta;
    var min := m.region.Minimum();
    && (forall p :: InBox(p, m.width, m.height, m.length) ==>
          (Add(min, p) in blocks <==> CellBlock(input, env, tp, p).Some?))
    && (forall p :: InBox(p, m.width, m.height, m.length) && Add(min, p) in blocks ==>
          blocks[Add(min, p)] == CellBlock(input, env, tp, p).value)
    && (forall q :: q in blocks ==> InBox(Sub(q, min), m.width, m.height, m.length))
  }

  /** Placing every cell of the volume at the region's minimum stays inside the region. */
  lemma RegionHoldsVolume(m: Metadata, p: Vec3)
    requires m.region == VolumeRegion(m.region.pos1, m.width, m.height, m.length)
    requires InBox(p, m.width, m.height, m.length)
    ensures m.region.Minimum() == m.region.pos1
    ensures m.region.Contains(Add(m.region.Minimum(), p))
  {
  }

  /** Block placement: the triple loop writing every cell of the volume into the clipboard (the outer loop over x). */
  method PlaceBlocks(clipboard: Clipboard, input: Input, blocks: array<int>, tp: TileState, env: Env)
    returns (warnings: seq<Warning>)
    requires clipboard.Valid() && clipboard.blocks == map[]
    requires clipboard.region == input.meta.region
    requires input.meta.region == VolumeRegion(input.meta.region.pos1, input.meta.width, input.meta.height, input.meta.length)
    requires blocks[..] == Ids(input)
    requires CoversVolume(input)
    modifies clipboard`blocks
    ensures clipboard.Valid()
    ensures BlocksPlaced(clipboard.blocks, input, env, tp)
    ensures warnings == PlacementWarnings(input, env, tp, Dim(input.meta.width))
  {
    warnings := [];
    var x := 0;
    while x < input.meta.width
      invariant 0 <= x <= Dim(input.meta.width)
      invariant clipboard.Valid()
      invariant PlacedUpTo(clipboard.blocks, input, env, tp, x, 0, 0)
      invariant warnings == PlacementWarnings(input, env, tp, x)
    {
      var sliceWarnings := PlaceSlice(clipboard, input, blocks, tp, env, x);
      warnings := warnings + sliceWarnings;
      x := x + 1;
    }
    PlacedAll(clipboard.blocks, input, env, tp, x);
  }

  /** The loop over y, for one x. */
  method PlaceSlice(clipboard: Clipboard, input: Input, blocks: array<int>, tp: TileState, env: Env, x: int)
    returns (warnings: seq<Warning>)
    requires clipboard.Valid() && clipboard.region == input.meta.region
    requires input.meta.region == VolumeRegion(input.meta.region.pos1, input.meta.width, input.meta.height, input.meta.length)
    requires blocks[..] == Ids(input)
    requires CoversVolume(input) && 0 <= x < input.meta.width
    requires PlacedUpTo(clipboard.blocks, input, env, tp, x, 0, 0)
    modifies clipboard`blocks
    ensures clipboard.Valid()
    ensures PlacedUpTo(clipboard.blocks, input, env, tp, x + 1, 0, 0)
    ensures warnings == SliceWarnings(input, env, tp, x, Dim(input.meta.height))
  {
    warnings := [];
    var y := 0;
    while y < input.meta.height
      invariant 0 <= y <= Dim(input.meta.height)
      invariant clipboard.Valid()
      invariant PlacedUpTo(clipboard.blocks, input, env, tp, x, y, 0)
      invariant warnings == SliceWarnings(input, env, tp, x, y)
    {
      var columnWarnings := PlaceColumn(clipboard, input, blocks, tp, env, x, y);
      warnings := warnings + columnWarnings;
      y := y + 1;
    }
    NextSlice(clipboard.blocks, input, env, tp, x);
  }

  /** The loop over z, for one x and y. */
  method PlaceColumn(clipboard: Clipboard, input: Input, blocks: array<int>, tp: TileState, env: Env, x: int, y: int)
    returns (warnings: seq<Warning>)
    requires clipboard.Valid() && clipboard.region == input.meta.region
    requires input.meta.region == VolumeRegion(input.meta.region.pos1, input.meta.width, input.meta.height, input.meta.length)
    requires blocks[..] == Ids(input)
    requires CoversVolume(input) && 0 <= x < input.meta.width && 0 <= y < input.meta.height
    requires PlacedUpTo(clipboard.blocks, input, env, tp, x, y, 0)
    modifies clipboard`blocks
    ensures clipboard.Valid()
    ensures PlacedUpTo(clipboard.blocks, input, env, tp, x, y + 1, 0)
    ensures warnings == ColumnWarnings(input, env, tp, x, y, Dim(input.meta.length))
  {
    warnings := [];
    var z := 0;
    while z < input.meta.length
      invariant 0 <= z <= Dim(input.meta.length)
      invariant clipboard.Valid()
      invariant PlacedUpTo(clipboard.blocks, input, env, tp, x, y, z)
      invariant warnings == ColumnWarnings(input, env, tp, x, y, z)
    {
      var pt := Vec3(x, y, z);
      ghost var before := clipboard.blocks;
      var cellWarnings := PlaceCell(clipboard, input, blocks, tp, env, pt);
      warnings := warnings + cellWarnings;
      PlaceStep(before, clipboard.blocks, input, env, tp, pt);
      z := z + 1;
    }
    NextRow(clipboard.blocks, input, env, tp, x, y);
  }

  /** The body of the placement loop, for one cell. */
  method PlaceCell(clipboard: Clipboard, input: Input, blocks: array<int>, tp: TileState, env: Env, pt: Vec3)
    returns (warnings: seq<Warning>)
    requires clipboard.Valid() && clipboard.region == input.meta.region
    requires input.meta.region == VolumeRegion(input.meta.region.pos1, input.meta.width, input.meta.height, input.meta.length)
    requires blocks[..] == Ids(input)
    requires CoversVolume(input) && InBox(pt, input.meta.width, input.meta.height, input.meta.length)
    modifies clipboard`blocks
    ensures clipboard.Valid()
    ensures var cell := CellBlock(input, env, tp, pt);
            clipboard.blocks == if cell.Some? then old(clipboard.blocks)[Add(input.meta.region.Minimum(), pt) := cell.value]
                                else old(clipboard.blocks)
    ensures warnings == CellWarnings(input, env, tp, pt)
  {
    var width, length := input.meta.width, input.meta.length;
    var x, y, z := pt.x, pt.y, pt.z;
    CellInBounds(input, pt);
    RegionHoldsVolume(input.meta, pt);
    var index := y * width * length + z * width + x;
    assert blocks[index] == Ids(input)[index];
    var useOverride := pt in tp.overrides;
    var state := if useOverride then tp.overrides[pt] else env.legacy(blocks[index], input.blockData[index]);
    warnings := [];
    if state.Some? {
      var ok;
      if pt in tp.tiles {
        ok := clipboard.SetBlock(Add(clipboard.region.Minimum(), pt), BaseBlock(state.value, Some(tp.tiles[pt])));
      } else {
        ok := clipboard.SetBlock(Add(clipboard.region.Minimum(), pt), BaseBlock(state.value, None));
      }
      assert ok;  // the region always contains the cell
    } else if !useOverride {
      warnings := [UnknownBlock(blocks[index], input.blockData[index])];
    }
  }

  /** Placing cell c extends the placed prefix by c. */
  lemma PlaceStep(before: map<Vec3, BaseBlock>, after: map<Vec3, BaseBlock>, input: Input, env: Env, tp: TileState, c: Vec3)
    requires CoversVolume(input) && InBox(c, input.meta.width, input.meta.height, input.meta.length)
    requires PlacedUpTo(before, input, env, tp, c.x, c.y, c.z)
    requires var cell := CellBlock(input, env, tp, c);
             after == if cell.Some? then before[Add(input.meta.region.Minimum(), c) := cell.value] else before
    ensures PlacedUpTo(after, input, env, tp, c.x, c.y, c.z + 1)
  {
    var m := input.meta;
    var min := m.region.Minimum();
    var cell := CellBlock(input, env, tp, c);
    forall p | InBox(p, m.width, m.height, m.length)
      ensures Add(min, p) in after <==> Before(p, c.x, c.y, c.z + 1) && CellBlock(input, env, tp, p).Some?
      ensures Add(min, p) in after ==> after[Add(min, p)] == CellBlock(input, env, tp, p).value
    {
      if p != c {
        assert Add(min, p) != Add(min, c);
        assert Before(p, c.x, c.y, c.z + 1) <==> Before(p, c.x, c.y, c.z);
      }
    }
    forall q | q in after
      ensures InBox(Sub(q, min), m.width, m.height, m.length)
      ensures Before(Sub(q, min), c.x, c.y, c.z + 1)
    {
      if q != Add(min, c) {
        assert q in before;
      } else {
        assert Sub(q, min) == c;
      }
    }
  }

  /** Finishing a column moves the loop position to the next row. */
  lemma NextRow(blocks: map<Vec3, BaseBlock>, input: Input, env: Env, tp: TileState, x: int, y: int)
    requires CoversVolume(input)
    requires PlacedUpTo(blocks, input, env, tp, x, y, Dim(input.meta.length))
    ensures PlacedUpTo(blocks, input, env, tp, x, y + 1, 0)
  {
  }

  /** Finishing a slice moves the loop position to the next slice. */
  lemma NextSlice(blocks: map<Vec3, BaseBlock>, input: Input, env: Env, tp: TileState, x: int)
    requires CoversVolume(input)
    requires PlacedUpTo(blocks, input, env, tp, x, Dim(input.meta.height), 0)
    ensures PlacedUpTo(blocks, input, env, tp, x + 1, 0, 0)
  {
  }

  /** After the last slice every cell is placed. */
  lemma PlacedAll(blocks: map<Vec3, BaseBlock>, input: Input, env: Env, tp: TileState, x: int)
    requires CoversVolume(input) && x == Dim(input.meta.width)
    requires PlacedUpTo(blocks, input, env, tp, x, 0, 0)
    ensures BlocksPlaced(blocks, input, env, tp)
  {
  }

  // -----------------------------------------------------------------------
  // Entity pass
  // -----------------------------------------------------------------------

  /** What the entity loop does with one element of the "Entities" list. */
  datatype EntityOutcome = Skipped | Unknown(id: string) | Created(entity: ClipboardEntity)

  /** What the entity loop makes of one element of the "Entities" list. */
  function DecodeEntity(env: Env, t: Tag): (r: EntityOutcome)
    ensures r.Created? ==> t.CompoundTag? && r.entity.entity.entityType in env.entityTypes.Values
    ensures r.Created? ==> r.entity.location == Location(GetList(t.fields, "Pos"), GetList(t.fields, "Rotation"))
    ensures r.Unknown? ==> t.CompoundTag? && r.id != "" && r.id !in env.entityTypes
  {
    if !t.CompoundTag? then Skipped
    else
      var compound := t.fields;
      var id := ConvertEntityId(GetString(compound, "id"));
      var location := Location(GetList(compound, "Pos"), GetList(compound, "Rotation"));
      if id == "" then Skipped
      else if ToLower(id) !in env.entityTypes then Unknown(ToLower(id))
      else
        var entityType := env.entityTypes[ToLower(id)];
        Created(ClipboardEntity(location, BaseEntity(entityType, EntityChain(env.entityHandlers, entityType, compound))))
  }

  /**
   * A list element that is not a compound, or whose id converts to the empty
   * name (an absent or empty "id"), is skipped silently; an id whose
   * lower-cased form is no known type is skipped with a warning naming it;
   * otherwise an entity of that type is created, carrying the compound as
   * the entity handlers leave it.
   */
  lemma EntityRules(env: Env, t: Tag)
    ensures !t.CompoundTag? ==> DecodeEntity(env, t) == Skipped
    ensures t.CompoundTag? && GetString(t.fields, "id") == "" ==> DecodeEntity(env, t) == Skipped
    ensures t.CompoundTag? && GetString(t.fields, "id") != "" ==>
              var lower := ToLower(ConvertEntityId(GetString(t.fields, "id")));
              (lower !in env.entityTypes ==> DecodeEntity(env, t) == Unknown(lower))
              && (lower in env.entityTypes ==>
                    DecodeEntity(env, t).Created?
                    && DecodeEntity(env, t).entity.entity.entityType == env.entityTypes[lower]
                    && DecodeEntity(env, t).entity.entity.nbt
                       == EntityChain(env.entityHandlers, env.entityTypes[lower], t.fields)
                    && DecodeEntity(env, t).entity.location
                       == Location(GetList(t.fields, "Pos"), GetList(t.fields, "Rotation")))
  {
  }

  /** What each element of the list decodes to, in list order. */
  function Outcomes(env: Env, tags: seq<Tag>): (os: seq<EntityOutcome>)
    ensures |os| == |tags|
    ensures forall i :: 0 <= i < |tags| ==> os[i] == DecodeEntity(env, tags[i])
  {
    seq(|tags|, i requires 0 <= i < |tags| => DecodeEntity(env, tags[i]))
  }

  function OutcomeEntities(o: EntityOutcome): seq<ClipboardEntity>
  {
    if o.Created? then [o.entity] else []
  }

  function OutcomeWarnings(o: EntityOutcome): seq<Warning>
  {
    if o.Unknown? then [UnknownEntity(o.id)] else []
  }

  /** The entities a run of outcomes creates, in order. */
  function CreatedOf(os: seq<EntityOutcome>): seq<ClipboardEntity>
    decreases |os|
  {
    if os == [] then [] else CreatedOf(os[..|os| - 1]) + OutcomeEntities(os[|os| - 1])
  }

  /** The warnings a run of outcomes logs, in order. */
  function WarningsOf(os: seq<EntityOutcome>): seq<Warning>
    decreases |os|
  {
    if os == [] then [] else WarningsOf(os[..|os| - 1]) + OutcomeWarnings(os[|os| - 1])
  }

  /** The entities the loop creates from a list, in list order. */
  function EntitiesOf(env: Env, tags: seq<Tag>): seq<ClipboardEntity>
  {
    CreatedOf(Outcomes(env, tags))
  }

  /** The warnings the loop logs for a list, in list order. */
  function EntityWarnings(env: Env, tags: seq<Tag>): seq<Warning>
  {
    WarningsOf(Outcomes(env, tags))
  }

  /** The entity loop's body: one element of the "Entities" list, added to the clipboard or reported. */
  method AddEntity(clipboard: Clipboard, env: Env, tag: Tag) returns (warnings: seq<Warning>)
    modifies clipboard`entities
    ensures clipboard.entities == old(clipboard.entities) + OutcomeEntities(DecodeEntity(env, tag))
    ensures warnings == OutcomeWarnings(DecodeEntity(env, tag))
  {
    warnings := [];
    if tag.CompoundTag? {
      var compound := tag.fields;
      var id := ConvertEntityId(GetString(compound, "id"));
      var location := Location(GetList(compound, "Pos"), GetList(compound, "Rotation"));
      if id != "" {
        var lower := ToLower(id);
        if lower in env.entityTypes {
          var entityType := env.entityTypes[lower];
          compound := ApplyEntityHandlers(env.entityHandlers, entityType, compound);
          clipboard.CreateEntity(location, BaseEntity(entityType, compound));
        } else {
          warnings := [UnknownEntity(lower)];
        }
      }
    }
  }

  /** The entity pass: the loop over the "Entities" list, adding to the clipboard in list order. */
  method AddEntities(clipboard: Clipboard, env: Env, entityTags: seq<Tag>) returns (warnings: seq<Warning>)
    modifies clipboard`entities
    ensures clipboard.entities == old(clipboard.entities) + EntitiesOf(env, entityTags)
    ensures warnings == EntityWarnings(env, entityTags)
  {
    ghost var os := Outcomes(env, entityTags);
    warnings := [];
    var i := 0;
    while i < |entityTags|
      invariant 0 <= i <= |entityTags|
      invariant clipboard.entities == old(clipboard.entities) + CreatedOf(os[..i])
      invariant warnings == WarningsOf(os[..i])
    {
      ghost var before := clipboard.entities;
      var w := AddEntity(clipboard, env, entityTags[i]);
      EntityLoopStep(old(clipboard.entities), before, clipboard.entities, warnings, w, os, i);
      warnings := warnings + w;
      i := i + 1;
    }
    assert os[..i] == os;
  }

  /** Extending a prefix of outcomes by one extends both folds by that outcome's share. */
  lemma FoldStep(os: seq<EntityOutcome>, i: nat)
    requires i < |os|
    ensures CreatedOf(os[..i + 1]) == CreatedOf(os[..i]) + OutcomeEntities(os[i])
    ensures WarningsOf(os[..i + 1]) == WarningsOf(os[..i]) + OutcomeWarnings(os[i])
  {
    assert os[..i + 1][..i] == os[..i];
  }

  /** The entity loop's invariant survives one element. */
  lemma EntityLoopStep(start: seq<ClipboardEntity>, before: seq<ClipboardEntity>, after: seq<ClipboardEntity>,
                       warnings: seq<Warning>, w: seq<Warning>, os: seq<EntityOutcome>, i: nat)
    requires i < |os|
    requires before == start + CreatedOf(os[..i]) && after == before + OutcomeEntities(os[i])
    requires warnings == WarningsOf(os[..i]) && w == OutcomeWarnings(os[i])
    ensures after == start + CreatedOf(os[..i + 1])
    ensures warnings + w == WarningsOf(os[..i + 1])
  {
    FoldStep(os, i);
  }

  /** One outcome contributes `e` exactly when it creates `e`. */
  lemma OutcomeEntitiesIff(o: EntityOutcome, e: ClipboardEntity)
    ensures e in OutcomeEntities(o) <==> o == Created(e)
  {
    if o.Created? {
      assert OutcomeEntities(o) == [o.entity];
    }
  }

  /** One outcome warns about `id` exactly when it is that unknown name. */
  lemma OutcomeWarningsIff(o: EntityOutcome, id: string)
    ensures UnknownEntity(id) in OutcomeWarnings(o) <==> o == Unknown(id)
  {
    if o.Unknown? {
      assert OutcomeWarnings(o) == [UnknownEntity(o.id)];
    }
  }

  /** A run of outcomes creates `e` exactly when one of them is `Created(e)`. */
  lemma {:induction false} CreatedOfIff(os: seq<EntityOutcome>, e: ClipboardEntity)
    ensures e in CreatedOf(os) <==> exists i :: 0 <= i < |os| && os[i] == Created(e)
    decreases |os|
  {
    if os != [] {
      var n := |os| - 1;
      var front := os[..n];
      CreatedOfIff(front, e);
      OutcomeEntitiesIff(os[n], e);
      if e in CreatedOf(front) {
        var i :| 0 <= i < |front| && front[i] == Created(e);
        assert os[i] == front[i];
      }
      if exists i :: 0 <= i < |os| && os[i] == Created(e) {
        var i :| 0 <= i < |os| && os[i] == Created(e);
        if i < n {
          assert front[i] == os[i];
        }
      }
    }
  }

  /** A run of outcomes warns about `id` exactly when one of them is `Unknown(id)`. */
  lemma {:induction false} WarningsOfIff(os: seq<EntityOutcome>, id: string)
    ensures UnknownEntity(id) in WarningsOf(os) <==> exists i :: 0 <= i < |os| && os[i] == Unknown(id)
    decreases |os|
  {
    if os != [] {
      var n := |os| - 1;
      var front := os[..n];
      WarningsOfIff(front, id);
      OutcomeWarningsIff(os[n], id);
      if UnknownEntity(id) in WarningsOf(front) {
        var i :| 0 <= i < |front| && front[i] == Unknown(id);
        assert os[i] == front[i];
      }
      if exists i :: 0 <= i < |os| && os[i] == Unknown(id) {
        var i :| 0 <= i < |os| && os[i] == Unknown(id);
        if i < n {
          assert front[i] == os[i];
        }
      }
    }
  }

  /** Each outcome yields at most one entity or one warning. */
  lemma {:induction false} OutcomesCount(os: seq<EntityOutcome>)
    ensures |CreatedOf(os)| + |WarningsOf(os)| <= |os|
    decreases |os|
  {
    if os != [] {
      OutcomesCount(os[..|os| - 1]);
    }
  }

  /** An entity is created exactly when some element of the list decodes to it: none invented, none lost. */
  lemma CreatedEntitiesOf(env: Env, tags: seq<Tag>, e: ClipboardEntity)
    ensures e in EntitiesOf(env, tags) <==> exists i :: 0 <= i < |tags| && DecodeEntity(env, tags[i]) == Created(e)
  {
    CreatedOfIff(Outcomes(env, tags), e);
  }

  /** An unknown-entity warning is logged exactly for the names the list's elements fail to resolve. */
  lemma EntityWarningsOf(env: Env, tags: seq<Tag>, id: string)
    ensures UnknownEntity(id) in EntityWarnings(env, tags) <==>
            exists i :: 0 <= i < |tags| && DecodeEntity(env, tags[i]) == Unknown(id)
  {
    WarningsOfIff(Outcomes(env, tags), id);
  }

  /**
   * Every list element yields at most one entity or one warning, and every
   * created entity has a type the registry knows.
   */
  lemma EntitiesAccounted(env: Env, tags: seq<Tag>)
    ensures |EntitiesOf(env, tags)| + |EntityWarnings(env, tags)| <= |tags|
    ensures forall e :: e in EntitiesOf(env, tags) ==> e.entity.entityType in env.entityTypes.Values
  {
    OutcomesCount(Outcomes(env, tags));
    forall e | e in EntitiesOf(env, tags)
      ensures e.entity.entityType in env.entityTypes.Values
    {
      CreatedEntitiesOf(env, tags, e);
      var i :| 0 <= i < |tags| && DecodeEntity(env, tags[i]) == Created(e);
      var lower := ToLower(ConvertEntityId(GetString(tags[i].fields, "id")));
      assert e.entity.entityType == env.entityTypes[lower];
    }
  }

  // -----------------------------------------------------------------------
  // The reader
  // -----------------------------------------------------------------------

  /** `MCEditSchematicReader`: reads one schematic from its root tag. */
  class MCEditSchematicReader {
    const root: NamedTag
    const env: Env

    constructor (root: NamedTag, env: Env)
      ensures this.root == root && this.env == env
    {
      this.root := root;
      this.env := env;
    }

    /**
     * `read`: either the first structural error, with no clipboard, or
     * a clipboard over the metadata's region and origin holding exactly the
     * placed cells and the decoded entities, plus the logged warnings.
     */
    method Read() returns (r: Result<Clipboard>, warnings: seq<Warning>)
      requires Prepare(root).Ok? ==> InBounds(Prepare(root).value)
      ensures r.Err? <==> Prepare(root).Err?
      ensures r.Err? ==> r.error == Prepare(root).error && warnings == []
      ensures r.Ok? ==>
                var input := Prepare(root).value;
                var tp := TilePass(input, env, input.tileEntities);
                var entityTags := if input.entities.Some? then input.entities.value else [];
                && fresh(r.value) && r.value.Valid()
                && r.value.region == input.meta.region
                && r.value.origin == input.meta.origin
                && BlocksPlaced(r.value.blocks, input, env, tp)
                && r.value.entities == EntitiesOf(env, entityTags)
                && warnings == PlacementWarnings(input, env, tp, Dim(input.meta.width)) + EntityWarnings(env, entityTags)
    {
      var prepared := Prepare(root);
      if prepared.Err? {
        return Err(prepared.error), [];
      }
      var clipboard;
      clipboard, warnings := Build(prepared.value);
      r := Ok(clipboard);
    }

    /**
     * The part of `read` after every required tag has been found: the id
     * reconstruction, the tile-entity pass, the placement loop and the
     * entity pass, over a fresh clipboard.
     */
    method Build(input: Input) returns (clipboard: Clipboard, warnings: seq<Warning>)
      requires input.meta.region == VolumeRegion(input.meta.region.pos1, input.meta.width, input.meta.height, input.meta.length)
      requires InBounds(input)
      ensures var tp := TilePass(input, env, input.tileEntities);
              var entityTags := if input.entities.Some? then input.entities.value else [];
              && fresh(clipboard) && clipboard.Valid()
              && clipboard.region == input.meta.region
              && clipboard.origin == input.meta.origin
              && BlocksPlaced(clipboard.blocks, input, env, tp)
              && clipboard.entities == EntitiesOf(env, entityTags)
              && warnings == PlacementWarnings(input, env, tp, Dim(input.meta.width)) + EntityWarnings(env, entityTags)
    {
      var blocks := ReconstructIds(input.blockId, input.addId);
      var tileEntitiesMap, blockOverrides := CollectTileEntities(input, blocks, env);
      var tp := TileState(tileEntitiesMap, blockOverrides);
      clipboard := new Clipboard(input.meta.region);
      clipboard.SetOrigin(input.meta.origin);
      warnings := PlaceBlocks(clipboard, input, blocks, tp, env);
      var entityTags := if input.entities.Some? then input.entities.value else [];
      if input.entities.Some? {
        var entityWarnings := AddEntities(clipboard, env, input.entities.value);
        warnings := warnings + entityWarnings;
      } else {
        assert EntitiesOf(env, entityTags) == [] && EntityWarnings(env, entityTags) == [];
      }
    }
  }
}
