/**
 * The clipboard the reader fills: a cuboid region, an origin, the blocks
 * written so far (keyed by world position) and the entities created so far.
 */
module Clipboards {
  import opened Nbt
  import opened Geometry
  import opened Compat

  /** A block state together with the tile-entity compound attached to it, if any. */
  datatype BaseBlock = BaseBlock(state: BlockState, nbt: Option<map<string, Tag>>)

  /** Where an entity stands: its raw "Pos" and "Rotation" list elements. */
  datatype Location = Location(pos: seq<Tag>, rotation: seq<Tag>)

  /** An entity of a known type with its (handler-updated) compound. */
  datatype BaseEntity = BaseEntity(entityType: EntityType, nbt: map<string, Tag>)

  datatype ClipboardEntity = ClipboardEntity(location: Location, entity: BaseEntity)

  /** A block-array clipboard over a cuboid region. */
  class Clipboard {
    const region: Region
    var origin: Vec3
    var blocks: map<Vec3, BaseBlock>
    var entities: seq<ClipboardEntity>

    /** Blocks are only ever stored inside the region. */
    ghost predicate Valid()
      reads this
    {
      forall p :: p in blocks ==> region.Contains(p)
    }

    /** A new clipboard is empty and has the region's minimum as its origin. */
    constructor (region: Region)
      ensures Valid()
      ensures this.region == region && origin == region.Minimum()
      ensures blocks == map[] && entities == []
    {
      this.region := region;
      origin := region.Minimum();
      blocks := map[];
      entities := [];
    }

    method SetOrigin(origin: Vec3)
      modifies this`origin
      ensures this.origin == origin
    {
      this.origin := origin;
    }

    /** Stores `block` at `position` when the region contains it; reports whether it did. */
    method SetBlock(position: Vec3, block: BaseBlock) returns (ok: bool)
      requires Valid()
      modifies this`blocks
      ensures Valid()
      ensures ok == region.Contains(position)
      ensures blocks == if ok then old(blocks)[position := block] else old(blocks)
    {
      ok := region.Contains(position);
      if ok {
        blocks := blocks[position := block];
      }
    }

    /** Adds an entity at a location. */
    method CreateEntity(location: Location, entity: BaseEntity)
      modifies this`entities
      ensures entities == old(entities) + [ClipboardEntity(location, entity)]
    {
      entities := entities + [ClipboardEntity(location, entity)];
    }
  }
}
