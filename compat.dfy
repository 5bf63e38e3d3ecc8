/**
 * The two ordered chains of compatibility handlers the reader runs: block
 * handlers over tile-entity cells, and entity handlers over decoded entities.
 * The concrete handlers are parameters; each is a recogniser plus an update.
 */
module Compat {
  import opened Nbt

  /** A modern block state: a block type and its property values. */
  datatype BlockState = BlockState(blockType: string, properties: map<string, string>)

  /** A modern entity type. */
  datatype EntityType = EntityType(id: string)

  /**
   * What a block handler's `updateNBT` yields: the block to use (absent for
   * Java's `null`) and the tile-entity values after the handler changed them.
   */
  datatype BlockUpdate = BlockUpdate(block: Option<BlockState>, values: map<string, Tag>)

  /** `NBTCompatibilityHandler`: `isAffectedBlock` and `updateNBT`. */
  datatype BlockHandler = BlockHandler(
    isAffected: BlockState -> bool,
    updateNbt: (BlockState, map<string, Tag>) -> BlockUpdate)

  /** `EntityNBTCompatibilityHandler`: `isAffectedEntity` and `updateNBT`. */
  datatype EntityHandler = EntityHandler(
    isAffected: (EntityType, map<string, Tag>) -> bool,
    updateNbt: (EntityType, map<string, Tag>) -> map<string, Tag>)

  /**
   * The block chain from `current` on: a handler is asked about the running
   * result `current`, but is given the originally resolved `block`; the chain
   * stops at the first handler that yields no block.
   */
  function BlockChain(handlers: seq<BlockHandler>, block: BlockState, current: BlockState,
                      values: map<string, Tag>): BlockUpdate
    decreases |handlers|
  {
    if handlers == [] then BlockUpdate(Some(current), values)
    else if handlers[0].isAffected(current) then
      var u := handlers[0].updateNbt(block, values);
      if u.block.None? then u else BlockChain(handlers[1..], block, u.block.value, u.values)
    else BlockChain(handlers[1..], block, current, values)
  }

  /**
   * The block handler loop of the tile-entity pass, for a resolved (non-null) block:
   * a running `newBlock`, the shared `values` map, and a `break` on null.
   */
  method ApplyBlockHandlers(handlers: seq<BlockHandler>, block: BlockState, values: map<string, Tag>)
    returns (newBlock: Option<BlockState>, newValues: map<string, Tag>)
    ensures BlockUpdate(newBlock, newValues) == BlockChain(handlers, block, block, values)
  {
    newBlock, newValues := Some(block), values;
    var i := 0;
    while i < |handlers|
      invariant 0 <= i <= |handlers|
      invariant newBlock.Some?
      invariant BlockChain(handlers[i..], block, newBlock.value, newValues) == BlockChain(handlers, block, block, values)
    {
      assert handlers[i..][1..] == handlers[i + 1..];
      var handler := handlers[i];
      if handler.isAffected(newBlock.value) {
        var u := handler.updateNbt(block, newValues);
        newBlock, newValues := u.block, u.values;
        if newBlock == None {
          break;
        }
      }
      i := i + 1;
    }
  }

  /** A chain none of whose handlers recognises the block changes nothing. */
  lemma {:induction false} BlockChainUnaffected(handlers: seq<BlockHandler>, block: BlockState, values: map<string, Tag>)
    requires forall j :: 0 <= j < |handlers| ==> !handlers[j].isAffected(block)
    ensures BlockChain(handlers, block, block, values) == BlockUpdate(Some(block), values)
    decreases |handlers|
  {
    if handlers != [] {
      BlockChainUnaffected(handlers[1..], block, values);
    }
  }

  /**
   * Running two chains one after the other is running their concatenation:
   * handlers run in order, and once a handler yields null no later handler runs.
   */
  lemma {:induction false} BlockChainAppend(first: seq<BlockHandler>, second: seq<BlockHandler>,
                                            block: BlockState, current: BlockState, values: map<string, Tag>)
    ensures var u := BlockChain(first, block, current, values);
            BlockChain(first + second, block, current, values)
            == if u.block.None? then u else BlockChain(second, block, u.block.value, u.values)
    decreases |first|
  {
    if first == [] {
      assert first + second == second;
    } else {
      assert (first + second)[1..] == first[1..] + second;
      var h := first[0];
      if h.isAffected(current) {
        var u := h.updateNbt(block, values);
        if u.block.Some? {
          BlockChainAppend(first[1..], second, block, u.block.value, u.values);
        }
      } else {
        BlockChainAppend(first[1..], second, block, current, values);
      }
    }
  }

  /**
   * The chain's block is either the block it started from or the block some
   * handler of the chain returned when called with the ORIGINAL block.
   */
  lemma {:induction false} BlockChainResultOrigin(handlers: seq<BlockHandler>, block: BlockState,
                                                  current: BlockState, values: map<string, Tag>)
    ensures var r := BlockChain(handlers, block, current, values).block;
            r == Some(current) || r.None? ||
            exists j, v :: 0 <= j < |handlers| && handlers[j].updateNbt(block, v).block == r
    decreases |handlers|
  {
    if handlers != [] {
      var r := BlockChain(handlers, block, current, values).block;
      if handlers[0].isAffected(current) {
        var u := handlers[0].updateNbt(block, values);
        if u.block.Some? {
          BlockChainResultOrigin(handlers[1..], block, u.block.value, u.values);
          if r == u.block {
            assert handlers[0].updateNbt(block, values).block == r;
          } else if r.Some? {
            var j, v :| 0 <= j < |handlers[1..]| && handlers[1..][j].updateNbt(block, v).block == r;
            assert handlers[j + 1].updateNbt(block, v).block == r;
          }
        }
      } else {
        BlockChainResultOrigin(handlers[1..], block, current, values);
        if r != Some(current) && r.Some? {
          var j, v :| 0 <= j < |handlers[1..]| && handlers[1..][j].updateNbt(block, v).block == r;
          assert handlers[j + 1].updateNbt(block, v).block == r;
        }
      }
    }
  }

  /** The entity chain: every affected handler rewrites the compound, later ones see earlier output. */
  function EntityChain(handlers: seq<EntityHandler>, entityType: EntityType, nbt: map<string, Tag>): map<string, Tag>
    decreases |handlers|
  {
    if handlers == [] then nbt
    else
      var next := if handlers[0].isAffected(entityType, nbt) then handlers[0].updateNbt(entityType, nbt) else nbt;
      EntityChain(handlers[1..], entityType, next)
  }

  /** The entity handler loop of the entity pass: each affected handler rewrites the compound. */
  method ApplyEntityHandlers(handlers: seq<EntityHandler>, entityType: EntityType, nbt: map<string, Tag>)
    returns (compound: map<string, Tag>)
    ensures compound == EntityChain(handlers, entityType, nbt)
  {
    compound := nbt;
    var i := 0;
    while i < |handlers|
      invariant 0 <= i <= |handlers|
      invariant EntityChain(handlers[i..], entityType, compound) == EntityChain(handlers, entityType, nbt)
    {
      assert handlers[i..][1..] == handlers[i + 1..];
      if handlers[i].isAffected(entityType, compound) {
        compound := handlers[i].updateNbt(entityType, compound);
      }
      i := i + 1;
    }
  }

  /** An entity no handler recognises keeps its compound. */
  lemma {:induction false} EntityChainUnaffected(handlers: seq<EntityHandler>, entityType: EntityType, nbt: map<string, Tag>)
    requires forall j :: 0 <= j < |handlers| ==> !handlers[j].isAffected(entityType, nbt)
    ensures EntityChain(handlers, entityType, nbt) == nbt
    decreases |handlers|
  {
    if handlers != [] {
      EntityChainUnaffected(handlers[1..], entityType, nbt);
    }
  }

  /** Entity handlers compose in registration order. */
  lemma {:induction false} EntityChainAppend(first: seq<EntityHandler>, second: seq<EntityHandler>,
                                             entityType: EntityType, nbt: map<string, Tag>)
    ensures EntityChain(first + second, entityType, nbt)
            == EntityChain(second, entityType, EntityChain(first, entityType, nbt))
    decreases |first|
  {
    if first == [] {
      assert first + second == second;
    } else {
      assert (first + second)[1..] == first[1..] + second;
      var next := if first[0].isAffected(entityType, nbt) then first[0].updateNbt(entityType, nbt) else nbt;
      EntityChainAppend(first[1..], second, entityType, next);
    }
  }
}
