/**
 * Reconstruction of 12-bit legacy block ids from the "Blocks" byte array
 * (low 8 bits) and the optional "AddBlocks" array (high 4 bits), where two
 * neighbouring cells share one AddBlocks byte.
 *
 * Java's bit operations are written arithmetically: for a signed byte `b`,
 * `b & 0xFF` is `b % 256` (Dafny's `%` is Euclidean), `v << k` is `v * 2^k`,
 * `i >> 1` is `i / 2` and `i & 1` is `i % 2` for a non-negative `i`.
 */
module LegacyIds {
  import opened Nbt

  /** `b & 0xFF`: the byte read as unsigned. */
  function Unsigned(b: Byte): (r: int)
    ensures 0 <= r < 256
    ensures b >= 0 ==> r == b
    ensures b < 0 ==> r == b + 256
  {
    b % 256
  }

  /** `a & 0x0F`: the extension nibble an even cell uses. */
  function LowNibble(a: Byte): int { Unsigned(a) % 16 }

  /** `(a & 0xF0) >> 4`: the extension nibble an odd cell uses. */
  function HighNibble(a: Byte): int { Unsigned(a) / 16 }

  /** The legacy id of cell `i`, as the reconstruction loop computes it. */
  function LegacyId(blockId: seq<Byte>, addId: seq<Byte>, i: nat): (id: int)
    requires i < |blockId|
    ensures 0 <= id < 4096
    ensures id % 256 == Unsigned(blockId[i])
  {
    if i / 2 >= |addId| then
      Unsigned(blockId[i])
    else if i % 2 == 0 then
      LowNibble(addId[i / 2]) * 256 + Unsigned(blockId[i])          // ((add & 0x0F) << 8) + (id & 0xFF)
    else
      (HighNibble(addId[i / 2]) * 16) * 16 + Unsigned(blockId[i])   // ((add & 0xF0) << 4) + (id & 0xFF)
  }

  /** The whole reconstructed array. */
  function LegacyIdArray(blockId: seq<Byte>, addId: seq<Byte>): (ids: seq<int>)
    ensures |ids| == |blockId|
  {
    seq(|blockId|, i requires 0 <= i < |blockId| => LegacyId(blockId, addId, i))
  }

  /**
   * The id-combining loop of `read`: fills a fresh array, one cell at a time, with
   * the legacy ids of the cells.
   */
  method ReconstructIds(blockId: seq<Byte>, addId: seq<Byte>) returns (blocks: array<int>)
    ensures fresh(blocks)
    ensures blocks.Length == |blockId|
    ensures blocks[..] == LegacyIdArray(blockId, addId)
  {
    blocks := new int[|blockId|];
    var index := 0;
    while index < |blockId|
      invariant 0 <= index <= |blockId|
      invariant forall k :: 0 <= k < index ==> blocks[k] == LegacyId(blockId, addId, k)
    {
      if index / 2 >= |addId| {
        blocks[index] := Unsigned(blockId[index]);
      } else {
        if index % 2 == 0 {
          blocks[index] := LowNibble(addId[index / 2]) * 256 + Unsigned(blockId[index]);
        } else {
          blocks[index] := (HighNibble(addId[index / 2]) * 16) * 16 + Unsigned(blockId[index]);
        }
      }
      index := index + 1;
    }
  }

  /**
   * A cell that AddBlocks does not reach (including every cell when
   * AddBlocks is absent, i.e. empty) keeps the 8-bit id of Blocks.
   */
  lemma UncoveredId(blockId: seq<Byte>, addId: seq<Byte>, i: nat)
    requires i < |blockId| && i / 2 >= |addId|
    ensures LegacyId(blockId, addId, i) == Unsigned(blockId[i])
    ensures 0 <= LegacyId(blockId, addId, i) < 256
  {
  }

  /**
   * A cell that AddBlocks reaches gets a 12-bit id whose low 8 bits are the
   * Blocks byte and whose bits 8-11 are the low nibble (even cell) or the
   * high nibble (odd cell) of the shared AddBlocks byte.
   */
  lemma CoveredId(blockId: seq<Byte>, addId: seq<Byte>, i: nat)
    requires i < |blockId| && i / 2 < |addId|
    ensures 0 <= LegacyId(blockId, addId, i) < 4096
    ensures LegacyId(blockId, addId, i) % 256 == Unsigned(blockId[i])
    ensures i % 2 == 0 ==> LegacyId(blockId, addId, i) / 256 == LowNibble(addId[i / 2])
    ensures i % 2 == 1 ==> LegacyId(blockId, addId, i) / 256 == HighNibble(addId[i / 2])
  {
    var nib := if i % 2 == 0 then LowNibble(addId[i / 2]) else HighNibble(addId[i / 2]);
    assert 0 <= nib < 16;
    assert LegacyId(blockId, addId, i) == nib * 256 + Unsigned(blockId[i]);
  }

  /** Two cells sharing the extension byte 0x1F: the even one takes its low nibble 0xF, the odd one its high nibble 0x1. */
  lemma PackingExample()
    ensures LegacyIdArray([0x05, 0x0A], [0x1F]) == [0xF05, 0x10A]
  {
    var ids := LegacyIdArray([0x05, 0x0A], [0x1F]);
    assert ids[0] == LegacyId([0x05, 0x0A], [0x1F], 0) == 0xF05;
    assert ids[1] == LegacyId([0x05, 0x0A], [0x1F], 1) == 0x10A;
  }

  // ---------------------------------------------------------------------
  // The inverse direction: splitting 12-bit ids into the two arrays, as a
  // writer of this format does, and reading them back.
  // ---------------------------------------------------------------------

  /** A value in [0, 255] stored as a signed Java byte. */
  function ToByte(u: int): (b: Byte)
    requires 0 <= u < 256
    ensures Unsigned(b) == u
  {
    if u < 128 then u else u - 256
  }

  /** The high nibble of id `k`, or 0 past the end. */
  function HighBits(ids: seq<int>, k: int): int
    requires forall i :: 0 <= i < |ids| ==> 0 <= ids[i] < 4096
  {
    if 0 <= k < |ids| then ids[k] / 256 else 0
  }

  /** The Blocks array of a list of 12-bit ids. */
  function PackLow(ids: seq<int>): (blocks: seq<Byte>)
    requires forall i :: 0 <= i < |ids| ==> 0 <= ids[i] < 4096
    ensures |blocks| == |ids|
  {
    seq(|ids|, i requires 0 <= i < |ids| => ToByte(ids[i] % 256))
  }

  /** The AddBlocks array of a list of 12-bit ids: cell 2j in the low nibble of byte j, cell 2j+1 in its high nibble. */
  function PackHigh(ids: seq<int>): (add: seq<Byte>)
    requires forall i :: 0 <= i < |ids| ==> 0 <= ids[i] < 4096
    ensures |add| == (|ids| + 1) / 2
  {
    seq((|ids| + 1) / 2, j requires 0 <= j < (|ids| + 1) / 2 =>
      ToByte(HighBits(ids, 2 * j + 1) * 16 + HighBits(ids, 2 * j)))
  }

  /** Reconstruction undoes the packing: every 12-bit id comes back unchanged. */
  lemma ReconstructInvertsPacking(ids: seq<int>)
    requires forall i :: 0 <= i < |ids| ==> 0 <= ids[i] < 4096
    ensures LegacyIdArray(PackLow(ids), PackHigh(ids)) == ids
  {
    forall i | 0 <= i < |ids|
      ensures LegacyId(PackLow(ids), PackHigh(ids), i) == ids[i]
    {
      ReconstructOne(ids, i);
    }
  }

  /** Cell `i` of the packed arrays reads back as `ids[i]`. */
  lemma ReconstructOne(ids: seq<int>, i: nat)
    requires forall i :: 0 <= i < |ids| ==> 0 <= ids[i] < 4096
    requires i < |ids|
    ensures LegacyId(PackLow(ids), PackHigh(ids), i) == ids[i]
  {
    var low, high := PackLow(ids), PackHigh(ids);
    var j := i / 2;
    assert j < |high|;
    var h0, h1 := HighBits(ids, 2 * j), HighBits(ids, 2 * j + 1);
    assert 0 <= h0 < 16 && 0 <= h1 < 16;
    assert Unsigned(high[j]) == h1 * 16 + h0;
    assert Unsigned(low[i]) == ids[i] % 256;
    NibblePair(h1, h0);
    if i % 2 == 0 {
      assert i == 2 * j && h0 == ids[i] / 256;
      assert LowNibble(high[j]) == h0;
    } else {
      assert i == 2 * j + 1 && h1 == ids[i] / 256;
      assert HighNibble(high[j]) == h1;
    }
  }

  /** The byte `h1 * 16 + h0` splits back into its two nibbles. */
  lemma NibblePair(h1: int, h0: int)
    requires 0 <= h0 < 16 && 0 <= h1 < 16
    ensures (h1 * 16 + h0) % 16 == h0 && (h1 * 16 + h0) / 16 == h1
  {
  }
}
