/** The device under repair, one partition of it, as a sequence of 1024-byte blocks. */
module Disk {
  import opened Bytes
  import opened DirBlock

  type Image = seq<Block>

  const INODE_SIZE: nat := 128
  const BITS_PER_BYTE: nat := 8
  const BITS_PER_BLOCK: nat := 8192
  const ROOT_INO: nat := 2

  function CeilDiv(a: nat, b: nat): (q: nat)
    requires b > 0
    ensures q * b >= a
  {
    DivCeil(a, b);
    (a + b - 1) / b
  }

  lemma DivCeil(a: nat, b: nat)
    requires b > 0
    ensures (a + b - 1) / b * b >= a
  {
    var q, r := (a + b - 1) / b, (a + b - 1) % b;
    assert a + b - 1 == b * q + r;
    assert b * q == q * b;
  }

  /** The superblock fields and group descriptor pointers that the passes use. */
  datatype Geometry = Geometry(
    inodesCount: nat, blocksCount: nat, blocksPerGroup: nat, inodesPerGroup: nat,
    blockBitmap: seq<nat>, inodeBitmap: seq<nat>, inodeTable: seq<nat>)
  {
    /** get_block_group_num, get_inode_group_num. */
    function BlockGroups(): nat
      requires blocksPerGroup > 0
    {
      CeilDiv(blocksCount, blocksPerGroup)
    }

    function InodeGroups(): nat
      requires inodesPerGroup > 0
    {
      CeilDiv(inodesCount, inodesPerGroup)
    }

    /** get_group_block_bitmap_block_num, get_group_inode_bitmap_block_num. */
    function BlockBitmapBlocks(): nat {
      CeilDiv(CeilDiv(blocksPerGroup, BITS_PER_BYTE), BLOCK_SIZE)
    }

    function InodeBitmapBlocks(): nat {
      CeilDiv(CeilDiv(inodesPerGroup, BITS_PER_BYTE), BLOCK_SIZE)
    }

    /** get_group_inode_block_num. */
    function TableBlocks(): nat {
      CeilDiv(inodesPerGroup * INODE_SIZE, BLOCK_SIZE)
    }

    /** get_skip_block_num_in_group: superblock, descriptors, both bitmaps, inode table. */
    function Skip(): nat {
      2 + BlockBitmapBlocks() + InodeBitmapBlocks() + TableBlocks()
    }

    predicate HasInode(n: nat) { 1 <= n <= inodesCount }
  }

  /** readwrite.c and util.c's block access.  `writes` records every block number
      written, oldest first. */
  class Disk {
    const g: Geometry
    var blocks: Image
    ghost var writes: seq<nat>

    constructor (g: Geometry, blocks: Image)
      ensures this.g == g && this.blocks == blocks && writes == []
    {
      this.g := g;
      this.blocks := blocks;
      writes := [];
    }

    /** read_block into `into + at`. */
    method ReadBlock(id: nat, into: array<byte>, at: nat)
      requires id < |blocks| && at + BLOCK_SIZE <= into.Length
      modifies into
      ensures forall k :: at <= k < at + BLOCK_SIZE ==> into[k] == blocks[id][k - at]
      ensures forall k :: 0 <= k < into.Length && !(at <= k < at + BLOCK_SIZE) ==> into[k] == old(into[k])
      ensures at == 0 && into.Length == BLOCK_SIZE ==> into[..] == blocks[id]
    {
      forall k | at <= k < at + BLOCK_SIZE {
        into[k] := blocks[id][k - at];
      }
    }

    /** write_block from `from + at`. */
    method WriteBlock(id: nat, from: array<byte>, at: nat)
      requires id < |blocks| && at + BLOCK_SIZE <= from.Length
      modifies this
      ensures blocks == old(blocks)[id := from[at..at + BLOCK_SIZE]]
      ensures writes == old(writes) + [id]
    {
      blocks := blocks[id := from[at..at + BLOCK_SIZE]];
      writes := writes + [id];
    }
  }
}
