/** inode.c: inode records inside the per-group inode tables. */
module Inode {
  import opened Bytes
  import opened DirBlock
  import opened Disk

  const N_BLOCKS: nat := 15
  const S_IFMT: nat := 0x1000
  const S_IFDIR: nat := 4
  const S_IFREG: nat := 8
  const S_IFLNK: nat := 10

  datatype Inode = Inode(
    mode: nat, uid: nat, size: nat, atime: nat, ctime: nat, mtime: nat, dtime: nat,
    gid: nat, links: nat, sectors: nat, flags: nat, block: seq<nat>)
  {
    /** INODE_IS_DIR, INODE_IS_REG, INODE_IS_LNK: the top four bits of the mode. */
    predicate IsDir() { mode / S_IFMT == S_IFDIR }
    predicate IsReg() { mode / S_IFMT == S_IFREG }
    predicate IsLnk() { mode / S_IFMT == S_IFLNK }
  }

  function DecodeInode(s: seq<byte>): (r: Inode)
    requires |s| == INODE_SIZE
    ensures |r.block| == N_BLOCKS && r.links < U16_LIMIT && r.size < U32_LIMIT
    ensures forall i :: 0 <= i < N_BLOCKS ==> r.block[i] == U32(s, 40 + 4 * i)
  {
    Inode(U16(s, 0), U16(s, 2), U32(s, 4), U32(s, 8), U32(s, 12), U32(s, 16), U32(s, 20),
          U16(s, 24), U16(s, 26), U32(s, 28), U32(s, 32),
          seq(N_BLOCKS, i requires 0 <= i < N_BLOCKS => U32(s, 40 + 4 * i)))
  }

  /** Every group's table lies on the disk, and no two groups' tables overlap. */
  ghost predicate Tables(g: Geometry, size: nat) {
    && g.inodesPerGroup > 0
    && g.InodeGroups() <= |g.inodeTable|
    && (forall i :: 0 <= i < g.InodeGroups() ==> g.inodeTable[i] + g.TableBlocks() <= size)
    && (forall i, j :: 0 <= i < j < g.InodeGroups() ==>
          g.inodeTable[i] + g.TableBlocks() <= g.inodeTable[j] || g.inodeTable[j] + g.TableBlocks() <= g.inodeTable[i])
  }

  /** get_inode_group_offset and get_inode_offset_in_group. */
  function GroupOf(g: Geometry, n: nat): (i: nat)
    requires g.inodesPerGroup > 0 && g.HasInode(n)
    ensures i < g.InodeGroups()
  {
    GroupInRange(n - 1, g.inodesCount, g.inodesPerGroup);
    (n - 1) / g.inodesPerGroup
  }

  lemma GroupInRange(x: nat, total: nat, per: nat)
    requires per > 0 && x < total
    ensures x / per < CeilDiv(total, per)
  {
    var q, r := x / per, x % per;
    var c := CeilDiv(total, per);
    assert x == per * q + r;
    if q >= c { MulMono(c, q, per); }
  }

  function IndexOf(g: Geometry, n: nat): (k: nat)
    requires g.inodesPerGroup > 0 && g.HasInode(n)
    ensures k < g.inodesPerGroup && k / 8 < g.TableBlocks()
  {
    assert forall k: nat :: k < g.inodesPerGroup ==>
           k / 8 < (g.inodesPerGroup * INODE_SIZE + BLOCK_SIZE - 1) / BLOCK_SIZE;
    (n - 1) % g.inodesPerGroup
  }

  /** The block holding inode `n`, and where in it the record starts. */
  function TableBlock(g: Geometry, n: nat): nat
    requires g.inodesPerGroup > 0 && g.HasInode(n) && g.InodeGroups() <= |g.inodeTable|
  {
    g.inodeTable[GroupOf(g, n)] + IndexOf(g, n) / 8
  }

  function TableOffset(g: Geometry, n: nat): (o: nat)
    requires g.inodesPerGroup > 0 && g.HasInode(n)
    ensures o + INODE_SIZE <= BLOCK_SIZE
  {
    IndexOf(g, n) % 8 * INODE_SIZE
  }

  function InodeBytes(g: Geometry, img: Image, n: nat): (s: seq<byte>)
    requires Tables(g, |img|) && g.HasInode(n)
    ensures |s| == INODE_SIZE
  {
    img[TableBlock(g, n)][TableOffset(g, n)..TableOffset(g, n) + INODE_SIZE]
  }

  function InodeAt(g: Geometry, img: Image, n: nat): (r: Inode)
    requires Tables(g, |img|) && g.HasInode(n)
    ensures |r.block| == N_BLOCKS
  {
    DecodeInode(InodeBytes(g, img, n))
  }

  /** The blocks that hold inodes. */
  ghost predicate IsTableBlock(g: Geometry, b: nat)
    requires g.inodesPerGroup > 0 && g.InodeGroups() <= |g.inodeTable|
  {
    exists i :: 0 <= i < g.InodeGroups() && g.inodeTable[i] <= b < g.inodeTable[i] + g.TableBlocks()
  }

  lemma TableBlockIsTable(g: Geometry, n: nat)
    requires g.inodesPerGroup > 0 && g.HasInode(n) && g.InodeGroups() <= |g.inodeTable|
    ensures IsTableBlock(g, TableBlock(g, n))
  {
    var i := GroupOf(g, n);
    assert g.inodeTable[i] <= TableBlock(g, n) < g.inodeTable[i] + g.TableBlocks();
  }

  /** An image that agrees on the inode tables holds the same inodes. */
  lemma SameInode(g: Geometry, a: Image, b: Image, n: nat)
    requires |a| == |b| && Tables(g, |a|) && g.HasInode(n)
    requires a[TableBlock(g, n)] == b[TableBlock(g, n)]
    ensures InodeBytes(g, a, n) == InodeBytes(g, b, n) && InodeAt(g, a, n) == InodeAt(g, b, n)
  {
  }

  lemma GroupAndIndex(g: Geometry, n: nat)
    requires g.inodesPerGroup > 0 && g.HasInode(n)
    ensures n - 1 == g.inodesPerGroup * GroupOf(g, n) + IndexOf(g, n)
  {
  }

  lemma SlotsApart(k: nat, l: nat)
    requires k != l
    ensures k / 8 != l / 8 || k % 8 * INODE_SIZE + INODE_SIZE <= l % 8 * INODE_SIZE ||
            l % 8 * INODE_SIZE + INODE_SIZE <= k % 8 * INODE_SIZE
  {
    assert k == 8 * (k / 8) + k % 8 && l == 8 * (l / 8) + l % 8;
  }

  /** Two inodes never share a byte of the tables. */
  lemma RecordsApart(g: Geometry, m: nat, n: nat, size: nat)
    requires Tables(g, size) && g.HasInode(m) && g.HasInode(n) && m != n
    ensures TableBlock(g, m) != TableBlock(g, n)
            || TableOffset(g, m) + INODE_SIZE <= TableOffset(g, n)
            || TableOffset(g, n) + INODE_SIZE <= TableOffset(g, m)
  {
    hide GroupOf, IndexOf;
    var gm, gn, km, kn := GroupOf(g, m), GroupOf(g, n), IndexOf(g, m), IndexOf(g, n);
    if gm == gn {
      GroupAndIndex(g, m);
      GroupAndIndex(g, n);
      SlotsApart(km, kn);
    } else {
      var t := g.inodeTable;
      var w := g.TableBlocks();
      assert t[gm] + w <= t[gn] || t[gn] + w <= t[gm];
    }
  }

  /** write_inode's effect on the image. */
  function PutLinks(g: Geometry, img: Image, n: nat, links: nat): (r: Image)
    requires Tables(g, |img|) && g.HasInode(n)
    ensures |r| == |img|
  {
    img[TableBlock(g, n) := PutLe(img[TableBlock(g, n)], TableOffset(g, n) + 26, links, 2)]
  }

  /** write_inode then read_inode gives the new link count and leaves every other
      byte of that record alone, the operating-system and trailing fields included. */
  lemma PutLinksHere(g: Geometry, img: Image, n: nat, links: nat)
    requires Tables(g, |img|) && g.HasInode(n)
    ensures InodeAt(g, PutLinks(g, img, n, links), n)
            == InodeAt(g, img, n).(links := links % U16_LIMIT)
    ensures InodeBytes(g, PutLinks(g, img, n, links), n)
            == PutLe(InodeBytes(g, img, n), 26, links, 2)
  {
    var b, o := img[TableBlock(g, n)], TableOffset(g, n);
    var s := InodeBytes(g, img, n);
    PutU16(b, o + 26, links);
    PutU16(s, 26, links);
    assert PutLe(b, o + 26, links, 2)[o..o + INODE_SIZE] == PutLe(s, 26, links, 2);
    DecodePutLinks(s, links);
  }

  lemma DecodePutLinks(s: seq<byte>, links: nat)
    requires |s| == INODE_SIZE
    ensures DecodeInode(PutLe(s, 26, links, 2)) == DecodeInode(s).(links := links % U16_LIMIT)
  {
    var t := PutLe(s, 26, links, 2);
    PutU16(s, 26, links);
    assert forall i :: 0 <= i < N_BLOCKS ==> U32(t, 40 + 4 * i) == U32(s, 40 + 4 * i);
    assert DecodeInode(t).block == DecodeInode(s).block;
  }

  /** No other inode of any group changes, although a whole table block is written. */
  lemma PutLinksElsewhere(g: Geometry, img: Image, n: nat, links: nat, m: nat)
    requires Tables(g, |img|) && g.HasInode(n) && g.HasInode(m) && m != n
    ensures InodeBytes(g, PutLinks(g, img, n, links), m) == InodeBytes(g, img, m)
    ensures InodeAt(g, PutLinks(g, img, n, links), m) == InodeAt(g, img, m)
  {
    RecordsApart(g, m, n, |img|);
    var b, o := img[TableBlock(g, n)], TableOffset(g, n);
    var c := PutLe(b, o + 26, links, 2);
    if TableBlock(g, m) == TableBlock(g, n) {
      var p := TableOffset(g, m);
      assert c[p..p + INODE_SIZE] == b[p..p + INODE_SIZE];
    }
  }

  /** read_group_inode_table: the table's blocks, end to end. */
  method ReadGroupTable(d: Disk, start: nat, table: array<byte>)
    requires start + d.g.TableBlocks() <= |d.blocks|
    requires table.Length == d.g.TableBlocks() * BLOCK_SIZE
    modifies table
    ensures forall k :: 0 <= k < table.Length ==> table[k] == d.blocks[start + k / BLOCK_SIZE][k % BLOCK_SIZE]
  {
    var i := 0;
    while i < d.g.TableBlocks()
      invariant 0 <= i <= d.g.TableBlocks()
      invariant forall k :: 0 <= k < i * BLOCK_SIZE ==> table[k] == d.blocks[start + k / BLOCK_SIZE][k % BLOCK_SIZE]
    {
      d.ReadBlock(start + i, table, i * BLOCK_SIZE);
      i := i + 1;
    }
  }

  /** Inode records tile the concatenated table. */
  lemma RecordInTable(g: Geometry, img: Image, n: nat, table: seq<byte>)
    requires Tables(g, |img|) && g.HasInode(n) && |table| == g.TableBlocks() * BLOCK_SIZE
    requires forall k :: 0 <= k < |table| ==>
               table[k] == img[g.inodeTable[GroupOf(g, n)] + k / BLOCK_SIZE][k % BLOCK_SIZE]
    ensures var o := IndexOf(g, n) * INODE_SIZE;
            && o + INODE_SIZE <= |table|
            && table[o..o + INODE_SIZE] == InodeBytes(g, img, n)
  {
    var k := IndexOf(g, n);
    var o := k * INODE_SIZE;
    assert o + INODE_SIZE <= |table|;
    forall j | 0 <= j < INODE_SIZE
      ensures table[o + j] == InodeBytes(g, img, n)[j]
    {
      assert (o + j) / BLOCK_SIZE == k / 8 && (o + j) % BLOCK_SIZE == k % 8 * INODE_SIZE + j;
    }
  }

  method Parse2(buf: array<byte>, o: nat) returns (r: nat)
    requires o + 2 <= buf.Length
    ensures r == U16(buf[..], o)
  {
    FieldWidths(buf[..], o);
    r := ParseBytes(buf, o, 2);
  }

  method Parse4(buf: array<byte>, o: nat) returns (r: nat)
    requires o + 4 <= buf.Length
    ensures r == U32(buf[..], o)
  {
    FieldWidths(buf[..], o);
    r := ParseBytes(buf, o, 4);
  }

  method ParseInode(table: array<byte>, o: nat) returns (r: Inode)
    requires o + INODE_SIZE <= table.Length
    ensures r == DecodeInode(table[o..o + INODE_SIZE])
  {
    var mode := Parse2(table, o);
    var uid := Parse2(table, o + 2);
    var size := Parse4(table, o + 4);
    var atime := Parse4(table, o + 8);
    var ctime := Parse4(table, o + 12);
    var mtime := Parse4(table, o + 16);
    var dtime := Parse4(table, o + 20);
    var gid := Parse2(table, o + 24);
    var links := Parse2(table, o + 26);
    var sectors := Parse4(table, o + 28);
    var flags := Parse4(table, o + 32);
    var block := ParsePointers(table, o);
    r := Inode(mode, uid, size, atime, ctime, mtime, dtime, gid, links, sectors, flags, block);
    assert r.block == DecodeInode(table[o..o + INODE_SIZE]).block;
  }

  method ParsePointers(table: array<byte>, o: nat) returns (block: seq<nat>)
    requires o + INODE_SIZE <= table.Length
    ensures |block| == N_BLOCKS
    ensures forall j :: 0 <= j < N_BLOCKS ==> block[j] == U32(table[o..o + INODE_SIZE], 40 + 4 * j)
  {
    block := [];
    var i := 0;
    while i < N_BLOCKS
      invariant 0 <= i <= N_BLOCKS && |block| == i
      invariant forall j :: 0 <= j < i ==> block[j] == U32(table[o..o + INODE_SIZE], 40 + 4 * j)
    {
      var p := Parse4(table, o + 40 + i * 4);
      block := block + [p];
      i := i + 1;
    }
  }

  method ReadInode(d: Disk, n: nat) returns (r: Inode)
    requires Tables(d.g, |d.blocks|) && d.g.HasInode(n)
    ensures r == InodeAt(d.g, d.blocks, n)
  {
    var table := new byte[d.g.TableBlocks() * BLOCK_SIZE];
    ReadGroupTable(d, d.g.inodeTable[GroupOf(d.g, n)], table);
    RecordInTable(d.g, d.blocks, n, table[..]);
    var o := IndexOf(d.g, n) * INODE_SIZE;
    r := ParseInode(table, o);
    assert table[o..o + INODE_SIZE] == table[..][o..o + INODE_SIZE];
  }

  /** A two-byte write, seen through a block-sized window. */
  lemma PutInWindow(s: seq<byte>, at: nat, o: nat, v: nat)
    requires o + 2 <= BLOCK_SIZE && at + BLOCK_SIZE <= |s|
    ensures PutLe(s, at + o, v, 2)[at..at + BLOCK_SIZE] == PutLe(s[at..at + BLOCK_SIZE], o, v, 2)
  {
    PutU16(s, at + o, v);
    PutU16(s[at..at + BLOCK_SIZE], o, v);
  }

  /** One block of the concatenated table. */
  lemma BlockInTable(img: Image, start: nat, table: seq<byte>, index: nat)
    requires index * BLOCK_SIZE + BLOCK_SIZE <= |table| && start + index < |img|
    requires forall k :: 0 <= k < |table| ==>
               start + k / BLOCK_SIZE < |img| && table[k] == img[start + k / BLOCK_SIZE][k % BLOCK_SIZE]
    ensures table[index * BLOCK_SIZE..index * BLOCK_SIZE + BLOCK_SIZE] == img[start + index]
  {
    var at := index * BLOCK_SIZE;
    var window := table[at..at + BLOCK_SIZE];
    forall j | 0 <= j < BLOCK_SIZE
      ensures window[j] == img[start + index][j]
    {
      assert (at + j) / BLOCK_SIZE == index && (at + j) % BLOCK_SIZE == j;
    }
  }

  /** Writes the low 16 bits of `links` into one block of the table. */
  method WriteInode(d: Disk, n: nat, links: nat)
    requires Tables(d.g, |d.blocks|) && d.g.HasInode(n)
    modifies d
    ensures d.blocks == PutLinks(d.g, old(d.blocks), n, links)
    ensures d.writes == old(d.writes) + [TableBlock(d.g, n)]
  {
    hide PutLe;
    var table := new byte[d.g.TableBlocks() * BLOCK_SIZE];
    var start := d.g.inodeTable[GroupOf(d.g, n)];
    ReadGroupTable(d, start, table);
    var o := IndexOf(d.g, n) * INODE_SIZE;
    var index, offsetInBlock := o / BLOCK_SIZE, o % BLOCK_SIZE + 26;
    var at := index * BLOCK_SIZE;
    assert index == IndexOf(d.g, n) / 8 && offsetInBlock == TableOffset(d.g, n) + 26;
    BlockInTable(d.blocks, start, table[..], index);
    PutInWindow(table[..], at, offsetInBlock, links);
    WriteNumber(table, at + offsetInBlock, links, 2);
    assert table[at..at + BLOCK_SIZE] == table[..][at..at + BLOCK_SIZE];
    d.WriteBlock(start + index, table, at);
  }
}
