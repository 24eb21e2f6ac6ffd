/** The on-disk formats spelled out in bytes and numbers: what the program takes a group, an
  inode, a bitmap bit and a directory record to be. */
module Formats {
  import opened Bytes
  import opened DirBlock
  import opened Disk
  import opened Bitmap
  import opened Inode
  import opened Names
  import opened LostFound
  import opened Pass4

  /** `n` is the least number of pieces of `unit` that `total` fits into. */
  predicate Least(n: nat, unit: nat, total: nat) {
    n * unit >= total && (n > 0 ==> (n - 1) * unit < total)
  }

  lemma LeastOne(m: nat, n: nat, unit: nat, total: nat)
    requires unit > 0 && Least(m, unit, total) && Least(n, unit, total)
    ensures m == n
  {
    if m < n { MulMono(m, n - 1, unit); }
    if n < m { MulMono(n, m - 1, unit); }
  }

  lemma CeilIsLeast(a: nat, b: nat)
    requires b > 0
    ensures Least(CeilDiv(a, b), b, a)
  {
    var q, r := (a + b - 1) / b, (a + b - 1) % b;
    assert a + b - 1 == b * q + r;
    assert q * b == b * q && (q - 1) * b == b * q - b;
  }

  /** The sizes of the parts of a group: bitmaps of 8192 bits a block, tables of inodes of
      128 bytes in blocks of 1024. */
  lemma PartSizes(g: Geometry)
    ensures Least(g.BlockBitmapBlocks(), 8192, g.blocksPerGroup)
    ensures Least(g.InodeBitmapBlocks(), 8192, g.inodesPerGroup)
    ensures Least(g.TableBlocks(), 1024, g.inodesPerGroup * 128)
    ensures g.blocksPerGroup > 0 ==> Least(g.BlockGroups(), g.blocksPerGroup, g.blocksCount)
    ensures g.inodesPerGroup > 0 ==> Least(g.InodeGroups(), g.inodesPerGroup, g.inodesCount)
  {
    BitmapSize(g.blocksPerGroup);
    BitmapSize(g.inodesPerGroup);
    CeilIsLeast(g.inodesPerGroup * 128, 1024);
    if g.blocksPerGroup > 0 { CeilIsLeast(g.blocksCount, g.blocksPerGroup); }
    if g.inodesPerGroup > 0 { CeilIsLeast(g.inodesCount, g.inodesPerGroup); }
  }

  lemma BitmapSize(bits: nat)
    ensures Least(CeilDiv(CeilDiv(bits, BITS_PER_BYTE), BLOCK_SIZE), 8192, bits)
  {
    CeilIsLeast(bits, 8);
    CeilIsLeast(CeilDiv(bits, 8), 1024);
  }

  /** Group `i`, from block 1 + i * blocksPerGroup on, opens with superblock, descriptor
      block, block bitmap, inode bitmap and inode table, the last three `nb`, `nib` and
      `nt` blocks long. */
  ghost predicate Laid(g: Geometry, i: nat, nb: nat, nib: nat, nt: nat) {
    && i < |g.blockBitmap| && i < |g.inodeBitmap| && i < |g.inodeTable|
    && Least(nb, 8192, g.blocksPerGroup) && Least(nib, 8192, g.inodesPerGroup)
    && Least(nt, 1024, g.inodesPerGroup * 128)
    && g.blockBitmap[i] == 1 + i * g.blocksPerGroup + 2
    && g.inodeBitmap[i] == g.blockBitmap[i] + nb
    && g.inodeTable[i] == g.inodeBitmap[i] + nib
  }

  /** pass4 verifies a block of such a group exactly when it is on the disk and none of
      these. */
  lemma VerifiedIff(g: Geometry, i: nat, nb: nat, nib: nat, nt: nat, y: nat)
    requires g.blocksPerGroup > 0 && Laid(g, i, nb, nib, nt)
    requires 1 + i * g.blocksPerGroup <= y < 1 + (i + 1) * g.blocksPerGroup
    ensures IsData(g, y) <==>
            && y < g.blocksCount
            && y != 1 + i * g.blocksPerGroup
            && y != 1 + i * g.blocksPerGroup + 1
            && !(g.blockBitmap[i] <= y < g.blockBitmap[i] + nb)
            && !(g.inodeBitmap[i] <= y < g.inodeBitmap[i] + nib)
            && !(g.inodeTable[i] <= y < g.inodeTable[i] + nt)
  {
    hide *;
    LaidSizes(g, i, nb, nib, nt);
    DataAt(g, i, y);
    InParts(y, 1 + i * g.blocksPerGroup, g.blockBitmap[i], nb, g.inodeBitmap[i], nib, g.inodeTable[i], nt);
  }

  lemma LaidSizes(g: Geometry, i: nat, nb: nat, nib: nat, nt: nat)
    requires Laid(g, i, nb, nib, nt)
    ensures i < |g.blockBitmap| && i < |g.inodeBitmap| && i < |g.inodeTable| && g.Skip() == 2 + nb + nib + nt
    ensures g.blockBitmap[i] == 1 + i * g.blocksPerGroup + 2
    ensures g.inodeBitmap[i] == g.blockBitmap[i] + nb && g.inodeTable[i] == g.inodeBitmap[i] + nib
  {
    hide Least, Geometry.Skip, Geometry.BlockBitmapBlocks, Geometry.InodeBitmapBlocks, Geometry.TableBlocks;
    PartSizes(g);
    LeastOne(nb, g.BlockBitmapBlocks(), 8192, g.blocksPerGroup);
    LeastOne(nib, g.InodeBitmapBlocks(), 8192, g.inodesPerGroup);
    LeastOne(nt, g.TableBlocks(), 1024, g.inodesPerGroup * 128);
    SkippedSum(g, nb, nib, nt);
  }

  lemma DataAt(g: Geometry, i: nat, y: nat)
    requires g.blocksPerGroup > 0 && 1 + i * g.blocksPerGroup <= y < 1 + (i + 1) * g.blocksPerGroup
    ensures IsData(g, y) <==> y < g.blocksCount && y - (1 + i * g.blocksPerGroup) >= g.Skip()
  {
    hide Geometry.Skip;
    RestAt(y - 1, i, g.blocksPerGroup);
  }

  lemma SkippedSum(g: Geometry, nb: nat, nib: nat, nt: nat)
    requires nb == g.BlockBitmapBlocks() && nib == g.InodeBitmapBlocks() && nt == g.TableBlocks()
    ensures g.Skip() == 2 + nb + nib + nt
  {
    hide Geometry.BlockBitmapBlocks, Geometry.InodeBitmapBlocks, Geometry.TableBlocks;
  }

  lemma InParts(y: nat, start: nat, bb: nat, nb: nat, ib: nat, nib: nat, tb: nat, nt: nat)
    requires start <= y && bb == start + 2 && ib == bb + nb && tb == ib + nib
    ensures y - start >= 2 + nb + nib + nt <==>
            y != start && y != start + 1 && !(bb <= y < bb + nb) && !(ib <= y < ib + nib) && !(tb <= y < tb + nt)
  {
  }

  /** The second loop verifies the blocks of the inode tables of all groups that the
      partition's blocks fill, the last one perhaps in part. */
  lemma TableBlocksIff(g: Geometry, groups: nat, nt: nat, y: nat)
    requires g.blocksPerGroup > 0 && Least(groups, g.blocksPerGroup, g.blocksCount) && groups <= |g.inodeTable|
    requires Least(nt, 1024, g.inodesPerGroup * 128)
    ensures g.BlockGroups() <= |g.inodeTable|
    ensures InTable(g, y) <==> exists i :: 0 <= i < groups && g.inodeTable[i] <= y < g.inodeTable[i] + nt
  {
    PartSizes(g);
    LeastOne(groups, g.BlockGroups(), g.blocksPerGroup, g.blocksCount);
    LeastOne(nt, g.TableBlocks(), 1024, g.inodesPerGroup * 128);
  }

  /** The byte at address `a` of the partition. */
  function ByteAt(img: Image, a: nat): byte
    requires a / 1024 < |img|
  {
    img[a / 1024][a % 1024]
  }

  /** Two and four bytes, the least significant first. */
  function Two(s: seq<byte>, o: nat): nat
    requires o + 2 <= |s|
  {
    s[o] as int + 256 * s[o + 1] as int
  }

  function Four(s: seq<byte>, o: nat): nat
    requires o + 4 <= |s|
  {
    Two(s, o) + 65536 * Two(s, o + 2)
  }

  /** The same from address `a` of the partition on. */
  function TwoAt(img: Image, a: nat): nat
    requires (a + 1) / 1024 < |img|
  {
    Two([ByteAt(img, a), ByteAt(img, a + 1)], 0)
  }

  function FourAt(img: Image, a: nat): nat
    requires (a + 3) / 1024 < |img|
  {
    TwoAt(img, a) + 65536 * TwoAt(img, a + 2)
  }

  /** Where inode `n`'s record starts: 128 bytes for each inode before it in its group,
      counted from the group's table. */
  function RecordAddress(g: Geometry, n: nat): nat
    requires g.inodesPerGroup > 0 && 1 <= n && (n - 1) / g.inodesPerGroup < |g.inodeTable|
  {
    g.inodeTable[(n - 1) / g.inodesPerGroup] * 1024 + (n - 1) % g.inodesPerGroup * 128
  }

  /** The 128 bytes from address `a` on. */
  ghost predicate Copied(s: seq<byte>, img: Image, a: nat) {
    |s| == 128 && (a + 127) / 1024 < |img| && forall j :: 0 <= j < 128 ==> s[j] == ByteAt(img, a + j)
  }

  lemma RecordBytesAt(g: Geometry, img: Image, n: nat)
    requires Tables(g, |img|) && g.HasInode(n)
    ensures (n - 1) / g.inodesPerGroup < |g.inodeTable| && Copied(InodeBytes(g, img, n), img, RecordAddress(g, n))
  {
    var i, k := GroupOf(g, n), IndexOf(g, n);
    assert g.inodeTable[i] + g.TableBlocks() <= |img|;
    SameAddress(g, n);
    CopiedFrom(img, g.inodeTable[i], k, InodeBytes(g, img, n));
  }

  lemma CopiedFrom(img: Image, t: nat, k: nat, s: seq<byte>)
    requires t + k / 8 < |img| && s == img[t + k / 8][k % 8 * 128..k % 8 * 128 + 128]
    ensures Copied(s, img, t * 1024 + k * 128)
  {
    AddressParts(t, k, 127);
    forall j | 0 <= j < 128
      ensures (t * 1024 + k * 128 + j) / 1024 < |img| && s[j] == ByteAt(img, t * 1024 + k * 128 + j)
    {
      AddressParts(t, k, j);
    }
  }

  lemma TwoField(s: seq<byte>, img: Image, a: nat, k: nat)
    requires Copied(s, img, a) && k + 2 <= 128
    ensures (a + k + 1) / 1024 < |img| && U16(s, k) == TwoAt(img, a + k)
  {
    assert s[k] == ByteAt(img, a + k) && s[k + 1] == ByteAt(img, a + (k + 1));
  }

  lemma FourField(s: seq<byte>, img: Image, a: nat, k: nat)
    requires Copied(s, img, a) && k + 4 <= 128
    ensures (a + k + 3) / 1024 < |img| && U32(s, k) == FourAt(img, a + k)
  {
    TwoField(s, img, a, k);
    TwoField(s, img, a, k + 2);
    assert U32(s, k) == U16(s, k) + 65536 * U16(s, k + 2);
  }

  lemma SameAddress(g: Geometry, n: nat)
    requires g.inodesPerGroup > 0 && g.HasInode(n) && g.InodeGroups() <= |g.inodeTable|
    ensures GroupOf(g, n) == (n - 1) / g.inodesPerGroup < |g.inodeTable|
    ensures RecordAddress(g, n) == g.inodeTable[GroupOf(g, n)] * 1024 + IndexOf(g, n) * 128
  {
  }

  lemma AddressParts(t: nat, k: nat, j: nat)
    requires j < 128
    ensures (t * 1024 + k * 128 + j) / 1024 == t + k / 8
    ensures (t * 1024 + k * 128 + j) % 1024 == k % 8 * 128 + j
  {
    assert k == 8 * (k / 8) + k % 8;
  }

  /** What an inode's fields are on the disk, in two or four bytes from the record's address. */
  ghost predicate RecordIs(r: Inode, img: Image, a: nat)
    requires (a + 127) / 1024 < |img|
  {
    FieldsAre(r, img, a) && PointersAre(r, img, a)
  }

  ghost predicate FieldsAre(r: Inode, img: Image, a: nat)
    requires (a + 127) / 1024 < |img|
  {
    && r.mode == TwoAt(img, a) && r.uid == TwoAt(img, a + 2) && r.size == FourAt(img, a + 4)
    && r.atime == FourAt(img, a + 8) && r.ctime == FourAt(img, a + 12) && r.mtime == FourAt(img, a + 16)
    && r.dtime == FourAt(img, a + 20) && r.gid == TwoAt(img, a + 24) && r.links == TwoAt(img, a + 26)
    && r.sectors == FourAt(img, a + 28) && r.flags == FourAt(img, a + 32)
  }

  ghost predicate PointersAre(r: Inode, img: Image, a: nat)
    requires (a + 127) / 1024 < |img|
  {
    |r.block| == 15 && forall i :: 0 <= i < 15 ==> r.block[i] == FourAt(img, a + 40 + 4 * i)
  }

  /** Every field of an inode, on the disk. */
  lemma InodeOnDisk(g: Geometry, img: Image, n: nat)
    requires Tables(g, |img|) && g.HasInode(n)
    ensures (n - 1) / g.inodesPerGroup < |g.inodeTable| && (RecordAddress(g, n) + 127) / 1024 < |img|
    ensures RecordIs(InodeAt(g, img, n), img, RecordAddress(g, n))
  {
    RecordBytesAt(g, img, n);
    hide RecordAddress, InodeBytes, Tables, FieldsAre, PointersAre;
    FieldsCopied(InodeBytes(g, img, n), img, RecordAddress(g, n));
    PointersCopied(InodeBytes(g, img, n), img, RecordAddress(g, n));
  }

  lemma FieldsCopied(s: seq<byte>, img: Image, a: nat)
    requires Copied(s, img, a)
    ensures FieldsAre(DecodeInode(s), img, a)
  {
    assert |s| == 128 && (a + 127) / 1024 < |img|;
    hide Copied, U16, U32, TwoAt, FourAt;
    TwoField(s, img, a, 0);
    TwoField(s, img, a, 2);
    FourField(s, img, a, 4);
    FourField(s, img, a, 8);
    FourField(s, img, a, 12);
    FourField(s, img, a, 16);
    FourField(s, img, a, 20);
    TwoField(s, img, a, 24);
    TwoField(s, img, a, 26);
    FourField(s, img, a, 28);
    FourField(s, img, a, 32);
  }

  lemma PointersCopied(s: seq<byte>, img: Image, a: nat)
    requires Copied(s, img, a)
    ensures PointersAre(DecodeInode(s), img, a)
  {
    assert |s| == 128 && (a + 127) / 1024 < |img|;
    hide Copied, U16, U32, TwoAt, FourAt;
    forall i | 0 <= i < 15
      ensures U32(s, 40 + 4 * i) == FourAt(img, a + 40 + 4 * i)
    {
      FourField(s, img, a, 40 + 4 * i);
    }
  }

  /** The three kinds of mode that the program tells apart. */
  lemma ModeRanges(r: Inode)
    ensures r.IsDir() <==> 0x4000 <= r.mode < 0x5000
    ensures r.IsReg() <==> 0x8000 <= r.mode < 0x9000
    ensures r.IsLnk() <==> 0xa000 <= r.mode < 0xb000
  {
  }

  /** write_inode changes bytes 26 and 27 of the record, and no other byte of the disk. */
  lemma LinksOnDisk(g: Geometry, img: Image, n: nat, links: nat, x: nat)
    requires Tables(g, |img|) && g.HasInode(n) && x / 1024 < |img|
    ensures (n - 1) / g.inodesPerGroup < |g.inodeTable|
    ensures var a := RecordAddress(g, n);
            ByteAt(PutLinks(g, img, n, links), x) ==
            if x == a + 26 then links % 256 else if x == a + 27 then links / 256 % 256 else ByteAt(img, x)
  {
    var i, k := GroupOf(g, n), IndexOf(g, n);
    SameAddress(g, n);
    AddressParts(g.inodeTable[i], k, 26);
    AddressParts(g.inodeTable[i], k, 27);
    var t, o := TableBlock(g, n), TableOffset(g, n) + 26;
    PutTwo(img[t], o, links);
    assert x == x / 1024 * 1024 + x % 1024;
  }

  lemma PutTwo(b: Block, o: nat, v: nat)
    requires o + 2 <= BLOCK_SIZE
    ensures PutLe(b, o, v, 2)[o] == v % 256 && PutLe(b, o, v, 2)[o + 1] == v / 256 % 256
    ensures forall j :: 0 <= j < BLOCK_SIZE && j != o && j != o + 1 ==> PutLe(b, o, v, 2)[j] == b[j]
  {
    PutU16(b, o, v);
  }

  /** Bit `k` of a byte, counted from the least significant. */
  lemma {:induction false} BitTable(v: nat, k: nat)
    requires k < 8
    ensures Bit(v, k) == v / [1, 2, 4, 8, 16, 32, 64, 128][k] % 2
    decreases k
  {
    if k > 0 {
      BitTable(v / 2, k - 1);
      DivTwice(v, [1, 2, 4, 8, 16, 32, 64, 128][k - 1]);
    }
  }

  lemma DivTwice(v: nat, p: nat)
    requires p > 0
    ensures v / 2 / p == v / (2 * p)
  {
    var q, r := v / 2 / p, v / 2 % p;
    assert v / 2 == p * q + r;
    DivUnique(v, 2 * p, q, 2 * r + v % 2);
  }

  /** The byte that holds object `x`'s own bit: eight bits a byte, from the start of its
      group's bitmap. */
  function OwnAddress(starts: seq<nat>, per: nat, x: nat): nat
    requires per > 0 && 1 <= x && (x - 1) / per < |starts|
  {
    starts[(x - 1) / per] * 1024 + (x - 1) % per / 8
  }

  lemma OwnBitOnDisk(img: Image, starts: seq<nat>, per: nat, total: nat, x: nat)
    requires Maps(starts, per, total, |img|) && 1 <= x <= total
    ensures (x - 1) / per < |starts| && GroupAt(starts, per, x).0 < |img| && OwnAddress(starts, per, x) / 1024 < |img|
    ensures OwnBit(img, starts, per, x)
            == ByteAt(img, OwnAddress(starts, per, x)) / [1, 2, 4, 8, 16, 32, 64, 128][(x - 1) % per % 8] % 2
  {
    hide *;
    RunsOf(starts, per, total, |img|);
    OwnInRuns(starts, per, total, |img|, x);
    OwnParts(img, starts, per, x, (x - 1) / per, (x - 1) % per);
    BitOfBlock(img, starts[(x - 1) / per], (x - 1) % per);
  }

  lemma OwnParts(img: Image, starts: seq<nat>, per: nat, x: nat, i: nat, r: nat)
    requires per > 0 && 1 <= x && i == (x - 1) / per && r == (x - 1) % per
    requires i < |starts| && GroupAt(starts, per, x).0 < |img|
    ensures starts[i] + r / 8192 < |img| && OwnAddress(starts, per, x) == starts[i] * 1024 + r / 8
    ensures OwnBit(img, starts, per, x) == Bit(img[starts[i] + r / 8192][r % 8192 / 8], r % 8)
  {
    hide Bit;
    OwnPlaces(r);
  }

  lemma OwnPlaces(r: nat)
    ensures r % 8192 % 8 == r % 8
  {
    var q, t := r / 8192, r % 8192;
    DivUnique(r, 8, 1024 * q + t / 8, t % 8);
  }

  lemma BitOfBlock(img: Image, s: nat, r: nat)
    requires s + r / 8192 < |img|
    ensures (s * 1024 + r / 8) / 1024 < |img|
    ensures Bit(img[s + r / 8192][r % 8192 / 8], r % 8)
            == ByteAt(img, s * 1024 + r / 8) / [1, 2, 4, 8, 16, 32, 64, 128][r % 8] % 2
  {
    hide Bit;
    BitAddress(s, r);
    BitTable(img[s + r / 8192][r % 8192 / 8], r % 8);
  }

  lemma BitAddress(s: nat, r: nat)
    ensures (s * 1024 + r / 8) / 1024 == s + r / 8192 && (s * 1024 + r / 8) % 1024 == r % 8192 / 8
  {
    assert r == 8192 * (r / 8192) + r % 8192;
  }

  /** A directory record's bytes: inode, record length, name length, type, name. */
  lemma EntryOnBytes(b: Block, o: nat)
    requires Record(b, o)
    ensures var e := EntryAt(b, o);
            && e.ino == Four(b, o) && e.recLen == Two(b, o + 4)
            && |e.name| == b[o + 6] && e.fileType == b[o + 7] && (e.IsDir() <==> b[o + 7] == 2)
            && forall j :: 0 <= j < |e.name| ==> e.name[j] == b[o + 8 + j]
  {
  }

  /** The decimal name of an inode, digit by digit. */
  lemma DecimalDigits(n: nat)
    requires n > 0
    ensures Decimal(n) == (if n < 10 then [] else Decimal(n / 10)) + [48 + n % 10]
  {
    assert RevDigits(n) == [n % 10 + 48] + RevDigits(n / 10);
    assert RevDigits(n)[1..] == RevDigits(n / 10);
    if n < 10 { assert RevDigits(0) == []; }
  }

  /** The entry made for a rescued inode: type 2 for a directory, 1 for anything else. */
  lemma NewEntryIs(n: nat, isDir: bool)
    ensures var e := NewEntry(n, isDir);
            && e.ino == n && e.fileType == (if isDir then 2 else 1) && e.name == Decimal(n)
            && e.recLen == (8 + |Decimal(n)| + 3) / 4 * 4
  {
    PadIs(|Decimal(n)|);
  }

  /** The bytes that write_new_entry leaves for it at `o`, where it takes the rest of the block. */
  lemma NewEntryBytes(b: Block, c: Block, o: nat, n: nat, isDir: bool)
    requires 0 < n < U32_LIMIT && o + 8 + |Decimal(n)| + 1 <= 1024
    requires |Decimal(n)| <= 255 && c == PutEntry(b, o, NewEntry(n, isDir).(recLen := 1024 - o))
    ensures Four(c, o) == n && Two(c, o + 4) == 1024 - o
    ensures c[o + 6] == |Decimal(n)| && c[o + 7] == (if isDir then 2 else 1)
    ensures c[o + 8..o + 8 + |Decimal(n)|] == Decimal(n) && c[o + 8 + |Decimal(n)|] == 0
    ensures forall j :: 0 <= j < 1024 && !(o <= j <= o + 8 + |Decimal(n)|) ==> c[j] == b[j]
  {
    var e := NewEntry(n, isDir).(recLen := 1024 - o);
    PutEntryDecodes(b, c, o, e);
    hide PutEntry;
    EntryOnBytes(c, o);
    hide Decimal;
    NulBehind(b, c, o, e);
  }

  lemma NulBehind(b: Block, c: Block, o: nat, e: Entry)
    requires |e.name| <= 255 && o + PREFIX_LEN + |e.name| + 1 <= BLOCK_SIZE && e.fileType < 256 &&
             c == PutEntry(b, o, e)
    ensures c[o + 8 + |e.name|] == 0
    ensures forall j :: 0 <= j < 1024 && !(o <= j <= o + 8 + |e.name|) ==> c[j] == b[j]
  {
  }

  /** A name as strcmp sees it: what comes before the first NUL. */
  lemma {:induction false} CStrIs(name: seq<byte>)
    ensures |CStr(name)| <= |name| && CStr(name) == name[..|CStr(name)|]
    ensures forall j :: 0 <= j < |CStr(name)| ==> name[j] != 0
    ensures |CStr(name)| < |name| ==> name[|CStr(name)|] == 0
  {
    if name != [] && name[0] != 0 {
      CStrIs(name[1..]);
      assert name == [name[0]] + name[1..];
    }
  }

  /** Entry `k` is the first that has the name. */
  ghost predicate FirstNamed(es: seq<Entry>, k: nat, name: seq<byte>) {
    k < |es| && CStr(es[k].name) == name && forall j :: 0 <= j < k ==> CStr(es[j].name) != name
  }

  /** Looking a name up finds the first entry that has it. */
  lemma {:induction false} FindIsFirst(es: seq<Entry>, name: seq<byte>)
    ensures Find(es, name).None? <==> forall k :: 0 <= k < |es| ==> CStr(es[k].name) != name
    ensures forall k: nat :: FirstNamed(es, k, name) ==> Find(es, name) == Some(es[k].ino)
  {
    hide CStr;
    if es != [] && CStr(es[0].name) != name {
      FindIsFirst(es[1..], name);
      forall k: nat | FirstNamed(es, k, name)
        ensures FirstNamed(es[1..], k - 1, name)
      {
        assert forall j :: 0 <= j < |es| - 1 ==> es[1..][j] == es[j + 1];
      }
      forall k | 1 <= k < |es|
        ensures es[k] == es[1..][k - 1]
      {
      }
    }
  }

  /** The name that the root is searched for. */
  lemma LostFoundName()
    ensures |LOST_FOUND| == 10 && forall i :: 0 <= i < 10 ==> LOST_FOUND[i] == "lost+found"[i] as int
  {
  }

  /** The rewrite of a rescued inode's first block: bytes 12 to 15. */
  lemma RewriteBytes(b: Block, lf: nat)
    requires lf < U32_LIMIT
    ensures var c := PutLe(b, FIRST_ENTRY_LEN, lf, 4);
            && |c| == 1024 && Four(c, 12) == lf
            && forall j :: 0 <= j < 1024 && !(12 <= j < 16) ==> c[j] == b[j]
  {
    PutU32(b, FIRST_ENTRY_LEN, lf);
  }
}
