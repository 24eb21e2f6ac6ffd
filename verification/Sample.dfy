/** Three small disks: a root, an empty lost+found and inodes 12, 13 and 14, which no
  directory of the tree names. */
module Sample {
  import opened Bytes
  import opened DirBlock
  import opened Disk
  import opened Bitmap
  import opened Inode
  import opened Tree
  import opened Acyclic
  import opened Dots
  import opened Layout
  import opened Walk
  import opened Names
  import opened LostFound
  import opened Rescue
  import opened Rounds
  import opened Orphans
  import opened Listed
  import opened Outcome
  import opened Pass2
  import opened Pass4
  import opened Fsck
  import opened AnyRun

  /** Filed: 12 and 13 are directories, 14 a regular file of one block or, with `text`, a
      symbolic link whose target stands in the inode itself.
      Chained: three directories, 12's stale `..` names 13 and 13's names 14.
      Nested: three directories, 12 inside 13. */
  datatype Kind = Filed(text: bool) | Chained | Nested

  const LF: nat := 11
  const ONE: nat := 12
  const TWO: nat := 13
  const THREE: nat := 14
  /** The bytes of "/usr" read as a block number. */
  const TEXT: nat := 0x7273_752f
  const DOT: seq<byte> := [46]
  const DOT_DOT: seq<byte> := [46, 46]

  /** Blocks 1 and 2: superblock and descriptors; 3 and 4: bitmaps; 5 and 6: inode
      table; 7 and 8: root and lost+found; 9 to 11: the first blocks of 12 to 14. */
  function G(): Geometry {
    Geometry(16, 12, 8192, 16, [3], [4], [5])
  }

  function Zero(): (b: Block)
    ensures forall i :: 0 <= i < BLOCK_SIZE ==> b[i] == 0
  {
    seq(BLOCK_SIZE, i => 0)
  }

  function DotBytes(self: nat, parent: nat): Block {
    SpliceBytes(PutEntry(Zero(), 0, Entry(self, BLOCK_SIZE, DIR_TYPE, DOT)), 0, 12,
      Entry(parent, 12, DIR_TYPE, DOT_DOT))
  }

  function DotPair(self: nat, parent: nat): seq<Entry> {
    [Entry(self, 12, DIR_TYPE, DOT), Entry(parent, BLOCK_SIZE - 12, DIR_TYPE, DOT_DOT)]
  }

  lemma DotsDecode(self: nat, parent: nat)
    requires 0 < self < U32_LIMIT && 0 < parent < U32_LIMIT
    ensures BlockFrom(DotBytes(self, parent), 0, DotPair(self, parent))
  {
    hide PutEntry, SpliceBytes, Chain, Decode;
    var first := Entry(self, BLOCK_SIZE, DIR_TYPE, DOT);
    var second := Entry(parent, 12, DIR_TYPE, DOT_DOT);
    var b := PutEntry(Zero(), 0, first);
    PutEntryDecodes(Zero(), b, 0, first);
    var es := [first];
    SpanOne(first);
    assert es[..0] == [];
    assert CutOf(first) == 12;
    SpliceLands(b, DotBytes(self, parent), es, 0, second);
    assert Splice(es, second) == DotPair(self, parent);
  }

  lemma SpanOne(e: Entry)
    ensures Span([e]) == e.recLen && Span([]) == 0
  {
    assert Span([e]) == e.recLen + Span([e][1..]);
  }

  /** The two dots and entry `e`. */
  function TripleBytes(self: nat, parent: nat, e: Entry): Block
    requires |e.name| <= 255 && e.fileType < 256
  {
    SpliceBytes(DotBytes(self, parent), 12, 12, e)
  }

  function Triple(self: nat, parent: nat, e: Entry): seq<Entry> {
    [Entry(self, 12, DIR_TYPE, DOT), Entry(parent, 12, DIR_TYPE, DOT_DOT), e.(recLen := BLOCK_SIZE - 24)]
  }

  lemma DotsSpan(self: nat, parent: nat)
    ensures Span(DotPair(self, parent)) == BLOCK_SIZE && Span(DotPair(self, parent)[..1]) == 12
    ensures Complete(DotPair(self, parent)) && SpliceStart(DotPair(self, parent)) == 12 &&
            CutOf(DotPair(self, parent)[1]) == 12
  {
    var es := DotPair(self, parent);
    assert es[1..] == [es[1]] && es[..1] == [es[0]];
    SpanOne(es[0]);
    SpanOne(es[1]);
  }

  lemma TripleDecode(self: nat, parent: nat, e: Entry)
    requires 0 < self < U32_LIMIT && 0 < parent < U32_LIMIT && 0 < e.ino < U32_LIMIT && e.fileType < 256
    requires |e.name| <= 10 && PREFIX_LEN + |e.name| <= e.recLen <= 20
    ensures BlockFrom(TripleBytes(self, parent, e), 0, Triple(self, parent, e))
  {
    hide PutEntry, SpliceBytes, Chain, Decode, DotBytes;
    var es := DotPair(self, parent);
    DotsDecode(self, parent);
    DotsSpan(self, parent);
    SpliceLands(DotBytes(self, parent), TripleBytes(self, parent, e), es, 0, e);
    assert Splice(es, e) == Triple(self, parent, e);
  }

  function ToLostFound(): Entry { Entry(LF, 20, DIR_TYPE, LOST_FOUND) }

  function ToOne(): Entry { Entry(ONE, 12, DIR_TYPE, [97]) }

  function StaleOne(k: Kind): nat { if k.Filed? then ROOT_INO else TWO }

  function StaleTwo(k: Kind): nat { if k.Chained? then THREE else ROOT_INO }

  function TwoBytes(k: Kind): Block {
    if k.Nested? then TripleBytes(TWO, ROOT_INO, ToOne()) else DotBytes(TWO, StaleTwo(k))
  }

  function ThreeBytes(k: Kind): Block { if k.Filed? then Zero() else DotBytes(THREE, ROOT_INO) }

  function TwoEntries(k: Kind): seq<Entry> {
    if k.Nested? then Triple(TWO, ROOT_INO, ToOne()) else DotPair(TWO, StaleTwo(k))
  }

  function RootBytes(): Block { TripleBytes(ROOT_INO, ROOT_INO, ToLostFound()) }

  function RootEntries(): seq<Entry> { Triple(ROOT_INO, ROOT_INO, ToLostFound()) }

  function ModeOf(k: Kind, n: nat): (m: byte) {
    if k.Filed? && n == THREE then if k.text then 0xa0 else 0x80 else 0x40
  }

  function SizeOf(k: Kind, n: nat): (m: byte) {
    if k.Filed? && n == THREE then if k.text then 4 else 1 else 0
  }

  function BlockFor(k: Kind, n: nat): nat {
    if k.Filed? && k.text && n == THREE then TEXT else if n == ROOT_INO || n < 3 then 7 else n - 3
  }

  /** Inode 2 is the second record of the first table block, inodes 11 to 14 the third
      to sixth of the second: mode, one link, one block; a file's size is 1. */
  function TableOne(): Block {
    Zero()[129 := 0x40][154 := 1][168 := 7]
  }

  function TableTwo(k: Kind): Block {
    Zero()[257 := 0x40][282 := 1][296 := 8][385 := 0x40][410 := 1][424 := 9][513 := 0x40][538 := 1][552 := 10]
          [641 := ModeOf(k, THREE)][644 := SizeOf(k, THREE)][666 := 1]
          [680 := if k.Filed? && k.text then 0x2f else 11][681 := if k.Filed? && k.text then 0x75 else 0]
          [682 := if k.Filed? && k.text then 0x73 else 0][683 := if k.Filed? && k.text then 0x72 else 0]
  }

  /** The bits of inodes 2 and 11 to 14. */
  function InodeMap(): Block {
    Zero()[0 := 2][1 := 60]
  }

  function Img(k: Kind): (img: Image)
    ensures |img| == 12
  {
    [Zero(), Zero(), Zero(), Zero(), InodeMap(), TableOne(), TableTwo(k),
     RootBytes(), DotBytes(LF, ROOT_INO), DotBytes(ONE, StaleOne(k)), TwoBytes(k), ThreeBytes(k)]
  }

  function P0(k: Kind): Places {
    var p := map[ROOT_INO := [7], LF := [8], ONE := [9], TWO := [10]];
    if k.Filed? then p else p[THREE := [11]]
  }

  function D0(k: Kind): Dirs {
    var d := map[ROOT_INO := [RootEntries()], LF := [DotPair(LF, ROOT_INO)], ONE := [DotPair(ONE, StaleOne(k))],
      TWO := [TwoEntries(k)]];
    if k.Filed? then d else d[THREE := [DotPair(THREE, ROOT_INO)]]
  }

  function F0(): Forest { Dir(LF, Nil, Nil) }

  function Strays(k: Kind): Forest {
    match k
    case Filed(_) => Dir(ONE, Nil, Dir(TWO, Nil, Nil))
    case Chained => Dir(ONE, Nil, Dir(TWO, Nil, Dir(THREE, Nil, Nil)))
    case Nested => Dir(TWO, Dir(ONE, Nil, Nil), Dir(THREE, Nil, Nil))
  }

  function Loose(k: Kind): set<nat> { if k.Filed? then {BlockFor(k, THREE)} else {} }

  function Files(k: Kind): set<nat> { if k.Filed? then {THREE} else {} }

  function W(k: Kind): Setup {
    Setup(P0(k), D0(k), F0(), Strays(k), LF, Loose(k), Files(k))
  }

  lemma Sizes()
    ensures G().BlockGroups() == 1 && G().InodeGroups() == 1 && G().BlockBitmapBlocks() == 1 &&
            G().InodeBitmapBlocks() == 1
    ensures G().TableBlocks() == 2 && G().Skip() == 6
  {
  }

  lemma GeometryFits()
    ensures Geometric(G(), 12)
  {
    hide Geometry.BlockGroups, Geometry.InodeGroups, Geometry.BlockBitmapBlocks, Geometry.InodeBitmapBlocks,
         Geometry.TableBlocks, Geometry.Skip;
    Sizes();
  }

  /** A record at `o` with mode byte `m`, size `s`, one link and the one block `b`. */
  predicate Fields(t: seq<byte>, o: nat, m: nat, s: nat, b: nat) {
    && o + INODE_SIZE <= |t|
    && t[o] == 0 && t[o + 1] == m && t[o + 26] == 1 && t[o + 27] == 0 && U32(t, o + 40) == b
    && t[o + 4] == s && t[o + 5] == 0 && t[o + 6] == 0 && t[o + 7] == 0
    && forall i :: o + 44 <= i < o + 48 ==> t[i] == 0
  }

  lemma TablesHold(k: Kind)
    ensures Fields(TableOne(), 128, 0x40, 0, 7)
    ensures Fields(TableTwo(k), 256, 0x40, 0, 8) && Fields(TableTwo(k), 384, 0x40, 0, 9)
    ensures Fields(TableTwo(k), 512, 0x40, 0, 10)
    ensures Fields(TableTwo(k), 640, ModeOf(k, THREE), SizeOf(k, THREE), BlockFor(k, THREE))
  {
    hide *;
    FirstTable();
    SecondTable(k);
    LastRecord(k);
  }

  lemma FirstTable()
    ensures Fields(TableOne(), 128, 0x40, 0, 7)
  {
  }

  lemma SecondTable(k: Kind)
    ensures Fields(TableTwo(k), 256, 0x40, 0, 8) && Fields(TableTwo(k), 384, 0x40, 0, 9)
    ensures Fields(TableTwo(k), 512, 0x40, 0, 10)
  {
    hide ModeOf, SizeOf;
  }

  lemma LastRecord(k: Kind)
    ensures Fields(TableTwo(k), 640, ModeOf(k, THREE), SizeOf(k, THREE), BlockFor(k, THREE))
  {
    hide ModeOf, SizeOf;
  }

  /** The first pointer of inode 2 or 11 to 14. */
  predicate Owns(k: Kind, n: nat, b: nat) {
    (n == ROOT_INO || LF <= n <= THREE) && b == BlockFor(k, n)
  }

  lemma Position(n: nat)
    requires 1 <= n <= 16
    ensures Tables(G(), 12) && TableBlock(G(), n) == 5 + (n - 1) / 8 && TableOffset(G(), n) == (n - 1) % 8 * INODE_SIZE
  {
    GeometryFits();
  }


  lemma RecordBytes(k: Kind, n: nat, b: nat)
    requires Owns(k, n, b)
    ensures Tables(G(), 12) && Fields(InodeBytes(G(), Img(k), n), 0, ModeOf(k, n),
            SizeOf(k, n), b)
  {
    hide TableOne, TableTwo, Tables, TableBlock, TableOffset, RootBytes, TwoBytes, ThreeBytes, DotBytes, InodeMap, Zero;
    Position(n);
    TablesHold(k);
    var t: Block := if n == ROOT_INO then TableOne() else TableTwo(k);
    var o := (n - 1) % 8 * INODE_SIZE;
    assert o == if n == ROOT_INO then 128 else 256 + (n - LF) * 128;
    assert InodeBytes(G(), Img(k), n) == t[o..o + INODE_SIZE];
    FieldsInside(t, o, ModeOf(k, n), SizeOf(k, n), b);
  }

  lemma FieldsInside(t: seq<byte>, o: nat, m: nat, s: nat, b: nat)
    requires Fields(t, o, m, s, b)
    ensures Fields(t[o..o + INODE_SIZE], 0, m, s, b)
  {
  }

  lemma FieldsDecode(t: seq<byte>, m: nat, s: nat, b: nat)
    requires |t| == INODE_SIZE && Fields(t, 0, m, s, b) && b > 0
    ensures DecodeInode(t).mode == 256 * m && DecodeInode(t).links == 1 && DecodeInode(t).size == s
    ensures Walks(DecodeInode(t).block, [b])
  {
    var v := DecodeInode(t);
    assert U16(t, 0) == 256 * m && U16(t, 26) == 1 && U32(t, 4) == s;
    assert U32(t, 40) == b && U32(t, 44) == 0;
    assert v.block[0] == U32(t, 40 + 4 * 0) && v.block[1] == U32(t, 40 + 4 * 1);
    assert v.block[..1] == [b];
  }

  /** The records of inodes 2 and 11 to 14. */
  lemma RecordAt(k: Kind, n: nat, b: nat)
    requires Owns(k, n, b)
    ensures Tables(G(), 12) && InodeAt(G(), Img(k), n).links == 1 && Walks(InodeAt(G(), Img(k), n).block, [b])
    ensures InodeAt(G(), Img(k), n).IsDir() <==> !(k.Filed? && n == THREE)
    ensures k.Filed? && n == THREE ==>
              if k.text then InodeAt(G(), Img(k), n).IsLnk()
              else InodeAt(G(), Img(k), n).IsReg() && InodeAt(G(), Img(k), n).size == 1
  {
    hide Fields, DecodeInode, InodeBytes, Tables, Walks, Img;
    RecordBytes(k, n, b);
    FieldsDecode(InodeBytes(G(), Img(k), n), ModeOf(k, n), SizeOf(k, n), b);
  }

  lemma NotMeta(b: nat)
    requires 7 <= b
    ensures !IsMeta(G(), b)
  {
    Sizes();
  }

  lemma PlaceHolds(k: Kind, n: nat)
    requires n in P0(k)
    ensures Tables(G(), 12) && G().HasInode(n) && Walks(InodeAt(G(), Img(k), n).block, P0(k)[n])
    ensures |P0(k)[n]| == 1 && 7 <= P0(k)[n][0] < 12 && !IsMeta(G(), P0(k)[n][0])
  {
    hide InodeAt, IsMeta, Tables, Walks, Img;
    var b := P0(k)[n][0];
    assert Owns(k, n, b);
    RecordAt(k, n, b);
    NotMeta(b);
  }

  lemma OwnBlocks(k: Kind)
    ensures Apart(P0(k))
  {
  }

  lemma MakePlaced(g: Geometry, img: Image, P: Places)
    requires Tables(g, |img|) && Apart(P)
    requires forall n :: n in P ==> g.HasInode(n) && Walks(InodeAt(g, img, n).block, P[n])
    requires forall n :: n in P ==> |P[n]| == 1 && P[n][0] < |img| && !IsMeta(g, P[n][0])
    ensures Placed(g, img, P)
  {
    hide Tables, InodeAt, Walks, Apart, IsMeta;
  }

  lemma PlacesHold(k: Kind)
    ensures Tables(G(), 12) && Placed(G(), Img(k), P0(k))
  {
    hide *;
    Position(1);
    Twelve(k);
    OwnBlocks(k);
    forall n | n in P0(k)
      ensures G().HasInode(n) && Walks(InodeAt(G(), Img(k), n).block, P0(k)[n])
      ensures |P0(k)[n]| == 1 && P0(k)[n][0] < 12 && !IsMeta(G(), P0(k)[n][0])
    {
      PlaceHolds(k, n);
    }
    MakePlaced(G(), Img(k), P0(k));
  }

  lemma Twelve(k: Kind)
    ensures |Img(k)| == 12
  {
  }

  lemma DirectoriesShow(k: Kind)
    ensures Shows(Img(k), P0(k), D0(k))
  {
    hide BlockFrom, DotBytes, TripleBytes, Triple, DotPair, TableOne, TableTwo, InodeMap, Zero;
    assert RootBytes() == TripleBytes(ROOT_INO, ROOT_INO, ToLostFound());
    TripleDecode(ROOT_INO, ROOT_INO, ToLostFound());
    DotsDecode(LF, ROOT_INO);
    DotsDecode(ONE, StaleOne(k));
    DotsDecode(TWO, StaleTwo(k));
    TripleDecode(TWO, ROOT_INO, ToOne());
    DotsDecode(THREE, ROOT_INO);
  }

  lemma WorldHolds(k: Kind)
    ensures Geometric(G(), 12) && World(G(), Img(k), P0(k), D0(k))
  {
    hide Geometric, Placed, Shows, Img;
    GeometryFits();
    PlacesHold(k);
    DirectoriesShow(k);
  }

  function Live(): set<nat> { {ROOT_INO, LF, ONE, TWO, THREE} }

  /** The live inodes outside the tree. */
  function Outside(): set<nat> { {ONE, TWO, THREE} }

  lemma LiveHolds(k: Kind)
    ensures Tables(G(), 12) && InodeMaps(G(), 12) && LiveIn(G(), Img(k)) == Live()
  {
    hide *;
    Twelve(k);
    Facts();
    forall n | 1 <= n <= 16
      ensures Allocated(G(), Img(k), n) <==> n in Live()
      ensures n in Live() ==> InodeAt(G(), Img(k), n).links != 0
    {
      BitOf(k, n);
      if n in Live() {
        LiveOwns(k, n);
        RecordAt(k, n, BlockFor(k, n));
      }
    }
    MakeLive(G(), Img(k), Live());
  }

  lemma Facts()
    ensures Geometric(G(), 12) && Tables(G(), 12) && InodeMaps(G(), 12) && G().inodesCount == 16 &&
            G().blocksCount == 12
    ensures G().inodesPerGroup > 0 && G().InodeGroups() <= |G().inodeTable| && BlockMaps(G(), 12)
    ensures forall n: nat :: G().HasInode(n) <==> 1 <= n <= 16
    ensures forall n: nat :: n in Live() ==> 1 <= n <= 16
  {
    GeometryFits();
  }

  lemma LiveOwns(k: Kind, n: nat)
    requires n in Live()
    ensures Owns(k, n, BlockFor(k, n))
  {
  }

  lemma MakeLive(g: Geometry, img: Image, s: set<nat>)
    requires Tables(g, |img|) && InodeMaps(g, |img|) && (forall n :: n in s ==> 1 <= n <= g.inodesCount)
    requires forall n :: 1 <= n <= g.inodesCount ==>
               (Allocated(g, img, n) <==> n in s) && (n in s ==> InodeAt(g, img, n).links != 0)
    ensures LiveIn(g, img) == s
  {
    hide Tables, InodeMaps, Allocated, InodeAt;
  }

  lemma LiveIs(n: nat)
    ensures n in Live() <==> n == ROOT_INO || n == LF || n == ONE || n == TWO || n == THREE
  {
  }

  lemma BitOf(k: Kind, n: nat)
    requires 1 <= n <= 16
    ensures InodeMaps(G(), 12) && (Allocated(G(), Img(k), n) <==> n in Live())
  {
    hide *;
    Facts();
    MapBits(n - 1);
    Twelve(k);
    FourthBlock(k);
    LiveIs(n);
    Numbers();
    OwnBitIs(k, n);
  }

  lemma FourthBlock(k: Kind)
    ensures Img(k)[4] == InodeMap()
  {
    hide InodeMap, Zero, TableOne, TableTwo, RootBytes, DotBytes, TwoBytes, ThreeBytes;
  }

  lemma OwnBitIs(k: Kind, n: nat)
    requires 1 <= n <= 16 && |Img(k)| == 12
    ensures InodeMaps(G(), 12) && (Allocated(G(), Img(k), n) <==> BlockBit(Img(k)[4], n - 1) == 1)
  {
    Facts();
    Sizes();
    hide Img, BlockBit, Geometric, Tables, BlockMaps;
    assert G().inodeBitmap == [4] && G().inodesPerGroup == 16 && G().HasInode(n);
    assert (n - 1) / BITS_PER_BLOCK == 0 && (n - 1) % BITS_PER_BLOCK == n - 1;
    assert GroupAt([4], 16, n) == (4, n - 1);
    assert OwnBit(Img(k), [4], 16, n) == BlockBit(Img(k)[4], n - 1);
  }

  lemma MapBits(i: nat)
    requires i < 16
    ensures BlockBit(InodeMap(), i) == 1 <==> i == 1 || 10 <= i <= 13
  {
    if i >= 8 {
      assert InodeMap()[i / 8] == 60;
      FourBits(i % 8);
    } else {
      assert InodeMap()[i / 8] == 2;
      OneBit(i % 8);
    }
  }

  lemma FourBits(j: nat)
    requires j < 8
    ensures Bit(60, j) == 1 <==> 2 <= j <= 5
  {
    assert Bit(60, 0) == Bit(60, 1) == Bit(60, 6) == Bit(60, 7) == 0;
    assert Bit(60, 2) == Bit(60, 3) == Bit(60, 4) == Bit(60, 5) == 1;
  }

  lemma OneBit(j: nat)
    requires j < 8
    ensures Bit(2, j) == 1 <==> j == 1
  {
    assert Bit(2, 0) == Bit(2, 2) == Bit(2, 3) == Bit(2, 4) == Bit(2, 5) == Bit(2, 6) == Bit(2, 7) == 0;
    assert Bit(2, 1) == 1;
  }

  ghost function C(k: Kind): (c: Case)
  {
    GeometryFits();
    CaseFor(G(), Img(k), W(k))
  }

  lemma FlatOne(es: seq<Entry>)
    ensures Flat([es]) == es && Below([es]) == Drop(es, 2)
  {
    assert [es][1..] == [];
    assert Flat([]) == [];
  }

  /** What the directories hold. */
  lemma KidsAre(k: Kind)
    ensures Kids(D0(k), ROOT_INO) == [RootEntries()[2]] && Kids(D0(k), LF) == [] && Kids(D0(k), ONE) == []
    ensures Kids(D0(k), TWO) == if k.Nested? then [TwoEntries(k)[2]] else []
    ensures Kids(D0(k), THREE) == []
    ensures forall n :: n in D0(k) ==> |D0(k)[n]| == 1 && All(D0(k), n) == D0(k)[n][0]
  {
    FlatOne(RootEntries());
    FlatOne(DotPair(LF, ROOT_INO));
    FlatOne(DotPair(ONE, StaleOne(k)));
    FlatOne(TwoEntries(k));
    FlatOne(DotPair(THREE, ROOT_INO));
  }

  /** The tree below stray `j`. */
  function Sub(k: Kind, j: nat): Forest {
    if k.Nested? && j == TWO then Dir(ONE, Nil, Nil) else Nil
  }

  lemma SubHolds(k: Kind, j: nat)
    requires j in Outside() && j in D0(k)
    ensures Ends(D0(k), j) && TreeAt(D0(k), j) == Sub(k, j) && DotsRight(D0(k), j, Sub(k, j))
    ensures Nodes(Under(D0(k), j)) == {j} + Nodes(Sub(k, j)) &&
            Nodes(Sub(k, j)) == if k.Nested? && j == TWO then {ONE} else {}
  {
    KidsAre(k);
    assert Unfolds(D0(k), [], Nil) && Nodes(Nil) == {} && DotsRight(D0(k), ONE, Nil);
    if k.Nested? && j == TWO {
      var es := [TwoEntries(k)[2]];
      assert es[1..] == [];
      assert DotsRight(D0(k), TWO, Nil);
    }
    TreeAtIs(D0(k), j, Sub(k, j));
  }

  lemma TreeHolds(k: Kind)
    ensures Unfolds(D0(k), Kids(D0(k), ROOT_INO), F0()) && AllHeaded(D0(k)) && Nodes(F0()) == {LF}
    ensures DotsRight(D0(k), ROOT_INO, Whole(F0())) && DotsRight(D0(k), ROOT_INO, F0())
    ensures HeadRight(D0(k)[ROOT_INO], ROOT_INO, ROOT_INO)
  {
    KidsAre(k);
    assert DotsRight(D0(k), LF, Nil) && DotsRight(D0(k), ROOT_INO, Nil) && Nodes(Nil) == {};
    assert Unfolds(D0(k), [], Nil);
    assert [RootEntries()[2]][1..] == [];
  }

  lemma DotsAlready(k: Kind)
    ensures Dotted(W(k)) == D0(k)
  {
    TreeHolds(k);
    FixTreeIdle(D0(k), ROOT_INO, Whole(F0()));
  }

  lemma CaseHolds(k: Kind)
    ensures C(k).n == 16 && C(k).live == Live() && C(k).lf == LF && C(k).D0 == D0(k) && C(k).F0 == F0()
    ensures C(k).O0 == Strays(k) && C(k).files == Files(k)
  {
    GeometryFits();
    LiveHolds(k);
    DotsAlready(k);
    hide Tables, InodeMaps, LiveIn, DirsIn, Dotted, Refs, D0, Img, P0, Geometric;
  }

  lemma CaseDirsHold(k: Kind, n: nat)
    requires 1 <= n <= 16
    ensures Tables(G(), 12) && (n in C(k).dirs <==> InodeAt(G(), Img(k), n).IsDir())
  {
    Facts();
    hide InodeAt, Tables, InodeMaps, LiveIn, Dotted, Refs, D0, Img, P0, Geometric;
  }

  lemma DirsHold(k: Kind)
    ensures D0(k).Keys <= C(k).dirs && (THREE in C(k).dirs <==> !k.Filed?) && LF in C(k).dirs && ONE in C(k).dirs
  {
    hide C, InodeAt, D0, Img, Tables;
    IsDirHere(k, ROOT_INO, 7);
    IsDirHere(k, LF, 8);
    IsDirHere(k, ONE, 9);
    IsDirHere(k, TWO, 10);
    IsDirHere(k, THREE, BlockFor(k, THREE));
    DirNumbers(k);
  }

  lemma IsDirHere(k: Kind, n: nat, b: nat)
    requires Owns(k, n, b)
    ensures n in C(k).dirs <==> !(k.Filed? && n == THREE)
  {
    hide C, InodeAt, D0, Img, Tables;
    RecordAt(k, n, b);
    CaseDirsHold(k, n);
  }

  lemma DirNumbers(k: Kind)
    ensures D0(k).Keys == {ROOT_INO, LF, ONE, TWO} + if k.Filed? then {} else {THREE}
  {
    hide RootEntries, DotPair, TwoEntries;
  }

  lemma RangeHolds(k: Kind)
    ensures InRange(D0(k), 17)
  {
  }

  lemma TypedHolds(k: Kind, dirs: set<nat>)
    requires LF in dirs && ONE in dirs
    ensures Typed(D0(k), dirs, Files(k))
  {
    KidsAre(k);
    DirNumbers(k);
    hide Kids, D0;
    assert RootEntries()[2].IsDir() && RootEntries()[2].ino == LF;
    if k.Nested? { assert TwoEntries(k)[2].IsDir() && TwoEntries(k)[2].ino == ONE; }
  }

  lemma {:induction false} FewMentions(es: seq<Entry>, x: nat)
    ensures Mentions(es, x) <= |es|
  {
    if es != [] { FewMentions(es[1..], x); }
  }

  lemma LeafRefs(k: Kind, n: nat, f: Forest, h: Forest, x: nat)
    requires n in D0(k)
    ensures Refs(D0(k), Dir(n, f, h), x) <= 3 + Refs(D0(k), f, x) + Refs(D0(k), h, x) && Refs(D0(k), Nil, x) == 0
  {
    KidsAre(k);
    assert |D0(k)[n][0]| <= 3;
    FewMentions(D0(k)[n][0], x);
  }

  /** The walks of the strays name little. */
  lemma UnderFew(k: Kind, j: nat, x: nat)
    requires j in Outside() && j in D0(k)
    ensures Refs(D0(k), Under(D0(k), j), x) <= 6
  {
    hide D0, Refs;
    SubHolds(k, j);
    DirNumbers(k);
    LeafRefs(k, j, Sub(k, j), Nil, x);
    LeafRefs(k, ONE, Nil, Nil, x);
  }

  lemma UnderSmall(k: Kind, j: nat)
    requires j in Outside() && j in D0(k)
    ensures Size(Under(D0(k), j)) <= 2
  {
    hide D0;
    SubHolds(k, j);
    assert Size(Nil) == 0 && Size(Dir(ONE, Nil, Nil)) == 1;
  }

  lemma {:induction false} WalksFew(k: Kind, i: nat, x: nat)
    requires i <= 17
    ensures WalkSum(C(k), i, x) <= 8 * i
  {
    hide C, D0, Refs, Stray;
    CaseHolds(k);
    if i > 1 {
      WalksFew(k, i - 1, x);
      if Stray(C(k), i - 1) {
        StrayIs(k, i - 1);
        UnderFew(k, i - 1, x);
        UnderSmall(k, i - 1);
      }
    }
  }

  lemma StrayIs(k: Kind, j: nat)
    requires Stray(C(k), j)
    ensures j in Outside() && j in D0(k) && (j == THREE ==> !k.Filed?)
  {
    hide *;
    CaseHolds(k);
    DirsHold(k);
    DirNumbers(k);
    StrayMeans(C(k), j);
    LiveIs(j);
    TreeHolds(k);
    WholeNodes(F0(), j);
    OutsideIs(j);
  }

  lemma StrayMeans(c: Case, j: nat)
    requires Stray(c, j)
    ensures j in c.live && j in c.dirs && j !in Nodes(Whole(c.F0))
  {
  }

  lemma OutsideIs(j: nat)
    ensures j in Outside() <==> j == ONE || j == TWO || j == THREE
  {
  }

  lemma NarrowHolds(k: Kind)
    ensures Narrow(C(k))
  {
    hide C, D0, Refs;
    CaseHolds(k);
    DirNumbers(k);
    forall x | x in Live()
      ensures Refs(D0(k), Whole(F0()), x) + WalkSum(C(k), x, x) < 256
    {
      WalksFew(k, x, x);
      LeafRefs(k, ROOT_INO, F0(), Nil, x);
      LeafRefs(k, LF, Nil, Nil, x);
    }
  }

  lemma StrayHolds(k: Kind, j: nat)
    requires Stray(C(k), j)
    ensures StrayReady(C(k), j)
  {
    hide *;
    StrayIs(k, j);
    CaseHolds(k);
    SubHolds(k, j);
    HeadsHold(k, j);
    OutsideIs(j);
    MakeStrayReady(C(k), j, Sub(k, j));
  }

  lemma HeadsHold(k: Kind, j: nat)
    requires j in Outside() && j in D0(k)
    ensures Rewritable(D0(k)[j]) && D0(k)[j][0][0].ino == j && (j == ONE ==> Stale(C(k), j) == StaleOne(k))
    ensures LF != j && LF != ONE && (j == TWO ==> Stale(C(k), j) == StaleTwo(k)) &&
            (j == THREE ==> Stale(C(k), j) == ROOT_INO)
  {
    hide C;
    CaseHolds(k);
  }

  lemma MakeStrayReady(c: Case, j: nat, f: Forest)
    requires j in c.D0 && Rewritable(c.D0[j]) && c.D0[j][0][0].ino == j && Ends(c.D0, j) && f == TreeAt(c.D0, j)
    requires DotsRight(c.D0, j, f) && c.lf != j && c.lf !in Nodes(f) && Nodes(Under(c.D0, j)) == {j} + Nodes(f)
    ensures StrayReady(c, j)
  {
    hide TreeAt, Under, DotsRight, Ends, Nodes;
  }

  /** None of the three disks keeps the loop from running. */
  lemma OrderHolds(k: Kind)
    ensures AnyOrder(C(k))
  {
    hide *;
    NarrowHolds(k);
    CaseHolds(k);
    DirsHold(k);
    DirNumbers(k);
    TreeHolds(k);
    RangeHolds(k);
    TypedHolds(k, C(k).dirs);
    Facts();
    MakeTreeReady(C(k));
    forall j | Stray(C(k), j)
      ensures StrayReady(C(k), j)
    {
      StrayHolds(k, j);
    }
    MakeAnyOrder(C(k));
  }

  lemma MakeTreeReady(c: Case)
    requires ROOT_INO in c.D0 && LF in c.D0 && c.lf == LF && c.n == 16 && c.F0 == F0() && Nodes(c.F0) == {LF}
    requires Unfolds(c.D0, Kids(c.D0, ROOT_INO), c.F0) && HeadRight(c.D0[ROOT_INO], ROOT_INO, ROOT_INO) &&
             DotsRight(c.D0, ROOT_INO, c.F0)
    requires InRange(c.D0, 17) && (forall i :: i in c.live ==> 1 <= i <= c.n)
    requires AllHeaded(c.D0) && Typed(c.D0, c.dirs, c.files) && c.D0.Keys <= c.dirs
    ensures TreeReady(c)
  {
    hide Unfolds, HeadRight, DotsRight, InRange, AllHeaded, Typed, Kids;
  }

  lemma MakeAnyOrder(c: Case)
    requires TreeReady(c) && Narrow(c) && forall j :: Stray(c, j) ==> StrayReady(c, j)
    ensures AnyOrder(c)
  {
    hide TreeReady, Narrow, Stray, StrayReady;
  }

  /** Of the strays, only nested 13 has another inode inside it. */
  lemma InsideIs(k: Kind, j: nat, x: nat)
    requires ListedDir(C(k), j)
    ensures j in Outside() && j in D0(k)
    ensures Inside(C(k), j, x) <==> x == j || (k.Nested? && j == TWO && x == ONE)
  {
    hide *;
    CaseHolds(k);
    OrderHolds(k);
    AnyOrderRuns(C(k));
    StrayIs(k, j);
    SubHolds(k, j);
    StrayKids(k, j);
    SubKids(InnerEntry(), x);
    InsideMeans(C(k), j, Sub(k, j), x);
  }

  function InnerEntry(): Entry { TwoEntries(Nested)[2] }

  lemma StrayKids(k: Kind, j: nat)
    requires j in Outside() && j in D0(k)
    ensures Kids(D0(k), j) == if k.Nested? && j == TWO then [InnerEntry()] else []
    ensures Kids(D0(k), ONE) == [] && InnerEntry().ino == ONE
  {
    KidsAre(k);
  }

  lemma SubKids(e: Entry, x: nat)
    requires e.ino == ONE
    ensures Mentions([], x) == 0 && Mentions([e], x) == if x == ONE then 1 else 0
  {
    assert [e][1..] == [] && Mentions([], x) == 0;
  }

  lemma InsideMeans(c: Case, j: nat, f: Forest, x: nat)
    requires Nodes(Under(c.D0, j)) == {j} + Nodes(f)
    ensures Inside(c, j, x) <==>
            x in {j} + Nodes(f) || exists m :: m in {j} + Nodes(f) && Mentions(Kids(c.D0, m), x) > 0
  {
    hide Nodes, Under, Kids, Mentions;
  }

  /** Nothing in the tree names the strays. */
  lemma TreeSilent(k: Kind, x: nat)
    requires x > LF
    ensures !Named(D0(k), F0(), x) && x !in Nodes(Whole(F0()))
  {
    KidsAre(k);
    NamesPositive(RootEntries(), x);
    NamesPositive(DotPair(LF, ROOT_INO), x);
    assert Refs(D0(k), Nil, x) == 0 && Nodes(Nil) == {};
    assert Refs(D0(k), F0(), x) == Mentions(All(D0(k), LF), x) + 0 + 0;
  }

  lemma Numbers()
    ensures LF == 11 && ONE == 12 && TWO == 13 && THREE == 14 && ROOT_INO == 2
  {
  }

  /** 13 is hidden by 12's stale `..` on two of the disks; the rest is listed. */
  lemma {:induction false} MissingIff(k: Kind, i: nat)
    ensures Missing(C(k), i) <==> i == ONE || (i == TWO && k.Filed?) || i == THREE
    decreases i, 0
  {
    hide *;
    Numbers();
    CaseHolds(k);
    LiveIs(i);
    OutsideIs(i);
    if i in Outside() {
      OrderHolds(k);
      AnyOrderRuns(C(k));
      ListedIff(C(k), i);
      TreeSilent(k, i);
      forall j | 1 <= j < i && ListedDir(C(k), j)
        ensures WalkNames(C(k), j, j, i) <==> i == TWO && j == ONE && !k.Filed?
      {
        Walked(k, j, i);
        MissingIff(k, j);
        ListedDirIs(C(k), j);
      }
      if i == TWO { FirstListed(k); }
    } else if Missing(C(k), i) {
      MissingLive(C(k), i);
      OrderHolds(k);
      AnyOrderRuns(C(k));
      RootStays(C(k));
    }
  }

  lemma Walked(k: Kind, j: nat, i: nat)
    requires ListedDir(C(k), j) && j < i && i in Outside()
    ensures WalkNames(C(k), j, j, i) <==> (i == TWO && j == ONE && !k.Filed?) || (i == THREE && j == TWO && k.Chained?)
  {
    hide *;
    Numbers();
    CaseHolds(k);
    OrderHolds(k);
    AnyOrderRuns(C(k));
    OutsideIs(i);
    InsideIs(k, j, i);
    WalkNamesIff(C(k), j, j, i);
    HeadsHold(k, j);
    OutsideIs(j);
    StalesAre(k);
  }

  lemma StalesAre(k: Kind)
    ensures StaleOne(k) == if k.Filed? then ROOT_INO else TWO
    ensures StaleTwo(k) == if k.Chained? then THREE else ROOT_INO
  {
  }

  lemma FirstListed(k: Kind)
    ensures ListedDir(C(k), ONE)
    decreases ONE, 1
  {
    hide *;
    Numbers();
    MissingIff(k, ONE);
    DirsHold(k);
    CaseHolds(k);
    ListedDirIs(C(k), ONE);
  }

  /** The disks are what pass2 asks for. */
  lemma FixedHolds(k: Kind)
    ensures |Img(k)| == 12 && Fixed(C(k), G(), Img(k), P0(k), Loose(k)) && World(G(), Img(k), P0(k), C(k).D0) &&
            Runnable(C(k))
  {
    hide *;
    Numbers();
    Facts();
    Twelve(k);
    WorldHolds(k);
    PlacesHold(k);
    CaseHolds(k);
    LiveHolds(k);
    DirsAre(k);
    OrderHolds(k);
    AnyOrderRuns(C(k));
    FoundLostFound(k);
    LooseHold(k);
    MakeFixed(C(k), G(), Img(k), P0(k), Loose(k));
  }

  lemma MakeFixed(c: Case, g: Geometry, img: Image, P: Places, X: set<nat>)
    requires Tables(g, |img|) && InodeMaps(g, |img|) && Placed(g, img, P) && g.inodesCount == c.n == 16
    requires c.live == LiveIn(g, img) && c.dirs == DirsIn(g, img) && LostFoundIs(c.D0, c.lf) && g.HasInode(c.lf)
    requires LooseBlocks(c, g, img, P, X)
    ensures Fixed(c, g, img, P, X)
  {
    hide Tables, InodeMaps, Placed, LiveIn, DirsIn, LostFoundIs, LooseBlocks;
  }

  lemma DirsAre(k: Kind)
    ensures Tables(G(), |Img(k)|) && C(k).dirs == DirsIn(G(), Img(k))
  {
    GeometryFits();
    hide InodeMaps, LiveIn, DirsIn, Dotted, Refs, D0, Img, P0, Geometric;
  }

  lemma FoundLostFound(k: Kind)
    ensures LostFoundIs(D0(k), LF)
  {
    hide *;
    ThreeEntries();
    RootIs(k);
    FindThird(RootEntries()[0], RootEntries()[1], RootEntries()[2]);
    MakeFound(D0(k), RootEntries());
  }

  lemma ThreeEntries()
    ensures var es := RootEntries();
            && |es| == 3 && CStr(es[0].name) != LOST_FOUND && CStr(es[1].name) != LOST_FOUND &&
               CStr(es[2].name) == LOST_FOUND
            && es == [es[0], es[1], es[2]] && es[2].ino == LF
  {
    NoNul(DOT);
    NoNul(DOT_DOT);
    NoNul(LOST_FOUND);
    hide CStr;
  }

  lemma RootIs(k: Kind)
    ensures ROOT_INO in D0(k) && D0(k)[ROOT_INO] == [RootEntries()]
  {
    hide RootEntries, DotPair, TwoEntries;
  }

  lemma MakeFound(D: Dirs, es: seq<Entry>)
    requires ROOT_INO in D && D[ROOT_INO] == [es] && Find(es, LOST_FOUND) == Some(LF)
    ensures LostFoundIs(D, LF)
  {
    hide Find;
  }

  lemma FindThird(a: Entry, b: Entry, e: Entry)
    requires CStr(a.name) != LOST_FOUND && CStr(b.name) != LOST_FOUND && CStr(e.name) == LOST_FOUND
    ensures Find([a, b, e], LOST_FOUND) == Some(e.ino)
  {
    hide CStr;
    assert [a, b, e][1..] == [b, e] && [b, e][1..] == [e];
    assert Find([e], LOST_FOUND) == Some(e.ino);
    assert Find([b, e], LOST_FOUND) == Find([e], LOST_FOUND);
  }

  lemma LooseHold(k: Kind)
    ensures Tables(G(), 12) && |Img(k)| == 12 && C(k).n == G().inodesCount &&
            LooseBlocks(C(k), G(), Img(k), P0(k), Loose(k))
  {
    hide *;
    Numbers();
    Facts();
    Twelve(k);
    CaseHolds(k);
    LooseAre(k);
    forall i | 1 <= i <= 16 && Missing(C(k), i) && i !in C(k).dirs
      ensures k.Filed? && i == THREE
    {
      MissingIff(k, i);
      DirsHold(k);
      DirNumbers(k);
    }
    if k.Filed? { ThreeLoose(k); }
    MakeLoose(C(k), G(), Img(k), P0(k), Loose(k), k);
  }

  lemma LooseAre(k: Kind)
    ensures Loose(k) == (if k.Filed? then {BlockFor(k, THREE)} else {})
    ensures Files(k) == (if k.Filed? then {THREE} else {}) && !IsMeta(G(), BlockFor(k, THREE))
  {
    NotMeta(BlockFor(k, THREE));
  }

  /** File 14's one block is no directory's and no metadata; the link's text is beyond
      the disk. */
  lemma ThreeLoose(k: Kind)
    requires k.Filed?
    ensures Tables(G(), 12) && |Img(k)| == 12 && FirstBlock(G(), Img(k), THREE) == BlockFor(k, THREE)
    ensures BlockFor(k, THREE) == if k.text then TEXT else 11
    ensures LooseBlock(G(), Img(k), P0(k), THREE)
  {
    hide *;
    Numbers();
    Facts();
    Twelve(k);
    LooseAre(k);
    OwnsThree(k);
    RecordAt(k, THREE, BlockFor(k, THREE));
    FirstOf(InodeAt(G(), Img(k), THREE).block, BlockFor(k, THREE));
    FirstIs(G(), Img(k), THREE);
    NoDirBlock(k);
    MakeLooseBlock(G(), Img(k), P0(k), THREE);
  }

  lemma OwnsThree(k: Kind)
    ensures Owns(k, THREE, BlockFor(k, THREE))
    ensures k.Filed? ==> BlockFor(k, THREE) == if k.text then TEXT else 11
  {
  }

  lemma FirstOf(block: seq<nat>, b: nat)
    requires |block| == N_BLOCKS && Walks(block, [b])
    ensures block[0] == b
  {
    assert block[..1][0] == block[0];
  }

  lemma FirstIs(g: Geometry, img: Image, n: nat)
    requires Tables(g, |img|) && g.HasInode(n)
    ensures FirstBlock(g, img, n) == InodeAt(g, img, n).block[0]
  {
    hide InodeAt, Tables;
  }

  lemma NoDirBlock(k: Kind)
    requires k.Filed?
    ensures !IsDirBlock(P0(k), BlockFor(k, THREE))
  {
  }

  lemma MakeLooseBlock(g: Geometry, img: Image, P: Places, n: nat)
    requires Tables(g, |img|) && g.HasInode(n) && !IsDirBlock(P, FirstBlock(g, img, n))
    requires !IsMeta(g, FirstBlock(g, img, n))
    ensures LooseBlock(g, img, P, n)
  {
    hide Tables, InodeAt, IsDirBlock, IsMeta;
  }

  lemma MakeLoose(c: Case, g: Geometry, img: Image, P: Places, X: set<nat>, k: Kind)
    requires Tables(g, |img|) && c.n == g.inodesCount == 16 && X == (if k.Filed? then {BlockFor(k, THREE)} else {})
    requires !IsMeta(g, BlockFor(k, THREE))
    requires c.files == (if k.Filed? then {THREE} else {})
    requires forall i :: 1 <= i <= 16 && Missing(c, i) && i !in c.dirs ==> k.Filed? && i == THREE
    requires k.Filed? ==> LooseBlock(g, img, P, THREE) && FirstBlock(g, img, THREE) == BlockFor(k, THREE)
    ensures LooseBlocks(c, g, img, P, X)
  {
    hide Tables, Missing, LooseBlock, FirstBlock, BlockFor, IsMeta;
  }

  /** After the loop 13 is named nowhere on the chained and on the nested disk: 12 and
      14 are in lost+found, and nothing is left that names 13. */
  lemma OneLost(k: Kind)
    requires !k.Filed?
    ensures TWO in C(k).live && Missing(C(k), ONE) && !Missing(C(k), TWO) && Missing(C(k), THREE) &&
            !NamedEnd(C(k), TWO)
  {
    hide *;
    Numbers();
    CaseHolds(k);
    LiveIs(TWO);
    MissingIff(k, ONE);
    MissingIff(k, TWO);
    MissingIff(k, THREE);
    OrderHolds(k);
    EndNamesIff(C(k), TWO);
    TreeSilent(k, TWO);
    HousedMeans(C(k), TWO);
    forall j | Home(C(k), j)
      ensures !Inside(C(k), j, TWO)
    {
      HomeListed(C(k), j);
      InsideIs(k, j, TWO);
    }
  }

  lemma HousedMeans(c: Case, i: nat)
    ensures Housed(c, i) ==> Missing(c, i)
  {
    hide Missing, Landed;
  }

  /** The four passes can start on either disk. */
  lemma StartHolds(k: Kind)
    requires !k.Filed?
    ensures Startable(G(), Img(k), W(k))
  {
    hide *;
    Facts();
    Twelve(k);
    SetupHolds(k);
    WorldHolds(k);
    LooseAre(k);
    TreeHolds(k);
    CaseHolds(k);
    CaseKnown(k);
    OrderHolds(k);
    FoundLostFound(k);
    LooseHold(k);
    DirNumbers(k);
    PlacesLow(k);
    DistinctTree();
    NoFiles(G(), Img(k), P0(k), Loose(k));
    MakeStartable(G(), Img(k), W(k));
  }

  lemma SetupHolds(k: Kind)
    ensures W(k).P == P0(k) && W(k).D == D0(k) && W(k).F == F0() && W(k).X == Loose(k) && W(k).files == Files(k)
  {
  }

  lemma CaseKnown(k: Kind)
    ensures Tables(G(), |Img(k)|) && InodeMaps(G(), |Img(k)|) && C(k) == CaseFor(G(), Img(k), W(k))
  {
    GeometryFits();
  }

  lemma PlacesLow(k: Kind)
    ensures forall n, i :: n in P0(k) && 0 <= i < |P0(k)[n]| ==> P0(k)[n][i] <= 12
  {
  }

  lemma DistinctTree()
    ensures Distinct(Whole(F0()))
  {
    assert Nodes(Nil) == {} && Nodes(F0()) == {LF};
  }

  lemma NoFiles(g: Geometry, img: Image, P: Places, X: set<nat>)
    requires Tables(g, |img|)
    ensures FilesSafe(g, img, P, X, {})
  {
  }

  lemma MakeStartable(g: Geometry, img: Image, w: Setup)
    requires Geometric(g, |img|) && World(g, img, w.P, w.D) && Tables(g, |img|) && InodeMaps(g, |img|) && w.X == {}
    requires AllHeaded(w.D) && ROOT_INO in w.D && Unfolds(w.D, Kids(w.D, ROOT_INO), w.F) && Distinct(Whole(w.F))
    requires AnyOrder(CaseFor(g, img, w)) && CaseFor(g, img, w).n == g.inodesCount
    requires LostFoundIs(CaseFor(g, img, w).D0, CaseFor(g, img, w).lf)
    requires LooseBlocks(CaseFor(g, img, w), g, img, w.P, w.X) && FilesSafe(g, img, w.P, w.X, w.files)
    requires forall n, i :: n in w.P && 0 <= i < |w.P[n]| ==> w.P[n][i] <= g.blocksCount
    ensures Startable(g, img, w)
  {
    hide World, Geometric, AnyOrder, LooseBlocks, FilesSafe, LostFoundIs, CaseFor, Unfolds, Distinct, AllHeaded;
  }

  /** Nothing but directories is missing on either disk, so pass2 does not exit. */
  lemma NoExit(k: Kind, i: nat)
    requires !k.Filed?
    ensures Tables(G(), |Img(k)|) && C(k).n == G().inodesCount && !Exits(C(k), G(), Img(k), i)
  {
    hide *;
    CaseHolds(k);
    CaseKnown(k);
    Facts();
    ExitsMeans(C(k), G(), Img(k), i);
    MissingIff(k, i);
    DirsHold(k);
    Numbers();
  }

  lemma ExitsMeans(c: Case, g: Geometry, img: Image, i: nat)
    requires Tables(g, |img|) && c.n == g.inodesCount
    ensures Exits(c, g, img, i) ==> Missing(c, i) && i !in c.dirs
  {
    hide Missing, Tables, FirstBlock;
  }

  lemma StopsMeans(c: Case, g: Geometry, img: Image, exited: bool, last: nat)
    requires Tables(g, |img|) && c.n == g.inodesCount && Stops(c, g, img, exited, last)
    ensures exited ==> Exits(c, g, img, last)
  {
    hide Exits;
  }

  /** On either disk the four passes leave the end of the rounds, where no
      directory reachable from the root names 13, and clear its link count. */
  method LoseOne(d: Disk, k: Kind)
    requires d.g == G() && d.blocks == Img(k) && !k.Filed?
    modifies d
    ensures Tables(G(), |Img(k)|) && InodeMaps(G(), |Img(k)|) && |d.blocks| == |Img(k)|
    ensures TWO in LiveIn(G(), Img(k)) && TWO !in LiveIn(d.g, d.blocks) && d.g.HasInode(TWO)
    ensures World(d.g, d.blocks, P0(k), End(C(k))) && !NamedEnd(C(k), TWO) && InodeAt(d.g, d.blocks, TWO).links == 0
  {
    hide *;
    StartHolds(k);
    CaseKnown(k);
    SetupHolds(k);
    var exited;
    ghost var last;
    exited, last := CorrectAnyOrder(d, W(k));
    if exited {
      StopsMeans(C(k), G(), Img(k), exited, last);
      NoExit(k, last);
    }
    OneLost(k);
    LiveHolds(k);
    CaseHolds(k);
    Twelve(k);
    LiveAfterIff(G(), Img(k), d.blocks, W(k), TWO);
    SettledWorld(G(), Img(k), d.blocks, W(k));
  }

  lemma SettledWorld(g: Geometry, a: Image, b: Image, w: Setup)
    requires Geometric(g, |a|) && |b| == |a| && Settles(g, a, b, w)
    ensures Tables(g, |a|) && InodeMaps(g, |a|) && World(g, b, w.P, End(CaseFor(g, a, w)))
  {
    hide World, LinksCounted, Mapped, SameMap, LooseRight, CaseFor, End;
  }
}
