/** The preconditions of the four passes can be met, with two orphan directories and a
  file to rescue, and what the rescue does to the file. */
module Witness {
  import opened Bytes
  import opened DirBlock
  import opened Disk
  import opened Inode
  import opened Tree
  import opened Dots
  import opened Layout
  import opened Walk
  import opened Names
  import opened LostFound
  import opened Rescue
  import opened Rounds
  import opened Orphans
  import opened FileBlocks
  import opened UsedBlocks
  import opened Pass4
  import opened Pass2
  import opened Fsck
  import opened Sample

  /** A chain that an entry of 12 bytes fits behind, `used` bytes from its last record on. */
  ghost predicate Roomy(es: seq<Entry>, used: nat) {
    && |es| >= 2 && es[0].IsDir() && es[1].IsDir() && Complete(es)
    && Span(es[..|es| - 1]) == used && |es[|es| - 1].name| == 2
  }

  lemma RoomStep(es: seq<Entry>, used: nat, e: Entry)
    requires Roomy(es, used) && used < 900 && |e.name| == 2 && e.recLen == 12
    ensures Fits(es, 0, e) && Spliceable(es) && Roomy(Splice(es, e), used + 12)
  {
    var n := |es| - 1;
    assert es == es[..n] + [es[n]];
    SpanCat(es[..n], [es[n]]);
    SpanOne(es[n]);
    var fs := Splice(es, e);
    var last, added := es[n].(recLen := 12), e.(recLen := es[n].recLen - 12);
    assert CutOf(es[n]) == 12;
    assert fs == (es[..n] + [last]) + [added] && fs[..n + 1] == es[..n] + [last];
    SpanCat(es[..n], [last]);
    SpanCat(es[..n] + [last], [added]);
    SpanOne(last);
    SpanOne(added);
    assert fs[0].fileType == es[0].fileType && fs[1].fileType == es[1].fileType;
  }

  lemma TwoDigits(k: nat)
    requires 10 <= k < 100
    ensures |Decimal(k)| == 2
  {
    assert RevDigits(k) == [k % 10 + 48] + RevDigits(k / 10);
    assert RevDigits(k / 10) == [k / 10 + 48] + RevDigits(0);
  }

  lemma {:induction false} RoomThere(c: Case, es: seq<Entry>, used: nat, ks: seq<nat>)
    requires Roomy(es, used) && used + 12 * |ks| < 900 && forall i :: 0 <= i < |ks| ==> 10 <= ks[i] < 100
    ensures HasRoom(c, [es], ks)
    decreases |ks|
  {
    hide Roomy, Fits, Splice;
    if ks != [] {
      TwoDigits(ks[0]);
      var e := EntryFor(c, ks[0]);
      RoomStep(es, used, e);
      SettlesHere(es, e);
      RoomThere(c, Splice(es, e), used + 12, ks[1..]);
      HeadedOne(Splice(es, e), used + 12);
    }
  }

  lemma HeadedOne(es: seq<Entry>, used: nat)
    requires Roomy(es, used)
    ensures Headed([es])
  {
  }

  lemma SettlesHere(es: seq<Entry>, e: Entry)
    requires Fits(es, 0, e) && Spliceable(es)
    ensures Lands([es], 0, e) && Inserted([es], 0, e) == [Splice(es, e)]
  {
    hide Fits, Spliceable;
    assert Slot([es], 0, 0, e) == 0;
  }

  lemma LostFoundRoomy(t: bool)
    ensures D0(Filed(t))[LF] == [DotPair(LF, ROOT_INO)] && Roomy(DotPair(LF, ROOT_INO), 12)
  {
    DotsSpan(LF, ROOT_INO);
  }

  lemma {:induction false} RescueList(t: bool, k: nat)
    requires k <= 17
    ensures ToRescue(C(Filed(t)), k) ==
            if k <= ONE then [ONE, TWO, THREE]
            else if k == TWO then [TWO, THREE] else if k == THREE then [THREE] else []
    decreases 17 - k
  {
    hide C, Missing;
    CaseHolds(Filed(t));
    if k <= 16 {
      MissingIff(Filed(t), k);
      RescueList(t, k + 1);
    }
  }

  lemma WoodHolds(t: bool)
    ensures Wooded(G(), W(Filed(t)), C(Filed(t)).dirs)
  {
    hide *;
    Numbers();
    Facts();
    TreeHolds(Filed(t));
    DirsHold(Filed(t));
    DirNumbers(Filed(t));
    RangeHolds(Filed(t));
    TypedHolds(Filed(t), C(Filed(t)).dirs);
    DotsAlready(Filed(t));
    StraysGrown(t);
    SetupIs(t);
    MakeWooded(G(), W(Filed(t)), C(Filed(t)).dirs);
  }

  lemma MakeWooded(g: Geometry, w: Setup, dirs: set<nat>)
    requires ROOT_INO in w.D && w.lf in w.D && w.lf in Nodes(w.F) && Unfolds(w.D, Kids(w.D, ROOT_INO), w.F)
    requires Grown(w.D, w.O) && Distinct(Dir(ROOT_INO, w.F, w.O)) && OrphanDots(w.D, w.O)
    requires AllHeaded(w.D) && InRange(w.D, 17) && g.inodesCount == 16 && Typed(w.D, dirs, w.files) && w.D.Keys <= dirs
    requires Dotted(w) == w.D
    ensures Wooded(g, w, dirs)
  {
    hide Unfolds, Grown, Distinct, OrphanDots, AllHeaded, InRange, Typed, Kids, Dotted;
  }

  lemma StraysGrown(t: bool)
    ensures Grown(D0(Filed(t)), Strays(Filed(t))) && Distinct(Dir(ROOT_INO, F0(), Strays(Filed(t)))) &&
            OrphanDots(D0(Filed(t)), Strays(Filed(t)))
  {
    hide *;
    Numbers();
    StrayKids(Filed(t), ONE) by { StraysHere(t); }
    StrayKids(Filed(t), TWO) by { StraysHere(t); }
    StraysHere(t);
    HeadsHold(Filed(t), ONE);
    HeadsHold(Filed(t), TWO);
    FreshOrphan(D0(Filed(t)), TWO, Nil);
    NilIsGrown(D0(Filed(t)));
    FreshOrphan(D0(Filed(t)), ONE, Dir(TWO, Nil, Nil));
    StraysDistinct(t);
  }

  lemma StraysHere(t: bool)
    ensures ONE in Outside() && TWO in Outside() && ONE in D0(Filed(t)) && TWO in D0(Filed(t))
    ensures Strays(Filed(t)) == Dir(ONE, Nil, Dir(TWO, Nil, Nil))
  {
    hide D0;
    DirNumbers(Filed(t));
  }

  lemma NilIsGrown(D: Dirs)
    ensures Grown(D, Nil) && OrphanDots(D, Nil)
  {
  }

  /** An orphan without subdirectories, in front of others. */
  lemma FreshOrphan(D: Dirs, n: nat, rest: Forest)
    requires n in D && Kids(D, n) == [] && Rewritable(D[n]) && D[n][0][0].ino == n
    ensures Grown(D, rest) ==> Grown(D, Dir(n, Nil, rest))
    ensures OrphanDots(D, rest) ==> OrphanDots(D, Dir(n, Nil, rest))
  {
    hide Kids;
    assert Unfolds(D, [], Nil) && DotsRight(D, n, Nil);
  }

  lemma StraysDistinct(t: bool)
    ensures Distinct(Dir(ROOT_INO, F0(), Strays(Filed(t))))
  {
    assert Nodes(Nil) == {} && Distinct(Nil);
    assert Nodes(Dir(TWO, Nil, Nil)) == {TWO} && Nodes(F0()) == {LF} && Nodes(Strays(Filed(t))) == {ONE, TWO};
    assert Distinct(Dir(TWO, Nil, Nil)) && Distinct(F0()) && Distinct(Strays(Filed(t)));
  }

  lemma SetupIs(t: bool)
    ensures var w := W(Filed(t));
            && w.P == P0(Filed(t)) && w.D == D0(Filed(t)) && w.F == F0() && w.O == Strays(Filed(t)) && w.lf == LF
            && w.X == Loose(Filed(t)) && w.files == Files(Filed(t))
  {
  }

  lemma StraysSorted(t: bool, live: set<nat>)
    requires ONE in live && TWO in live
    ensures Sorted(Strays(Filed(t)), 1, live) && TopsLive(Strays(Filed(t)), live)
    ensures StaleMild(D0(Filed(t)), F0(), Strays(Filed(t)), live) && Nodes(Strays(Filed(t))) == {ONE, TWO}
  {
    hide D0;
    DirNumbers(Filed(t));
    StaleHeads(t);
    assert Nodes(Nil) == {} && Sorted(Nil, 14, live) && StaleMild(D0(Filed(t)), F0(), Nil, live) && TopsLive(Nil, live);
    assert Sorted(Dir(TWO, Nil, Nil), 13, live) && Nodes(Dir(TWO, Nil, Nil)) == {TWO};
    assert StaleMild(D0(Filed(t)), F0(), Dir(TWO, Nil, Nil), live) && TopsLive(Dir(TWO, Nil, Nil), live);
  }

  lemma StaleHeads(t: bool)
    ensures ONE in D0(Filed(t)) && Rewritable(D0(Filed(t))[ONE]) && D0(Filed(t))[ONE][0][1].ino == ROOT_INO
    ensures TWO in D0(Filed(t)) && Rewritable(D0(Filed(t))[TWO]) && D0(Filed(t))[TWO][0][1].ino == ROOT_INO
  {
  }

  lemma CoverHolds(t: bool)
    ensures Covered(C(Filed(t)), 1, F0(), Strays(Filed(t)))
  {
    hide C;
    CaseHolds(Filed(t));
    DirsHold(Filed(t));
    StraysSorted(t, Live());
  }

  /** How often an inode is named. */
  lemma TotalFew(t: bool, x: nat)
    ensures Refs(D0(Filed(t)), Dir(ROOT_INO, F0(), Strays(Filed(t))), x) <= 12
  {
    hide D0, Refs;
    DirNumbers(Filed(t));
    LeafRefs(Filed(t), ROOT_INO, F0(), Strays(Filed(t)), x);
    LeafRefs(Filed(t), LF, Nil, Nil, x);
    LeafRefs(Filed(t), ONE, Nil, Dir(TWO, Nil, Nil), x);
    LeafRefs(Filed(t), TWO, Nil, Nil, x);
  }

  lemma ModestHolds(t: bool)
    ensures Modest(C(Filed(t)))
  {
    hide C, Missing, Refs;
    CaseHolds(Filed(t));
    assert TopCount(Nil) == 0 && TopCount(Dir(TWO, Nil, Nil)) == 1 && TopCount(Strays(Filed(t))) == 2;
    TotalsAre(t);
    forall x | 0 <= x <= 16
      ensures C(Filed(t)).total[x] <= 12
    {
      TotalFew(t, x);
    }
  }

  lemma TotalsAre(t: bool)
    ensures |C(Filed(t)).total| == 17
    ensures forall x :: 0 <= x <= 16 ==>
              C(Filed(t)).total[x] == Refs(D0(Filed(t)), Dir(ROOT_INO, F0(), Strays(Filed(t))), x)
  {
    GeometryFits();
    DotsAlready(Filed(t));
    hide Geometric, D0, P0, Img, Refs, Dotted;
  }

  /** File 14 occupies its one block and nothing else; the link occupies none. */
  lemma FileHolds(t: bool)
    ensures Tables(G(), 12) && |Img(Filed(t))| == 12
    ensures FileSafe(G(), Img(Filed(t)), P0(Filed(t)), Loose(Filed(t)), THREE)
  {
    hide *;
    Numbers();
    Facts();
    Twelve(Filed(t));
    OwnsThree(Filed(t));
    RecordAt(Filed(t), THREE, BlockFor(Filed(t), THREE));
    FirstOf(InodeAt(G(), Img(Filed(t)), THREE).block, BlockFor(Filed(t), THREE));
    if t {
      LinkSafe(G(), Img(Filed(t)), P0(Filed(t)), Loose(Filed(t)), THREE);
    } else {
      OneBlockSafe(G(), Img(Filed(t)), P0(Filed(t)), Loose(Filed(t)), THREE);
    }
  }

  lemma LinkSafe(g: Geometry, img: Image, P: Places, X: set<nat>, n: nat)
    requires Tables(g, |img|) && g.HasInode(n) && InodeAt(g, img, n).IsLnk()
    ensures FileSafe(g, img, P, X, n)
  {
    hide InodeAt, Tables;
  }

  lemma OneBlockSafe(g: Geometry, img: Image, P: Places, X: set<nat>, n: nat)
    requires Tables(g, |img|) && g.HasInode(n) && g.blocksCount == 12
    requires InodeAt(g, img, n).IsReg() && !InodeAt(g, img, n).IsDir() && InodeAt(g, img, n).size == 1 &&
             InodeAt(g, img, n).block[0] == 11
    ensures FileSafe(g, img, P, X, n)
  {
    hide InodeAt, Tables;
    assert BlockCount(1) == 1;
  }

  lemma PlacesInRange(t: bool)
    ensures forall n, i :: n in P0(Filed(t)) && 0 <= i < |P0(Filed(t))[n]| ==> P0(Filed(t))[n][i] <= 12
  {
  }

  /** The preconditions of the four passes can be met, with orphan directories 12 and 13
      and 14, a regular file or a symbolic link, to rescue. */
  lemma SampleIsRepairable(t: bool)
    ensures Repairable(G(), Img(Filed(t)), W(Filed(t))) && ToRescue(C(Filed(t)), 1) == [ONE, TWO, THREE]
  {
    hide *;
    Numbers();
    Facts();
    Twelve(Filed(t));
    SetupIs(t);
    CaseHolds(Filed(t));
    LiveIs(ONE);
    LiveIs(TWO);
    WorldHolds(Filed(t));
    WoodHolds(t);
    StraysSorted(t, C(Filed(t)).live);
    CoverHolds(t);
    DotsAlready(Filed(t));
    DirNumbers(Filed(t));
    FoundLostFound(Filed(t));
    ModestHolds(t);
    RescueList(t, 1);
    LostFoundRoomy(t);
    RoomThere(C(Filed(t)), DotPair(LF, ROOT_INO), 12, [ONE, TWO, THREE]);
    LooseHold(Filed(t));
    LooseAre(Filed(t));
    FileHolds(t);
    PlacesInRange(t);
    CaseIs(t);
    MakeRepairable(G(), Img(Filed(t)), W(Filed(t)));
  }

  lemma CaseIs(t: bool)
    ensures Tables(G(), |Img(Filed(t))|) && InodeMaps(G(), |Img(Filed(t))|) &&
            C(Filed(t)) == CaseFor(G(), Img(Filed(t)), W(Filed(t)))
  {
    GeometryFits();
  }

  /** After the repair the file's block holds lost+found's number where it held zeros. */
  lemma FileClobbered(b: Image, E: Dirs, H: Forest)
    requires Geometric(G(), |b|) && Repaired(G(), Img(Filed(false)), b, W(Filed(false)), E, H)
    ensures |b| == 12 && b[11] == PutLe(Img(Filed(false))[11], FIRST_ENTRY_LEN, LF, 4) && b[11] != Img(Filed(false))[11]
    ensures U32(b[11], FIRST_ENTRY_LEN) == LF
  {
    hide *;
    Numbers();
    Facts();
    Twelve(Filed(false));
    SetupIs(false);
    CaseIs(false);
    CaseHolds(Filed(false));
    RepairedLoose(G(), Img(Filed(false)), b, W(Filed(false)), E, H);
    ThreeLoose(Filed(false));
    NoDirBlock(Filed(false));
    NotMeta(11);
    MissingIff(Filed(false), THREE);
    DirsHold(Filed(false));
    HitMeans(C(Filed(false)), G(), Img(Filed(false)), 11, THREE);
    LooseRightAt(C(Filed(false)), G(), Img(Filed(false)), b, P0(Filed(false)), 11);
    FileKeptIff(Img(Filed(false))[11], LF);
    ZerosThere();
    NumberThere(Img(Filed(false))[11]);
  }

  /** With the link in place of the file, round 14 reads the block that the link's text
      names, and no other round reads beyond the disk. */
  lemma LinkExits(i: nat)
    ensures Tables(G(), |Img(Filed(true))|) && C(Filed(true)).n == G().inodesCount
    ensures Exits(C(Filed(true)), G(), Img(Filed(true)), i) <==> i == THREE
  {
    hide *;
    Numbers();
    Facts();
    Twelve(Filed(true));
    CaseHolds(Filed(true));
    MissingIff(Filed(true), i);
    DirsHold(Filed(true));
    DirNumbers(Filed(true));
    ThreeLoose(Filed(true));
    BeyondDisk();
    ExitsIs(C(Filed(true)), G(), Img(Filed(true)), i);
  }

  lemma BeyondDisk()
    ensures TEXT >= 12
  {
  }

  lemma ExitsIs(c: Case, g: Geometry, img: Image, i: nat)
    requires Tables(g, |img|) && c.n == g.inodesCount
    ensures Exits(c, g, img, i) <==>
            1 <= i <= c.n && Missing(c, i) && i !in c.dirs && FirstBlock(g, img, i) >= |img|
  {
    hide Missing, Tables, FirstBlock;
  }

  /** On that image pass2 exits at the link, with everything but directories as it was at
      the start: passes 3 and 4 are never reached. */
  method ExitAtLink(d: Disk)
    requires d.g == G() && d.blocks == Img(Filed(true))
    modifies d
    ensures Tables(G(), |Img(Filed(true))|) && InodeMaps(G(), |Img(Filed(true))|)
    ensures Stopped(G(), Img(Filed(true)), d.blocks, W(Filed(true)), true, THREE)
  {
    hide *;
    SampleIsRepairable(true);
    CaseIs(true);
    var exited;
    ghost var last, E, H;
    exited, last, E, H := CorrectPartition(d, W(Filed(true)));
    WhenExits(C(Filed(true)), G(), Img(Filed(true)), exited, last);
    LinkExits(THREE);
    StopsMeans(C(Filed(true)), G(), Img(Filed(true)), exited, last);
    LinkExits(last);
  }

  lemma RepairedLoose(g: Geometry, a: Image, b: Image, w: Setup, E: Dirs, H: Forest)
    requires Geometric(g, |b|) && Repaired(g, a, b, w, E, H)
    ensures Tables(g, |a|) && InodeMaps(g, |a|) && CaseFor(g, a, w).n == g.inodesCount && |a| == |b|
    ensures LooseRight(CaseFor(g, a, w), g, a, b, w.P)
  {
    hide Repairable, Beside, World, AllRescued, LooseRight, Linked, Mapped, BitsRight, TablesAgree, TreeUsed, CaseFor;
  }

  lemma HitMeans(c: Case, g: Geometry, a: Image, b: nat, k: nat)
    requires Tables(g, |a|) && c.n == g.inodesCount && 1 <= k <= c.n && Missing(c, k) && k !in c.dirs
    requires FirstBlock(g, a, k) == b
    ensures Hit(c, g, a, b, c.n + 1)
  {
    hide Tables, Missing, InodeAt;
  }

  lemma LooseRightAt(c: Case, g: Geometry, a: Image, b: Image, P: Places, k: nat)
    requires Tables(g, |a|) && c.n == g.inodesCount && LooseRight(c, g, a, b, P) && Hit(c, g, a, k, c.n + 1)
    requires k < |a| && !IsDirBlock(P, k) && !IsMeta(g, k)
    ensures |b| == |a| && b[k] == PutLe(a[k], FIRST_ENTRY_LEN, c.lf, 4)
  {
    hide Tables, Hit, IsDirBlock, IsMeta;
  }

  lemma NumberThere(b: Block)
    ensures U32(PutLe(b, FIRST_ENTRY_LEN, LF, 4), FIRST_ENTRY_LEN) == LF
  {
    PutU32(b, FIRST_ENTRY_LEN, LF);
  }

  lemma ZerosThere()
    ensures Img(Filed(false))[11] == Zero() && U32(Zero(), FIRST_ENTRY_LEN) == 0
  {
  }

  /** A directory block whose first record is 16 bytes long. */
  function LongDot(): Block {
    SpliceBytes(PutEntry(Zero(), 0, Entry(ONE, BLOCK_SIZE, DIR_TYPE, DOT)), 0, 16,
      Entry(ROOT_INO, 12, DIR_TYPE, DOT_DOT))
  }

  function LongPair(): seq<Entry> {
    [Entry(ONE, 16, DIR_TYPE, DOT), Entry(ROOT_INO, BLOCK_SIZE - 16, DIR_TYPE, DOT_DOT)]
  }

  lemma LongDotDecodes()
    ensures BlockFrom(LongDot(), 0, LongPair())
  {
    hide PutEntry, SpliceBytes;
    var first, second := Entry(ONE, BLOCK_SIZE, DIR_TYPE, DOT), Entry(ROOT_INO, 12, DIR_TYPE, DOT_DOT);
    var b := PutEntry(Zero(), 0, first);
    PutEntryDecodes(Zero(), b, 0, first);
    BytesAreSpliced(b, LongDot(), 0, 16, second);
    CutDecodes(b, LongDot(), first, second.(recLen := BLOCK_SIZE - 16));
  }

  lemma CutDecodes(b: Block, c: Block, first: Entry, e: Entry)
    requires BlockFrom(b, 0, [first]) && Spliced(b, c, 0, 16, e) && |first.name| == 1
    ensures BlockFrom(c, 0, [first.(recLen := 16), e])
  {
    NextRecord(b, 0, [first]);
    assert EntryAt(b, 0) == first;
    assert c[8..9] == b[8..9];
    assert Record(c, 0) && EntryAt(c, 0) == first.(recLen := 16);
  }

  /** Moving that directory leaves its second entry naming the root. */
  lemma RewriteMisses()
    ensures U32(PutLe(LongDot(), FIRST_ENTRY_LEN, LF, 4), 16) != LF && U32(LongDot(), 16) == ROOT_INO
  {
    hide PutLe, LongDot;
    LongDotDecodes();
    RewriteLandsIff(LongDot(), PutLe(LongDot(), FIRST_ENTRY_LEN, LF, 4), LongPair(), LF);
  }
}
