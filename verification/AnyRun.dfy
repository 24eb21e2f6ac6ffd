/** The four passes on a disk whose orphans are numbered and linked in any way. */
module AnyRun {
  import opened Bytes
  import opened Disk
  import opened Bitmap
  import opened Inode
  import opened Tree
  import opened Dots
  import opened Layout
  import opened Walk
  import opened LostFound
  import opened Graft
  import opened Rescue
  import opened Rounds
  import opened Orphans
  import opened Listed
  import opened Outcome
  import opened Pass2
  import opened Pass3
  import opened UsedBlocks
  import opened Pass4
  import opened Fsck

  /** What the passes need to be able to run at all. */
  ghost predicate Startable(g: Geometry, img: Image, w: Setup) {
    && Based(g, img, w)
    && AllHeaded(w.D) && ROOT_INO in w.D && Unfolds(w.D, Kids(w.D, ROOT_INO), w.F) && Distinct(Whole(w.F))
    && var c := CaseFor(g, img, w);
    && AnyOrder(c) && LostFoundIs(c.D0, c.lf) && LooseBlocks(c, g, img, w.P, w.X)
    && FilesSafe(g, img, w.P, w.X, w.files)
    && (forall n, i :: n in w.P && 0 <= i < |w.P[n]| ==> w.P[n][i] <= g.blocksCount)
  }

  lemma StartParts(g: Geometry, a: Image, w: Setup)
    requires Startable(g, a, w)
    ensures Based(g, a, w) && Geometric(g, |a|) && Tables(g, |a|) && InodeMaps(g, |a|) && World(g, a, w.P, w.D)
    ensures AllHeaded(w.D) && ROOT_INO in w.D && Unfolds(w.D, Kids(w.D, ROOT_INO), w.F)
    ensures Distinct(w.F) && ROOT_INO !in Nodes(w.F) && 0 < ROOT_INO < U32_LIMIT && 2 <= g.inodesCount < U32_LIMIT
    ensures AnyOrder(CaseFor(g, a, w)) && CaseFor(g, a, w).n == g.inodesCount && CaseFor(g, a, w).files == w.files
    ensures LostFoundIs(CaseFor(g, a, w).D0, CaseFor(g, a, w).lf) && LooseBlocks(CaseFor(g, a, w), g, a, w.P, w.X)
    ensures FilesSafe(g, a, w.P, w.X, w.files)
    ensures forall n, i :: n in w.P && 0 <= i < |w.P[n]| ==> w.P[n][i] <= g.blocksCount
    ensures Dotted(w) == FixTree(w.D, ROOT_INO, Dir(ROOT_INO, w.F, Nil))
  {
    hide World, Tables, InodeMaps, BlockMaps, MetaApart, AnyOrder, LostFoundIs, LooseBlocks, FilesSafe, Refs, FixTree,
         LiveIn, DirsIn, Unfolds, IsMeta;
  }

  /** After pass1 the loop of pass2 can run. */
  lemma AnyAfterPass1(g: Geometry, a: Image, b: Image, w: Setup)
    requires Startable(g, a, w) && OnlyDirsDiffer(w.P, a, b) && World(g, b, w.P, Dotted(w))
    ensures Tables(g, |a|) && InodeMaps(g, |a|) && CaseFor(g, a, w).D0 == Dotted(w)
    ensures Fixed(CaseFor(g, a, w), g, b, w.P, w.X) && Runnable(CaseFor(g, a, w))
  {
    hide *;
    StartParts(g, a, w);
    BasedParts(g, a, w);
    CaseKept(g, a, b, w);
    CaseDirs(g, a, w);
    AnyOrderRuns(CaseFor(g, a, w));
    OrderTree(CaseFor(g, a, w));
    LostFoundNumber(CaseFor(g, a, w));
    LooseAsBefore(CaseFor(g, a, w), g, a, b, w.P, w.X);
    CaseSets(g, b, w);
    MakeFixed(CaseFor(g, a, w), g, b, w.P, w.X);
  }

  lemma LostFoundNumber(c: Case)
    requires TreeReady(c)
    ensures 0 < c.lf <= c.n
  {
    hide Unfolds, Typed, InRange, DotsRight, AllHeaded;
  }

  lemma CaseSets(g: Geometry, b: Image, w: Setup)
    requires Tables(g, |b|) && InodeMaps(g, |b|)
    ensures CaseFor(g, b, w).live == LiveIn(g, b) && CaseFor(g, b, w).dirs == DirsIn(g, b)
  {
    hide Tables, InodeMaps, LiveIn, DirsIn, Dotted, Refs;
  }

  lemma MakeFixed(c: Case, g: Geometry, img: Image, P: Places, X: set<nat>)
    requires Tables(g, |img|) && InodeMaps(g, |img|) && World(g, img, P, c.D0) && 2 <= g.inodesCount < U32_LIMIT
    requires c.n == g.inodesCount && 0 < c.lf <= c.n && LostFoundIs(c.D0, c.lf)
    requires c.live == LiveIn(g, img) && c.dirs == DirsIn(g, img) && LooseBlocks(c, g, img, P, X)
    ensures Fixed(c, g, img, P, X)
  {
    hide Tables, InodeMaps, Placed, Shows, LiveIn, DirsIn, LostFoundIs, LooseBlocks;
  }

  /** What is not a directory and gets an entry is a known file. */
  ghost predicate ListedKnown(c: Case) { forall i :: 1 <= i <= c.n && Missing(c, i) && i !in c.dirs ==> i in c.files }

  lemma LooseKnown(c: Case, g: Geometry, img: Image, P: Places, X: set<nat>)
    requires Tables(g, |img|) && c.n == g.inodesCount && LooseBlocks(c, g, img, P, X)
    ensures ListedKnown(c)
  {
    hide Tables, Missing, LooseBlock, FirstBlock, IsMeta;
  }

  /** Entry types agree with inode modes in every round. */
  lemma {:induction false} LostFoundTyped(c: Case, k: nat)
    requires Runnable(c) && AllHeaded(c.D0) && Typed(c.D0, c.dirs, c.files) && ListedKnown(c) && 1 <= k <= c.n + 1
    ensures ListTyped(Kids(RoundAt(c, k).D, c.lf), c.dirs, c.files)
  {
    hide *;
    if k == 1 {
      StartDirs(c);
      TypedAt(c.D0, c.lf, c.dirs, c.files);
    } else {
      var i := k - 1;
      LostFoundTyped(c, i);
      if Missing(c, i) {
        RoundKeeps(c, i);
        RoundFollows(c, i);
        MissingIs(c, i);
        NextDirs(c, RoundAt(c, i), i);
        LostFoundFills(c, i);
        KnownAt(c, i);
        TypedStep(c, i, RoundAt(c, i).D);
      } else {
        RoundSkips(c, i);
      }
    }
  }

  lemma TypedAt(D: Dirs, n: nat, dirs: set<nat>, files: set<nat>)
    requires Typed(D, dirs, files)
    ensures ListTyped(Kids(D, n), dirs, files)
  {
    if n !in D { assert Kids(D, n) == []; }
  }

  lemma KnownAt(c: Case, i: nat)
    requires ListedKnown(c) && 1 <= i <= c.n && Missing(c, i)
    ensures i in c.dirs || i in c.files
  {
    hide Missing;
  }

  lemma TypedStep(c: Case, i: nat, D: Dirs)
    requires LostFoundAt(c, i, D) && CanMove(D, c.lf, i) && (i in c.dirs || i in c.files)
    requires ListTyped(Kids(D, c.lf), c.dirs, c.files)
    ensures ListTyped(Kids(Rescued(D, c.lf, i, 0, EntryFor(c, i)), c.lf), c.dirs, c.files)
  {
    hide Spliceable, ListTyped, Missing, Link;
    var e := EntryFor(c, i);
    assert e.ino == i && (e.IsDir() <==> i in c.dirs);
    var E := Rescued(D, c.lf, i, 0, e);
    assert E[c.lf] == Inserted(D[c.lf], 0, e);
    if Lands(D[c.lf], 0, e) {
      InsertedGrew(D[c.lf], 0, e);
      assert Grew(Kids(D, c.lf), Kids(E, c.lf), e);
      GrewTyped(Kids(D, c.lf), Kids(E, c.lf), e, c.dirs, c.files);
    } else {
      assert Inserted(D[c.lf], 0, e) == D[c.lf];
    }
  }

  lemma EndTyped(c: Case)
    requires AnyOrder(c) && ListedKnown(c)
    ensures Typed(End(c), c.dirs, c.files) && InRange(End(c), c.n + 1) && End(c).Keys <= c.dirs && ROOT_INO in End(c)
  {
    hide *;
    AnyOrderRuns(c);
    OrderTree(c);
    TreeTyped(c);
    RoundKeeps(c, c.n + 1);
    LostFoundTyped(c, c.n + 1);
    EndIs(c);
    KeptTyped(c, End(c));
  }

  lemma TreeTyped(c: Case)
    requires TreeReady(c)
    ensures Typed(c.D0, c.dirs, c.files) && c.D0.Keys <= c.dirs && ROOT_INO in c.D0
  {
  }

  lemma KeptTyped(c: Case, E: Dirs)
    requires Kept(c, c.n + 1, RoundAt(c, c.n + 1)) && E == RoundAt(c, c.n + 1).D
    requires Typed(c.D0, c.dirs, c.files) && c.D0.Keys <= c.dirs && ROOT_INO in c.D0
    requires ListTyped(Kids(E, c.lf), c.dirs, c.files)
    ensures Typed(E, c.dirs, c.files) && InRange(E, c.n + 1) && E.Keys <= c.dirs && ROOT_INO in E
  {
    hide RoundAt, Missing, InRange, Kids, ListTyped;
    forall n | n in E
      ensures ListTyped(Kids(E, n), c.dirs, c.files)
    {
      if n != c.lf { assert Kids(E, n) == Kids(c.D0, n); }
    }
  }

  /** The tree of the walk from the root after the loop; a directory with two names
      stands in it twice. */
  ghost function EndTree(c: Case): Forest { TreeAt(End(c), ROOT_INO) }

  lemma EndUnfolds(c: Case)
    requires AnyOrder(c)
    ensures Unfolds(End(c), Kids(End(c), ROOT_INO), EndTree(c))
  {
    hide *;
    EndWalks(c);
    TreeUnfolds(End(c), ROOT_INO);
    EndTreeIs(c);
  }

  lemma EndTreeIs(c: Case)
    ensures EndTree(c) == TreeAt(End(c), ROOT_INO)
  {
  }

  /** What pass3 and pass4 ask for. */
  lemma Any34Ready(g: Geometry, a: Image, b: Image, w: Setup)
    requires Startable(g, a, w) && Beside(g, w.P, w.X, a, b)
    ensures Tables(g, |a|) && InodeMaps(g, |a|) && |b| == |a| && BlockMaps(g, |b|)
    ensures var c := CaseFor(g, a, w);
            && ROOT_INO in End(c) && Unfolds(End(c), Kids(End(c), ROOT_INO), EndTree(c))
            && InRange(End(c), g.inodesCount + 1) && Typed(End(c), c.dirs, w.files)
            && AllSound(g, b, w.P, End(c), g.blocksCount + 1)
            && NodeSound(g, b, End(c), ROOT_INO, EndTree(c), true, g.blocksCount + 1)
    ensures forall x :: x in w.files ==> FileSafe(g, b, w.P, w.X, x)
  {
    hide *;
    StartParts(g, a, w);
    var c := CaseFor(g, a, w);
    LooseKnown(c, g, a, w.P, w.X);
    EndTyped(c);
    EndUnfolds(c);
    BesideSize(g, w.P, w.X, a, b);
    MapsThere(g, |a|);
    SameDirs(g, w.P, w.X, a, b);
    CaseSets(g, a, w);
    forall x | x in w.files
      ensures FileSafe(g, b, w.P, w.X, x)
    {
      FileIsSafe(g, a, w.P, w.X, w.files, x);
      SafeKept(g, w.P, w.X, a, b, x);
    }
    AllSoundNow(g, b, w.P, w.X, End(c), EndTree(c), c.dirs, w.files);
  }

  lemma MapsThere(g: Geometry, size: nat)
    requires Geometric(g, size)
    ensures BlockMaps(g, size) && Tables(g, size)
  {
  }

  lemma FileIsSafe(g: Geometry, img: Image, P: Places, X: set<nat>, files: set<nat>, x: nat)
    requires Tables(g, |img|) && FilesSafe(g, img, P, X, files) && x in files
    ensures FileSafe(g, img, P, X, x)
  {
    hide FileSafe, Tables;
  }

  /** The state that the passes leave: the directories of the loop's last round; every
      link count the `char` that counts the names the walk from the root meets; every
      verified block's bit set exactly when that walk uses the block. */
  ghost predicate Settles(g: Geometry, a: Image, b: Image, w: Setup)
    requires Geometric(g, |a|) && |b| == |a|
  {
    var c := CaseFor(g, a, w);
    && c.n == g.inodesCount && World(g, b, w.P, End(c)) && LinksCounted(g, b, c)
    && Mapped(g, b, TreeUsed(g, b, w.P, End(c), ROOT_INO, EndTree(c)))
    && SameMap(g, a, b) && LooseRight(c, g, a, b, w.P)
  }

  ghost predicate LinksCounted(g: Geometry, b: Image, c: Case)
    requires Tables(g, |b|)
  {
    forall x :: 1 <= x <= g.inodesCount ==> InodeAt(g, b, x).links == StoredLinks(Refs(End(c), Whole(EndTree(c)), x))
  }

  lemma MakeSettles(g: Geometry, a: Image, b: Image, w: Setup, refs: seq<nat>)
    requires Geometric(g, |a|) && |b| == |a| && Tables(g, |a|) && InodeMaps(g, |a|) && BlockMaps(g, |a|)
    requires CaseFor(g, a, w).n == g.inodesCount && World(g, b, w.P, End(CaseFor(g, a, w)))
    requires |refs| == g.inodesCount + 1
    requires forall x :: 0 <= x < |refs| ==> refs[x] == Refs(End(CaseFor(g, a, w)), Whole(EndTree(CaseFor(g, a, w))), x)
    requires forall x :: 1 <= x <= g.inodesCount ==> InodeAt(g, b, x).links == StoredLinks(refs[x])
    requires Mapped(g, b, TreeUsed(g, b, w.P, End(CaseFor(g, a, w)), ROOT_INO, EndTree(CaseFor(g, a, w))))
    requires SameMap(g, a, b) && LooseRight(CaseFor(g, a, w), g, a, b, w.P)
    ensures Settles(g, a, b, w)
  {
    hide Tables, InodeMaps, BlockMaps, MetaApart, World, InodeAt, StoredLinks, Refs, Mapped, SameMap, LooseRight,
         TreeUsed, CaseFor, End, EndTree;
  }

  /** pass3 and pass4 after the loop. */
  lemma AnyAssemble(g: Geometry, a: Image, m: Image, l: Image, b: Image, w: Setup, refs: seq<nat>)
    requires Startable(g, a, w) && Tables(g, |a|) && InodeMaps(g, |a|) && BlockMaps(g, |l|)
    requires |l| == |m| && |b| == |l| && |refs| == g.inodesCount + 1 && Tables(g, |m|)
    requires forall x :: 0 <= x < |refs| ==> refs[x] == Refs(End(CaseFor(g, a, w)), Whole(EndTree(CaseFor(g, a, w))), x)
    requires Midway(g, m, l, refs, g.inodesCount + 1)
    requires BitsFixed(g, l, b, TreeUsed(g, l, w.P, End(CaseFor(g, a, w)), ROOT_INO, EndTree(CaseFor(g, a, w))))
    requires forall k :: 0 <= k < |b| && !InRuns(g.blockBitmap, g.BlockBitmapBlocks(), k) ==> b[k] == l[k]
    requires World(g, m, w.P, End(CaseFor(g, a, w))) && World(g, l, w.P, End(CaseFor(g, a, w)))
    requires Beside(g, w.P, w.X, a, m) && SameMap(g, a, m) && CaseFor(g, a, w).n == g.inodesCount
    requires LooseRight(CaseFor(g, a, w), g, a, m, w.P)
    ensures Geometric(g, |a|) && |b| == |a| && Settles(g, a, b, w)
  {
    hide *;
    StartParts(g, a, w);
    var c := CaseFor(g, a, w);
    BesideSize(g, w.P, w.X, a, m);
    BesideLinks(g, w.P, w.X, m, l, End(c), refs);
    BesideTrans(g, w.P, w.X, a, m, l);
    Any34Ready(g, a, l, w);
    BesideBits(g, w.P, w.X, l, b, End(c));
    TreeUsedKept(g, w.P, w.X, l, b, End(c), EndTree(c), c.dirs, w.files);
    StillStored(g, l, b, refs);
    NowMapped(g, l, b, TreeUsed(g, l, w.P, End(c), ROOT_INO, EndTree(c)));
    MetaOnly(g, m, l, b, refs);
    LooseStays(c, g, a, m, b, w.P);
    MapStays(g, a, m, l, b, refs);
    MakeSettles(g, a, b, w, refs);
  }

  /** correct_one_partition, however the orphans are numbered and whatever their `..`
      name: the passes end, unless pass2 exits on a block beyond the disk. */
  method CorrectAnyOrder(d: Disk, ghost w: Setup) returns (exited: bool, ghost last: nat)
    requires Startable(d.g, d.blocks, w)
    modifies d
    ensures Geometric(d.g, |old(d.blocks)|) && |d.blocks| == |old(d.blocks)|
    ensures CaseFor(d.g, old(d.blocks), w).n == d.g.inodesCount
    ensures Stops(CaseFor(d.g, old(d.blocks), w), d.g, old(d.blocks), exited, last)
    ensures if exited then Stopped(d.g, old(d.blocks), d.blocks, w, exited, last)
            else Settles(d.g, old(d.blocks), d.blocks, w)
  {
    hide *;
    ghost var img0 := d.blocks;
    StartParts(d.g, img0, w);
    ghost var E1 := Pass1.Pass1(d, ROOT_INO, ROOT_INO, w.P, w.D, w.F);
    ghost var img1 := d.blocks;
    AnyAfterPass1(d.g, img0, img1, w);
    ghost var c := CaseFor(d.g, img0, w);
    exited, last := Pass2.Pass2(d, c, w.P, w.X);
    ghost var img2 := d.blocks;
    AfterStop(d.g, img0, img1, img2, w, exited, last);
    StoppedParts(d.g, img0, img2, w, exited, last);
    if exited { return; }
    AfterDirs(d.g, img0, img1, img2, w);
    EndIs(c);
    Any34Ready(d.g, img0, img2, w);
    ghost var refs := Pass3.Pass3(d, w.P, End(c), EndTree(c));
    ghost var img3 := d.blocks;
    BesideLinks(d.g, w.P, w.X, img2, img3, End(c), refs);
    BesideTrans(d.g, w.P, w.X, img0, img2, img3);
    Any34Ready(d.g, img0, img3, w);
    Pass4.Pass4(d, w.P, End(c), EndTree(c));
    AnyAssemble(d.g, img0, img2, img3, d.blocks, w, refs);
  }

  /** The walk of pass3 counts exactly the inodes that a reachable directory names. */
  lemma CountedIffNamed(c: Case, x: nat)
    requires AnyOrder(c)
    ensures Refs(End(c), Whole(EndTree(c)), x) > 0 <==> NamedEnd(c, x)
  {
    hide *;
    EndUnfolds(c);
    AnyOrderRuns(c);
    OrderTree(c);
    RootEnds(c);
    EndKeys(c);
    RefsPositive(End(c), Whole(EndTree(c)), x);
    forall m
      ensures m in Nodes(Whole(EndTree(c))) <==> Reachable(End(c), ROOT_INO, m)
    {
      WalkedIsReachable(End(c), ROOT_INO, EndTree(c), m);
      WholeIs(EndTree(c));
    }
    NamedEndIs(c, x);
  }

  lemma WholeIs(F: Forest)
    ensures Whole(F) == Dir(ROOT_INO, F, Nil)
  {
  }

  lemma NamedEndIs(c: Case, x: nat)
    ensures NamedEnd(c, x) <==> exists m :: Reachable(End(c), ROOT_INO, m) && Mentions(All(End(c), m), x) > 0
  {
  }

  lemma StoredZero(n: nat)
    ensures StoredLinks(n) == 0 <==> n % 256 == 0
  {
  }

  /** What becomes of an inode that was live: pass2 leaves it with a name exactly when the
      tree named it, its own entry found room in lost+found or a directory that holds it
      did.  If it has no name, pass3 clears its link count, so that no later run takes it
      for live; if it has one, it stays live unless its names come to a multiple of 256. */
  lemma LiveAfterIff(g: Geometry, a: Image, b: Image, w: Setup, x: nat)
    requires Startable(g, a, w) && Geometric(g, |a|) && |b| == |a| && Settles(g, a, b, w)
    requires Tables(g, |a|) && InodeMaps(g, |a|) && x in LiveIn(g, a)
    ensures g.HasInode(x)
    ensures var c := CaseFor(g, a, w);
            && (NamedEnd(c, x) <==> Named(c.D0, c.F0, x) || Housed(c, x) || Held(c, x))
            && (!NamedEnd(c, x) ==> InodeAt(g, b, x).links == 0 && x !in LiveIn(g, b))
            && (NamedEnd(c, x) ==> (x in LiveIn(g, b) <==> Refs(End(c), Whole(EndTree(c)), x) % 256 != 0))
  {
    hide *;
    StartParts(g, a, w);
    var c := CaseFor(g, a, w);
    CaseSets(g, a, w);
    LiveBelow(g, a);
    EndNamesIff(c, x);
    HeldIs(c, x);
    CountedIffNamed(c, x);
    StoredZero(Refs(End(c), Whole(EndTree(c)), x));
    SettlesAt(g, a, b, w, x);
    StillAllocated(g, a, b, x);
  }

  lemma SettlesAt(g: Geometry, a: Image, b: Image, w: Setup, x: nat)
    requires Geometric(g, |a|) && |b| == |a| && Settles(g, a, b, w) && 1 <= x <= g.inodesCount
    ensures Tables(g, |a|) && InodeMaps(g, |a|) && SameMap(g, a, b) && g.HasInode(x)
    ensures InodeAt(g, b, x).links == StoredLinks(Refs(End(CaseFor(g, a, w)), Whole(EndTree(CaseFor(g, a, w))), x))
  {
    hide World, InodeAt, StoredLinks, Refs, Mapped, SameMap, LooseRight, TreeUsed, CaseFor, End, EndTree;
  }

  lemma StillAllocated(g: Geometry, a: Image, b: Image, x: nat)
    requires Tables(g, |a|) && InodeMaps(g, |a|) && SameMap(g, a, b) && g.HasInode(x) && x in LiveIn(g, a)
    ensures x in LiveIn(g, b) <==> InodeAt(g, b, x).links != 0
  {
    hide Tables, InodeMaps, InodeAt, Allocated;
    AllocatedKept(g, a, b, x);
  }
}
