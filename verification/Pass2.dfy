/** pass2 on the disk: inodes that are allocated and in use but named nowhere are
  put into lost+found. */
module Pass2 {
  import opened Bytes
  import opened DirBlock
  import opened Disk
  import opened Bitmap
  import opened Inode
  import opened Tree
  import opened Layout
  import opened Walk
  import opened Names
  import opened LostFound
  import opened Rescue
  import opened Rounds

  /** The inode bitmaps lie on the disk, disjoint, and the partition-wide index finds
      each inode's own bit. */
  ghost predicate InodeMaps(g: Geometry, size: nat) {
    && Maps(g.inodeBitmap, g.inodesPerGroup, g.inodesCount, size)
    && Fills(g.inodesPerGroup, g.InodeBitmapBlocks(), g.InodeGroups())
  }

  /** Inode `n`'s own bit, in its group's bitmap, is set. */
  ghost predicate Allocated(g: Geometry, img: Image, n: nat)
    requires InodeMaps(g, |img|) && g.HasInode(n)
  {
    OwnInRuns(g.inodeBitmap, g.inodesPerGroup, g.inodesCount, |img|, n);
    OwnBit(img, g.inodeBitmap, g.inodesPerGroup, n) == 1
  }

  ghost function LiveIn(g: Geometry, img: Image): set<nat>
    requires Tables(g, |img|) && InodeMaps(g, |img|)
  {
    set n | 1 <= n <= g.inodesCount && InodeAt(g, img, n).links != 0 && Allocated(g, img, n)
  }

  ghost function DirsIn(g: Geometry, img: Image): set<nat>
    requires Tables(g, |img|)
  {
    set n | 1 <= n <= g.inodesCount && InodeAt(g, img, n).IsDir()
  }

  ghost function CaseOf(g: Geometry, img: Image, D: Dirs, F: Forest, O: Forest, lf: nat, files: set<nat>): (c: Case)
    requires Tables(g, |img|) && InodeMaps(g, |img|)
  {
    Case(LiveIn(g, img), DirsIn(g, img), files, g.inodesCount, lf, D, F, O,
         seq(g.inodesCount + 1, x requires 0 <= x <= g.inodesCount => Refs(D, Dir(ROOT_INO, F, O), x)))
  }

  /** Where the code looks for lost+found. */
  ghost predicate LostFoundIs(D: Dirs, lf: nat) {
    ROOT_INO in D && D[ROOT_INO] != [] && Find(D[ROOT_INO][0], LOST_FOUND) == Some(lf)
  }

  /** First blocks of the non-directories that will be rescued. */
  ghost predicate LooseBlocks(c: Case, g: Geometry, img: Image, P: Places, X: set<nat>)
    requires Tables(g, |img|) && c.n == g.inodesCount
  {
    && (forall b :: b in X ==> !IsMeta(g, b))
    && (forall k :: 1 <= k <= c.n && Missing(c, k) && k !in c.dirs ==>
          k in c.files && LooseBlock(g, img, P, k) && FirstBlock(g, img, k) in X)
  }

  /** What stays fixed during the loop. */
  ghost predicate Fixed(c: Case, g: Geometry, img0: Image, P: Places, X: set<nat>) {
    && Tables(g, |img0|) && InodeMaps(g, |img0|) && Placed(g, img0, P)
    && 2 <= g.inodesCount < U32_LIMIT && c.n == g.inodesCount
    && c.live == LiveIn(g, img0) && c.dirs == DirsIn(g, img0)
    && LostFoundIs(c.D0, c.lf) && g.HasInode(c.lf)
    && LooseBlocks(c, g, img0, P, X)
  }

  /** Before round `i` a file whose first block is `b` has been rescued. */
  ghost predicate Hit(c: Case, g: Geometry, img0: Image, b: nat, i: nat)
    requires Tables(g, |img0|) && c.n == g.inodesCount
  {
    exists k: nat :: 1 <= k < i && k <= c.n && Missing(c, k) && k !in c.dirs && FirstBlock(g, img0, k) == b
  }

  /** Round `i` rescues an inode that is no directory and whose first block is not on the
      disk, as with the text of a short symbolic link: the program exits. */
  ghost predicate Exits(c: Case, g: Geometry, img0: Image, i: nat)
    requires Tables(g, |img0|) && c.n == g.inodesCount
  {
    1 <= i <= c.n && Missing(c, i) && i !in c.dirs && FirstBlock(g, img0, i) >= |img0|
  }

  /** Outside the directories, exactly the first blocks of rescued files differ from the
      start, and they in bytes 12 to 15, which hold lost+found's number. */
  ghost predicate LooseNow(c: Case, g: Geometry, img0: Image, img: Image, P: Places, i: nat)
    requires Tables(g, |img0|) && c.n == g.inodesCount
  {
    && |img| == |img0|
    && forall b :: 0 <= b < |img| && !IsDirBlock(P, b) ==>
         img[b] == if Hit(c, g, img0, b, i) then PutLe(img0[b], FIRST_ENTRY_LEN, c.lf, 4) else img0[b]
  }

  /** The disk before round `i`. */
  ghost predicate Now(c: Case, g: Geometry, img0: Image, img: Image, P: Places, i: nat)
    requires Tables(g, |img0|) && c.n == g.inodesCount
  {
    World(g, img, P, RoundAt(c, i).D) && LooseNow(c, g, img0, img, P, i)
  }

  lemma NowStart(c: Case, g: Geometry, img0: Image, P: Places, X: set<nat>)
    requires Fixed(c, g, img0, P, X) && World(g, img0, P, c.D0)
    ensures Now(c, g, img0, img0, P, 1)
  {
    hide World, Missing;
  }

  /** The loose blocks are the only ones outside the directories that differ. */
  lemma LooseOnly(c: Case, g: Geometry, img0: Image, img: Image, P: Places, X: set<nat>, i: nat)
    requires Fixed(c, g, img0, P, X) && LooseNow(c, g, img0, img, P, i)
    ensures OnlyDirsOr(P, X, img0, img)
  {
    hide InodeAt, Missing, Tables, InodeMaps, Placed, LostFoundIs, LiveIn, DirsIn, IsDirBlock, PutLe, IsMeta;
  }

  lemma InodeThen(c: Case, g: Geometry, img0: Image, img: Image, P: Places, X: set<nat>, n: nat)
    requires Fixed(c, g, img0, P, X) && OnlyDirsOr(P, X, img0, img) && g.HasInode(n)
    ensures |img| == |img0| && Tables(g, |img|) && InodeAt(g, img, n) == InodeAt(g, img0, n)
  {
    TablesAreNotDirs(g, img0, P, n);
    TableBlockIsTable(g, n);
    SameInode(g, img0, img, n);
  }

  /** A round that rescues nothing. */
  lemma LooseKept(c: Case, g: Geometry, img0: Image, img: Image, P: Places, i: nat)
    requires Tables(g, |img0|) && c.n == g.inodesCount && LooseNow(c, g, img0, img, P, i)
    requires !Missing(c, i) || i in c.dirs
    ensures LooseNow(c, g, img0, img, P, i + 1)
  {
    hide InodeAt, Missing, Tables, IsDirBlock, PutLe;
  }

  /** A round that rescues a directory. */
  lemma LooseDirs(c: Case, g: Geometry, img0: Image, mid: Image, img: Image, P: Places, i: nat)
    requires Tables(g, |img0|) && c.n == g.inodesCount && LooseNow(c, g, img0, mid, P, i)
    requires i in c.dirs && OnlyDirsOr(P, {}, mid, img)
    ensures LooseNow(c, g, img0, img, P, i + 1)
  {
    hide InodeAt, Missing, Tables, IsDirBlock, PutLe;
    LooseKept(c, g, img0, mid, P, i);
  }

  /** A round that rescues a file. */
  lemma LooseFile(c: Case, g: Geometry, img0: Image, mid: Image, img: Image, P: Places, i: nat)
    requires Tables(g, |img0|) && c.n == g.inodesCount && LooseNow(c, g, img0, mid, P, i)
    requires 1 <= i <= c.n && Missing(c, i) && i !in c.dirs && 0 < c.lf < U32_LIMIT
    requires var b := FirstBlock(g, img0, i);
             OnlyDirsOr(P, {b}, mid, img) && !IsDirBlock(P, b) && Clobbered(mid, img, b, Some(c.lf))
    ensures LooseNow(c, g, img0, img, P, i + 1)
  {
    hide InodeAt, Missing, Tables, IsDirBlock, PutLe;
    var b0 := FirstBlock(g, img0, i);
    TwiceTheSame(img0[b0], c.lf);
    forall b | 0 <= b < |img| && !IsDirBlock(P, b)
      ensures img[b] == if Hit(c, g, img0, b, i + 1) then PutLe(img0[b], FIRST_ENTRY_LEN, c.lf, 4) else img0[b]
    {
      if b == b0 {
        assert Hit(c, g, img0, b, i + 1);
      } else {
        assert Hit(c, g, img0, b, i + 1) <==> Hit(c, g, img0, b, i);
      }
    }
  }

  /** A round in which the program exits. */
  lemma LooseExit(c: Case, g: Geometry, img0: Image, mid: Image, img: Image, P: Places, i: nat)
    requires Tables(g, |img0|) && c.n == g.inodesCount && LooseNow(c, g, img0, mid, P, i)
    requires Exits(c, g, img0, i) && OnlyDirsOr(P, {FirstBlock(g, img0, i)}, mid, img)
    ensures LooseNow(c, g, img0, img, P, i + 1)
  {
    hide InodeAt, FirstBlock, Missing, Tables, IsDirBlock, PutLe;
    forall b | 0 <= b < |img| && !IsDirBlock(P, b)
      ensures img[b] == if Hit(c, g, img0, b, i + 1) then PutLe(img0[b], FIRST_ENTRY_LEN, c.lf, 4) else img0[b]
    {
      assert Hit(c, g, img0, b, i + 1) <==> Hit(c, g, img0, b, i);
    }
  }

  lemma TwiceTheSame(b: Block, lf: nat)
    requires 0 < lf < U32_LIMIT
    ensures PutLe(PutLe(b, FIRST_ENTRY_LEN, lf, 4), FIRST_ENTRY_LEN, lf, 4) == PutLe(b, FIRST_ENTRY_LEN, lf, 4)
  {
    PutU32(b, FIRST_ENTRY_LEN, lf);
    PutSame(PutLe(b, FIRST_ENTRY_LEN, lf, 4), FIRST_ENTRY_LEN);
  }

  /** What the loop knows about the disk when it is about to rescue inode `i`. */
  lemma AboutToRescue(c: Case, g: Geometry, img0: Image, img: Image, P: Places, X: set<nat>, i: nat)
    requires Fixed(c, g, img0, P, X) && Runnable(c) && LooseNow(c, g, img0, img, P, i) && 1 <= i <= c.n && Missing(c, i)
    ensures g.HasInode(i) && Tables(g, |img|) && InodeAt(g, img, i) == InodeAt(g, img0, i)
    ensures LostFoundIs(RoundAt(c, i).D, c.lf)
    ensures i !in c.dirs ==> LooseBlock(g, img, P, i)
    ensures i in c.dirs <==> InodeAt(g, img, i).IsDir()
  {
    hide Runnable, World, Placed, InodeMaps, RoundAt, InodeAt, Tables, Missing, IsDirBlock, IsMeta, LiveIn, PutLe, Hit;
    LooseOnly(c, g, img0, img, P, X, i);
    InodeThen(c, g, img0, img, P, X, i);
    RootUntouched(c, i);
  }

  /** The round on the decoded tree, as the method makes it. */
  lemma RoundMade(c: Case, i: nat, cnt: seq<nat>, cnt': seq<nat>, E: Dirs)
    requires Runnable(c) && 1 <= i && Missing(c, i) && cnt == RoundAt(c, i).cnt
    requires CanMove(RoundAt(c, i).D, c.lf, i) && E == Rescued(RoundAt(c, i).D, c.lf, i, 0, NewEntry(i, i in c.dirs))
    requires if i in c.dirs then Added(RoundAt(c, i).D, Under(c.D0, i), cnt, cnt') else cnt' == cnt
    ensures RoundAt(c, i + 1) == Round(E, cnt')
  {
    hide *;
    RoundKeeps(c, i);
    RoundFollows(c, i);
    RoundStep(c, i);
    MissingIs(c, i);
    NextIs(c, RoundAt(c, i), i);
    if i in c.dirs { AddedIs(RoundAt(c, i).D, Under(c.D0, i), cnt, cnt'); }
  }

  lemma NextIs(c: Case, s: Round, i: nat)
    requires Unreferenced(c, s, i) && CanMove(s.D, c.lf, i)
    ensures NextRound(c, s, i) == Round(Rescued(s.D, c.lf, i, 0, NewEntry(i, i in c.dirs)),
                                        if i in c.dirs then AddRefs(s.D, Under(c.D0, i), s.cnt) else s.cnt)
  {
    hide Rescued, AddRefs, Under, Unreferenced;
  }

  lemma AddedIs(D: Dirs, f: Forest, cnt: seq<nat>, cnt': seq<nat>)
    requires Added(D, f, cnt, cnt')
    ensures cnt' == AddRefs(D, f, cnt)
  {
    hide Refs;
  }

  /** The rescue of inode `i`: its subtree is counted, then it goes to lost+found.  When
      the program exits, the round's directories are on the disk all the same. */
  method RescueInode(d: Disk, counter: array<int>, i: nat, isDir: bool,
                     ghost c: Case, ghost img0: Image, ghost P: Places, ghost X: set<nat>)
    returns (exited: bool)
    requires Fixed(c, d.g, img0, P, X) && Now(c, d.g, img0, d.blocks, P, i) && Runnable(c)
    requires 1 <= i <= c.n && Missing(c, i) && isDir == (i in c.dirs)
    requires Counts(counter, RoundAt(c, i).cnt) && counter.Length == c.n + 1
    modifies d, counter
    ensures Now(c, d.g, img0, d.blocks, P, i + 1) && Counts(counter, RoundAt(c, i + 1).cnt)
    ensures Tables(d.g, |img0|) && c.n == d.g.inodesCount && (exited <==> Exits(c, d.g, img0, i))
  {
    hide *;
    NowParts(c, d.g, img0, d.blocks, P, X, i);
    FixedFacts(c, d.g, img0, P, X);
    RunFacts(c);
    RoundReady(c, i);
    RoundKeeps(c, i);
    AboutToRescue(c, d.g, img0, d.blocks, P, X, i);
    ghost var D, cnt := RoundAt(c, i).D, RoundAt(c, i).cnt;
    ghost var cnt' := cnt;
    if isDir {
      cnt' := Traverse(d, counter, i, P, D, TreeAt(c.D0, i), cnt);
      UnderIs(c.D0, i);
    }
    ghost var mid := d.blocks;
    FoundIt(D, c.lf);
    MoveFacts(c, i);
    ExitsIf(c, d.g, img0, mid, i);
    var junk: Entry := *;
    var status;
    ghost var E;
    status, E := AddToLostFound(d, i, junk, P, D);
    exited := status.Exit?;
    SameRescue(c, i, D, |junk.name|);
    RoundMade(c, i, cnt, cnt', E);
    AfterRescue(c, d.g, img0, mid, d.blocks, P, X, i, D);
    NowParts(c, d.g, img0, d.blocks, P, X, i + 1);
  }

  /** What the uninitialised entry struct held makes no difference. */
  lemma SameRescue(c: Case, i: nat, D: Dirs, junk: nat)
    requires Kept(c, i, RoundAt(c, i)) && D == RoundAt(c, i).D && CanMove(D, c.lf, i)
    ensures Rescued(D, c.lf, i, junk, NewEntry(i, i in c.dirs)) == Rescued(D, c.lf, i, 0, NewEntry(i, i in c.dirs))
  {
    hide RoundAt, Missing, Inserted, InRange, Kids;
    JunkUnused(D[c.lf], junk, 0, NewEntry(i, i in c.dirs));
  }

  lemma ExitsIf(c: Case, g: Geometry, img0: Image, img: Image, i: nat)
    requires Tables(g, |img0|) && c.n == g.inodesCount && |img| == |img0| && 1 <= i <= c.n && Missing(c, i)
    requires InodeAt(g, img, i) == InodeAt(g, img0, i)
    ensures FirstBlock(g, img, i) == FirstBlock(g, img0, i)
    ensures Exits(c, g, img0, i) <==> i !in c.dirs && FirstBlock(g, img, i) >= |img|
  {
    hide InodeAt, Tables, Missing;
  }

  lemma UnderIs(D: Dirs, n: nat)
    ensures Under(D, n) == Dir(n, TreeAt(D, n), Nil)
  {
  }

  lemma RunFacts(c: Case)
    requires Runnable(c)
    ensures 0 < c.lf <= c.n && ROOT_INO in c.D0 && Unfolds(c.D0, Kids(c.D0, ROOT_INO), c.F0) && InRange(c.D0, c.n + 1)
  {
  }

  lemma MoveFacts(c: Case, i: nat)
    requires CanMove(RoundAt(c, i).D, c.lf, i)
    ensures i != c.lf
  {
  }

  lemma NowParts(c: Case, g: Geometry, img0: Image, img: Image, P: Places, X: set<nat>, i: nat)
    requires Fixed(c, g, img0, P, X)
    ensures Tables(g, |img0|) && c.n == g.inodesCount
    ensures Now(c, g, img0, img, P, i) <==> World(g, img, P, RoundAt(c, i).D) && LooseNow(c, g, img0, img, P, i)
    ensures LooseNow(c, g, img0, img, P, i) ==> |img| == |img0|
  {
  }

  lemma FoundIt(D: Dirs, lf: nat)
    requires LostFoundIs(D, lf)
    ensures ROOT_INO in D && D[ROOT_INO] != [] && Find(D[ROOT_INO][0], LOST_FOUND) == Some(lf)
  {
  }

  lemma FixedFacts(c: Case, g: Geometry, img0: Image, P: Places, X: set<nat>)
    requires Fixed(c, g, img0, P, X)
    ensures Tables(g, |img0|) && g.HasInode(ROOT_INO) && g.HasInode(c.lf) && g.inodesCount < U32_LIMIT &&
            c.n == g.inodesCount
    ensures g.inodesPerGroup > 0 && InodeMaps(g, |img0|)
    ensures Runs(g.inodeBitmap, g.InodeBitmapBlocks(), g.InodeGroups(), |img0|)
  {
    hide LooseBlocks, Placed, LiveIn, DirsIn, Tables, LostFoundIs;
  }

  /** The blocks outside the directories after AddToLostFound. */
  lemma AfterRescue(c: Case, g: Geometry, img0: Image, mid: Image, img: Image, P: Places, X: set<nat>, i: nat, D: Dirs)
    requires Fixed(c, g, img0, P, X) && LooseNow(c, g, img0, mid, P, i) && 1 <= i <= c.n && Missing(c, i)
    requires |mid| == |img0| && Tables(g, |mid|) && InodeAt(g, mid, i) == InodeAt(g, img0, i)
    requires (i in D <==> i in c.dirs) && OnlyDirsOr(P, LooseSet(g, mid, D, i), mid, img)
    requires i !in D ==> LooseBlock(g, mid, P, i)
    requires i !in D && !Exits(c, g, img0, i) ==> Clobbered(mid, img, FirstBlock(g, mid, i), Some(c.lf))
    ensures LooseNow(c, g, img0, img, P, i + 1)
  {
    ExitsIf(c, g, img0, mid, i);
    hide InodeAt, FirstBlock, Exits, Tables, Missing, Hit, PutLe, LooseNow, IsDirBlock, IsMeta, LiveIn, DirsIn,
         LooseBlocks, Placed, InodeMaps, Clobbered, OnlyDirsOr;
    if i in c.dirs {
      LooseDirs(c, g, img0, mid, img, P, i);
    } else if Exits(c, g, img0, i) {
      LooseExit(c, g, img0, mid, img, P, i);
    } else {
      LooseFile(c, g, img0, mid, img, P, i);
    }
  }

  /** One round of the loop. */
  method Pass2Inode(d: Disk, counter: array<int>, bitmap: array<byte>, i: nat,
                    ghost c: Case, ghost img0: Image, ghost P: Places, ghost X: set<nat>)
    returns (exited: bool)
    requires Fixed(c, d.g, img0, P, X) && Now(c, d.g, img0, d.blocks, P, i) && Runnable(c)
    requires 1 <= i <= c.n && Counts(counter, RoundAt(c, i).cnt) && counter.Length == c.n + 1
    requires bitmap as object != counter && MapLoaded(d.g, img0, bitmap[..])
    modifies d, counter
    ensures Now(c, d.g, img0, d.blocks, P, i + 1) && Counts(counter, RoundAt(c, i + 1).cnt)
    ensures Tables(d.g, |img0|) && c.n == d.g.inodesCount && (exited <==> Exits(c, d.g, img0, i))
    ensures !Missing(c, i) ==> d.blocks == old(d.blocks) && d.writes == old(d.writes)
  {
    hide *;
    NowParts(c, d.g, img0, d.blocks, P, X, i);
    FixedFacts(c, d.g, img0, P, X);
    InodeStill(c, d.g, img0, d.blocks, P, X, i);
    CountsAt(counter, RoundAt(c, i).cnt, i);
    LoopTest(c, d.g, img0, P, X, bitmap[..], i);
    ExitsMissing(c, d.g, img0, i);
    exited := false;
    var inode := ReadInode(d, i);
    if inode.links == 0 {
      SkipRound(c, d.g, img0, d.blocks, P, X, i);
      return;
    }
    var bit := GetBit(bitmap, i);
    if bit == 1 && counter[i] == 0 {
      exited := RescueInode(d, counter, i, inode.IsDir(), c, img0, P, X);
    } else {
      SkipRound(c, d.g, img0, d.blocks, P, X, i);
    }
  }

  lemma ExitsMissing(c: Case, g: Geometry, img0: Image, i: nat)
    requires Tables(g, |img0|) && c.n == g.inodesCount
    ensures Exits(c, g, img0, i) ==> 1 <= i <= c.n && Missing(c, i)
  {
    hide Missing, Tables, FirstBlock;
  }

  lemma InodeStill(c: Case, g: Geometry, img0: Image, img: Image, P: Places, X: set<nat>, i: nat)
    requires Fixed(c, g, img0, P, X) && LooseNow(c, g, img0, img, P, i) && 1 <= i <= c.n
    ensures g.HasInode(i) && Tables(g, |img|) && InodeAt(g, img, i) == InodeAt(g, img0, i)
  {
    hide LooseNow, InodeAt, Tables, Missing, OnlyDirsOr;
    LooseOnly(c, g, img0, img, P, X, i);
    InodeThen(c, g, img0, img, P, X, i);
  }

  /** A round that passes over its inode. */
  lemma SkipRound(c: Case, g: Geometry, img0: Image, img: Image, P: Places, X: set<nat>, i: nat)
    requires Fixed(c, g, img0, P, X) && Now(c, g, img0, img, P, i) && 1 <= i && !Missing(c, i)
    ensures RoundAt(c, i + 1) == RoundAt(c, i) && Now(c, g, img0, img, P, i + 1)
  {
    hide World, LooseNow, Missing, RoundAt;
    RoundSkips(c, i);
    LooseKept(c, g, img0, img, P, i);
  }

  ghost predicate MapLoaded(g: Geometry, img: Image, bm: seq<byte>) {
    InodeMaps(g, |img|) && Loaded(bm, img, g.inodeBitmap, g.InodeBitmapBlocks(), g.InodeGroups())
  }

  lemma CountsAt(counter: array<int>, cnt: seq<nat>, i: nat)
    requires Counts(counter, cnt) && i < counter.Length
    ensures |cnt| == counter.Length && counter[i] == Char(cnt[i])
  {
  }

  /** The three conditions the loop tests amount to `Missing`. */
  lemma LoopTest(c: Case, g: Geometry, img0: Image, P: Places, X: set<nat>, bm: seq<byte>, i: nat)
    requires Fixed(c, g, img0, P, X) && 1 <= i <= c.n && MapLoaded(g, img0, bm) && i < |RoundAt(c, i).cnt|
    ensures Tables(g, |img0|) && g.HasInode(i) && (i - 1) / 8 < |bm|
    ensures Missing(c, i) <==>
              InodeAt(g, img0, i).links != 0 && FlatBit(bm, i) == 1 && Char(RoundAt(c, i).cnt[i]) == 0
    ensures InodeAt(g, img0, i).IsDir() <==> i in c.dirs
  {
    hide Placed, LooseBlocks, InodeAt, RoundAt, Tables, LostFoundIs, Char;
    SeenIsOwn(img0, g.inodeBitmap, g.inodesPerGroup, g.inodesCount, i);
    FlatIsSeen(bm, img0, g.inodeBitmap, g.InodeBitmapBlocks(), g.InodeGroups(), i);
  }

  /** The program gets past rounds 1 to `last`, or to round `last` and exits there. */
  ghost predicate Stops(c: Case, g: Geometry, img0: Image, exited: bool, last: nat)
    requires Tables(g, |img0|) && c.n == g.inodesCount
  {
    && last <= c.n && (forall i: nat :: i < last ==> !Exits(c, g, img0, i))
    && (if exited then Exits(c, g, img0, last) else last == c.n && !Exits(c, g, img0, last))
  }

  /** pass2 runs the rounds, whatever the orphans' numbers and their stale `..` are,
      to the end or to the first one that reads a block beyond the disk. */
  method Pass2(d: Disk, ghost c: Case, ghost P: Places, ghost X: set<nat>) returns (exited: bool, ghost last: nat)
    requires Fixed(c, d.g, d.blocks, P, X) && World(d.g, d.blocks, P, c.D0) && Runnable(c)
    modifies d
    ensures Tables(d.g, |old(d.blocks)|) && c.n == d.g.inodesCount
    ensures Stops(c, d.g, old(d.blocks), exited, last)
    ensures Now(c, d.g, old(d.blocks), d.blocks, P, last + 1)
    ensures ToRescue(c, 1) == [] ==> !exited && d.blocks == old(d.blocks) && d.writes == old(d.writes)
  {
    hide *;
    ghost var img0 := d.blocks;
    FixedFacts(c, d.g, img0, P, X);
    RunFacts(c);
    NowStart(c, d.g, img0, P, X);
    var counter := new int[d.g.inodesCount + 1](x => 0);
    ghost var zero := seq(d.g.inodesCount + 1, x => 0);
    CountsZero(counter, zero);
    ghost var cnt := Traverse(d, counter, ROOT_INO, P, c.D0, c.F0, zero);
    StartCounted(c, zero, cnt);
    var bitmap := LoadBitmap(d, d.g.inodeBitmap, d.g.InodeBitmapBlocks(), d.g.InodeGroups());
    BitmapIsLoaded(d.g, img0, bitmap[..]);
    ExitsMissing(c, d.g, img0, 0);
    var i := 1;
    while i <= d.g.inodesCount
      invariant 1 <= i <= c.n + 1
      invariant forall k: nat :: k < i ==> !Exits(c, d.g, img0, k)
      invariant MapLoaded(d.g, img0, bitmap[..])
      invariant Now(c, d.g, img0, d.blocks, P, i) && Counts(counter, RoundAt(c, i).cnt)
      invariant ToRescue(c, 1) == [] ==> d.blocks == old(d.blocks) && d.writes == old(d.writes)
    {
      ExitsMissing(c, d.g, img0, i);
      if Missing(c, i) { OnTheList(c, 1, i); }
      exited := Pass2Inode(d, counter, bitmap, i, c, img0, P, X);
      if exited {
        last := i;
        MakeStops(c, d.g, img0, exited, last);
        return;
      }
      i := i + 1;
    }
    exited, last := false, c.n;
    MakeStops(c, d.g, img0, exited, last);
  }

  lemma MakeStops(c: Case, g: Geometry, img0: Image, exited: bool, last: nat)
    requires Tables(g, |img0|) && c.n == g.inodesCount && last <= c.n
    requires forall i: nat :: i < last ==> !Exits(c, g, img0, i)
    requires if exited then Exits(c, g, img0, last) else last == c.n && !Exits(c, g, img0, last)
    ensures Stops(c, g, img0, exited, last)
  {
    hide Exits;
  }

  lemma StartCounted(c: Case, zero: seq<nat>, cnt: seq<nat>)
    requires |zero| == c.n + 1 && (forall x :: 0 <= x <= c.n ==> zero[x] == 0)
    requires Added(c.D0, Dir(ROOT_INO, c.F0, Nil), zero, cnt)
    ensures RoundAt(c, 1).cnt == cnt
  {
    hide Refs;
  }

  lemma BitmapIsLoaded(g: Geometry, img: Image, bm: seq<byte>)
    requires InodeMaps(g, |img|) && Loaded(bm, img, g.inodeBitmap, g.InodeBitmapBlocks(), g.InodeGroups())
    ensures MapLoaded(g, img, bm)
  {
  }

  lemma CountsZero(counter: array<int>, zero: seq<nat>)
    requires |zero| == counter.Length && (forall x :: 0 <= x < |zero| ==> zero[x] == 0 && counter[x] == 0)
    ensures Counts(counter, zero)
  {
  }
}
