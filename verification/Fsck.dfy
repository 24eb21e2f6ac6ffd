/** correct_one_partition: the four passes in order, the state they end in, and a
  second run. */
module Fsck {
  import opened Bytes
  import opened DirBlock
  import opened Disk
  import opened Bitmap
  import opened Inode
  import opened Tree
  import opened Dots
  import opened Layout
  import opened Walk
  import opened LostFound
  import opened Rescue
  import opened Rounds
  import opened Orphans
  import opened Pass1
  import opened Pass2
  import opened Pass3
  import opened FileBlocks
  import opened UsedBlocks
  import opened Pass4

  /** What is known about a disk besides its bytes: where the directories lie (`P`)
      and what they hold (`D`), the tree below the root (`F`), the orphan trees
      (`O`), lost+found (`lf`), the blocks outside directories that rescues write
      (`X`) and the inodes that are not directories (`files`). */
  datatype Setup = Setup(P: Places, D: Dirs, F: Forest, O: Forest, lf: nat, X: set<nat>, files: set<nat>)

  /** The directories after pass1. */
  ghost function Dotted(w: Setup): Dirs {
    FixTree(w.D, ROOT_INO, Dir(ROOT_INO, w.F, Nil))
  }

  ghost function CaseFor(g: Geometry, img: Image, w: Setup): (c: Case)
    requires Tables(g, |img|) && InodeMaps(g, |img|)
  {
    CaseOf(g, img, Dotted(w), w.F, w.O, w.lf, w.files)
  }

  /** The regions of metadata do not overlap. */
  ghost predicate MetaApart(g: Geometry)
    requires g.inodesPerGroup > 0 && g.InodeGroups() <= |g.inodeTable|
  {
    forall b ::
      && (IsTableBlock(g, b) ==>
            !InRuns(g.inodeBitmap, g.InodeBitmapBlocks(), b) && !InRuns(g.blockBitmap, g.BlockBitmapBlocks(), b))
      && (InRuns(g.inodeBitmap, g.InodeBitmapBlocks(), b) ==> !InRuns(g.blockBitmap, g.BlockBitmapBlocks(), b))
  }

  ghost predicate Geometric(g: Geometry, size: nat) {
    && Tables(g, size) && InodeMaps(g, size) && BlockMaps(g, size) && MetaApart(g)
    && 2 <= g.inodesCount < U32_LIMIT
  }

  /** The tree and the orphan trees are disjoint, headed, typed and in range; the
      dots of the orphan trees are right but for the tops' second entries. */
  ghost predicate Wooded(g: Geometry, w: Setup, dirs: set<nat>) {
    && ROOT_INO in w.D && w.lf in w.D && w.lf in Nodes(w.F)
    && Unfolds(w.D, Kids(w.D, ROOT_INO), w.F) && Grown(w.D, w.O) && Distinct(Dir(ROOT_INO, w.F, w.O))
    && AllHeaded(w.D) && InRange(Dotted(w), g.inodesCount + 1) && Typed(w.D, dirs, w.files) && w.D.Keys <= dirs
    && OrphanDots(w.D, w.O)
  }

  /** An orphan top's stale `..` names an inode that is no larger, or not live, or a
      directory of the tree, or something the tree's directories name below their dots. */
  ghost predicate StaleMild(D: Dirs, F: Forest, O: Forest, live: set<nat>) {
    O.Nil? || (
      && O.ino in D && Rewritable(D[O.ino])
      && Mild(D, F, live, O.ino, D[O.ino][0][1].ino)
      && StaleMild(D, F, O.rest, live))
  }

  ghost predicate Mild(D: Dirs, F: Forest, live: set<nat>, top: nat, stale: nat) {
    stale <= top || stale !in live || KidNamed(D, F, stale)
  }

  ghost predicate KidNamed(D: Dirs, F: Forest, x: nat) {
    x in Nodes(Whole(F)) || exists n :: n in Nodes(Whole(F)) && Mentions(Kids(D, n), x) > 0
  }

  /** File `x` can be walked, and nothing the passes write holds its pointers. */
  ghost predicate FileSafe(g: Geometry, img: Image, P: Places, X: set<nat>, x: nat)
    requires Tables(g, |img|)
  {
    && g.HasInode(x) && FileSound(InodeAt(g, img, x), img, g.blocksCount + 1)
    && (InodeAt(g, img, x).IsReg() && BlockCount(InodeAt(g, img, x).size) <= DOUBLE_INDIRECT_MAX ==>
          PointersSafe(g, InodeAt(g, img, x), img, P, X))
  }

  ghost predicate PointersSafe(g: Geometry, inode: Inode, img: Image, P: Places, X: set<nat>)
    requires Tables(g, |img|) && |inode.block| == N_BLOCKS && Readable(inode, img, BlockCount(inode.size))
  {
    forall b: nat :: IsPointerBlock(inode, img, BlockCount(inode.size), b) ==>
      !IsDirBlock(P, b) && b !in X && !IsMeta(g, b)
  }

  /** No `char` counter will wrap: the names of each inode in the tree and the orphan
      trees, its own new entry and, for lost+found, one `..` per orphan tree. */
  ghost predicate Modest(c: Case) {
    |c.total| == c.n + 1 && forall x :: 0 <= x <= c.n ==>
      c.total[x] + (if Missing(c, x) then 1 else 0) + (if x == c.lf then TopCount(c.O0) else 0) < 128
  }

  /** Everything is known to be in place for the four passes. */
  ghost predicate Repairable(g: Geometry, img: Image, w: Setup) {
    && Geometric(g, |img|) && World(g, img, w.P, w.D)
    && var c := CaseFor(g, img, w);
    && Wooded(g, w, c.dirs)
    && Sorted(w.O, 1, c.live) && TopsLive(w.O, c.live) && Covered(c, 1, w.F, w.O) && StaleMild(w.D, w.F, w.O, c.live)
    && LostFoundIs(Dotted(w), w.lf) && w.lf in Dotted(w)
    && Modest(c)
    && HasRoom(c, Dotted(w)[w.lf], ToRescue(c, 1))
    && LooseBlocks(c, g, img, w.P, w.X)
    && (forall x :: x in w.files ==> FileSafe(g, img, w.P, w.X, x))
    && (forall n, i :: n in w.P && 0 <= i < |w.P[n]| ==> w.P[n][i] <= g.blocksCount)
  }

  /** The repaired state: one tree, dot entries right, every link count the number of
      names, every verified block's bit set exactly when the tree uses the block. */
  ghost predicate Consistent(g: Geometry, img: Image, P: Places, E: Dirs, H: Forest)
    requires Geometric(g, |img|)
  {
    && World(g, img, P, E)
    && ROOT_INO in E && Unfolds(E, Kids(E, ROOT_INO), H) && Distinct(Whole(H)) && DotsRight(E, ROOT_INO, Whole(H))
    && (forall x :: 1 <= x <= g.inodesCount ==> InodeAt(g, img, x).links == Refs(E, Whole(H), x))
    && (forall y: nat :: HasDiskBit(g, y) && (InTable(g, y) || IsData(g, y)) ==>
          DiskBit(g, img, y) == if InTable(g, y) || y in TreeUsed(g, img, P, E, ROOT_INO, H) then 1 else 0)
  }

  /** Bitmap blocks that agree hold the same bits. */
  lemma AllocatedKept(g: Geometry, a: Image, b: Image, n: nat)
    requires |a| == |b| && InodeMaps(g, |a|) && g.HasInode(n)
    requires forall k :: 0 <= k < |a| && InRuns(g.inodeBitmap, g.InodeBitmapBlocks(), k) ==> a[k] == b[k]
    ensures Allocated(g, a, n) <==> Allocated(g, b, n)
  {
    OwnKept(a, b, g.inodeBitmap, g.inodesPerGroup, g.inodesCount, n);
  }

  lemma LiveKept(g: Geometry, a: Image, b: Image)
    requires |a| == |b| && Tables(g, |a|) && InodeMaps(g, |a|)
    requires forall k :: 0 <= k < |a| && (IsTableBlock(g, k) || InRuns(g.inodeBitmap, g.InodeBitmapBlocks(), k)) ==>
             a[k] == b[k]
    ensures LiveIn(g, a) == LiveIn(g, b) && DirsIn(g, a) == DirsIn(g, b)
    ensures forall n :: g.HasInode(n) ==> InodeAt(g, a, n) == InodeAt(g, b, n)
  {
    forall n | g.HasInode(n)
      ensures InodeAt(g, a, n) == InodeAt(g, b, n) && (Allocated(g, a, n) <==> Allocated(g, b, n))
    {
      TableBlockOnDisk(g, |a|, n);
      SameInode(g, a, b, n);
      AllocatedKept(g, a, b, n);
    }
  }

  lemma TableBlockOnDisk(g: Geometry, size: nat, n: nat)
    requires Tables(g, size) && g.HasInode(n)
    ensures TableBlock(g, n) < size && IsTableBlock(g, TableBlock(g, n))
  {
    TableBlockIsTable(g, n);
    var i := GroupOf(g, n);
    assert g.inodeTable[i] + g.TableBlocks() <= size;
  }

  /** A file whose pointer blocks are untouched occupies the same blocks. */
  lemma FileKept(v: Inode, u: Inode, a: Image, b: Image, n: nat)
    requires |v.block| == N_BLOCKS && u.block == v.block && |a| == |b| && Readable(v, a, n)
    requires n <= INDIRECT_MAX + PER_BLOCK * PER_BLOCK
    requires forall k: nat :: IsPointerBlock(v, a, n, k) ==> k < |a| && a[k] == b[k]
    ensures Readable(u, b, n)
    ensures forall k: nat :: IsPointerBlock(u, b, n, k) <==> IsPointerBlock(v, a, n, k)
    ensures forall k: nat :: k < n ==> DataBlock(u, b, n, k) == DataBlock(v, a, n, k)
    ensures forall k: nat :: Occupies(u, b, n, k) <==> Occupies(v, a, n, k)
  {
    PointersKept(v, u, a, b, n);
    forall k: nat | k < n
      ensures DataBlock(u, b, n, k) == DataBlock(v, a, n, k)
    {
      if k >= INDIRECT_MAX {
        var i := (k - INDIRECT_MAX) / PER_BLOCK;
        assert IsPointerBlock(v, a, n, Pointer(a, v.block[DIND_BLOCK], i));
      } else if k >= NDIR {
        assert IsPointerBlock(v, a, n, v.block[IND_BLOCK]);
      }
    }
  }

  lemma PointersKept(v: Inode, u: Inode, a: Image, b: Image, n: nat)
    requires |v.block| == N_BLOCKS && u.block == v.block && |a| == |b| && Readable(v, a, n)
    requires forall k: nat :: IsPointerBlock(v, a, n, k) ==> k < |a| && a[k] == b[k]
    ensures Readable(u, b, n)
    ensures forall k: nat :: IsPointerBlock(u, b, n, k) <==> IsPointerBlock(v, a, n, k)
  {
    if n > INDIRECT_MAX {
      assert IsPointerBlock(v, a, n, v.block[DIND_BLOCK]);
      assert forall j :: 0 <= j < PER_BLOCK ==>
             Pointer(b, v.block[DIND_BLOCK], j) == Pointer(a, v.block[DIND_BLOCK], j);
    }
  }

  /** Directory blocks are no metadata, so rewriting them keeps all metadata. */
  lemma MetaKept(g: Geometry, a: Image, b: Image, P: Places, X: set<nat>)
    requires Placed(g, a, P) && OnlyDirsOr(P, X, a, b) && (forall k :: k in X ==> !IsMeta(g, k))
    ensures forall k :: 0 <= k < |a| && IsMeta(g, k) ==> a[k] == b[k]
  {
  }

  lemma WholeDistinct(F: Forest, O: Forest)
    requires Distinct(Dir(ROOT_INO, F, O))
    ensures Distinct(Whole(F)) && Nodes(Whole(F)) !! Nodes(O)
  {
    assert Nodes(Whole(F)) == {ROOT_INO} + Nodes(F) + Nodes(Nil);
  }

  /** The decoded directories after pass1. */
  lemma DottedShape(c: Case, g: Geometry, w: Setup)
    requires Wooded(g, w, c.dirs) && c.n == g.inodesCount && c.lf == w.lf && c.files == w.files && 2 <= c.n
    requires forall n :: n in w.D ==> 1 <= n <= c.n
    ensures Shape(c, Dotted(w), w.F, w.O)
  {
    hide Typed, InRange, Distinct, DotsRight, OrphanDots, AllHeaded, Kids, FixTree, HeadRight;
    var D, E, T := w.D, Dotted(w), Whole(w.F);
    WholeDistinct(w.F, w.O);
    UnfoldsKeys(D, Kids(D, ROOT_INO), w.F);
    GrownKeys(D, w.O);
    NodesOfWhole(w.F);
    FixTreeUnfolds(D, ROOT_INO, T, Kids(D, ROOT_INO), w.F);
    FixTreeKeeps(D, ROOT_INO, T, ROOT_INO);
    FixTreeGrown(D, ROOT_INO, T, w.O);
    FixTreeHeaded(D, ROOT_INO, T);
    FixTreeRight(D, ROOT_INO, T);
    RootDots(E, w.F);
    forall n | n in Nodes(w.O)
      ensures n in D && n in E && E[n] == D[n]
    {
      FixTreeKeeps(D, ROOT_INO, T, n);
    }
    OrphanDotsFrame(D, E, w.O);
    DottedTyped(D, w.F, c.dirs, c.files);
  }

  lemma NodesOfWhole(F: Forest)
    ensures Nodes(Whole(F)) == {ROOT_INO} + Nodes(F)
  {
    assert Nodes(Nil) == {};
  }

  lemma RootDots(E: Dirs, F: Forest)
    requires DotsRight(E, ROOT_INO, Whole(F))
    ensures ROOT_INO in E && HeadRight(E[ROOT_INO], ROOT_INO, ROOT_INO) && DotsRight(E, ROOT_INO, F)
  {
  }

  lemma DottedTyped(D: Dirs, F: Forest, dirs: set<nat>, files: set<nat>)
    requires Typed(D, dirs, files)
    ensures Typed(FixTree(D, ROOT_INO, Whole(F)), dirs, files)
  {
    var E := FixTree(D, ROOT_INO, Whole(F));
    forall n | n in E
      ensures ListTyped(Kids(E, n), dirs, files)
    {
      FixTreeKeeps(D, ROOT_INO, Whole(F), n);
      assert ListTyped(Kids(D, n), dirs, files);
    }
  }

  /** What the tree names below its dots, it names after pass1 as well. */
  lemma KidNamedStays(D: Dirs, F: Forest, x: nat)
    requires KidNamed(D, F, x) && ROOT_INO in D && AllHeaded(D) && Distinct(Whole(F)) && Nodes(Whole(F)) <= D.Keys
    ensures Named(FixTree(D, ROOT_INO, Whole(F)), F, x)
  {
    var T := Whole(F);
    var E := FixTree(D, ROOT_INO, T);
    var n: nat;
    if x in Nodes(T) {
      n := x;
      FixTreeRight(D, ROOT_INO, T);
      DotsInside(E, ROOT_INO, T, x);
      assert All(E, x)[0] == E[x][0][0];
      assert Mentions(All(E, x), x) > 0;
    } else {
      n :| n in Nodes(T) && Mentions(Kids(D, n), x) > 0;
      FixTreeKeeps(D, ROOT_INO, T, n);
      KidsMentioned(E, n, x);
    }
    RefsPositive(E, T, x);
  }

  lemma {:induction false} StaleMildStays(D: Dirs, F: Forest, O: Forest, live: set<nat>)
    requires StaleMild(D, F, O, live) && ROOT_INO in D && AllHeaded(D) && Distinct(Whole(F)) &&
             Nodes(Whole(F)) <= D.Keys
    requires Nodes(Whole(F)) !! Nodes(O)
    ensures StaleHarmless(FixTree(D, ROOT_INO, Whole(F)), F, O, live)
  {
    if O.Dir? {
      FixTreeKeeps(D, ROOT_INO, Whole(F), O.ino);
      var s := D[O.ino][0][1].ino;
      if KidNamed(D, F, s) { KidNamedStays(D, F, s); }
      StaleMildStays(D, F, O.rest, live);
    }
  }

  /** After pass1 everything is ready for pass2. */
  lemma AfterPass1(g: Geometry, a: Image, b: Image, w: Setup)
    requires Repairable(g, a, w) && OnlyDirsDiffer(w.P, a, b) && World(g, b, w.P, Dotted(w))
    ensures Fixed(CaseFor(g, a, w), g, b, w.P, w.X) && Ready2(CaseFor(g, a, w))
    ensures CaseFor(g, a, w) == CaseFor(g, b, w)
  {
    hide *;
    RepairableParts(g, a, w);
    CaseKept(g, a, b, w);
    FixedAfter(CaseFor(g, a, w), g, a, b, w);
    ReadyAfter(CaseFor(g, a, w), g, a, w);
  }

  lemma RepairableParts(g: Geometry, a: Image, w: Setup)
    requires Repairable(g, a, w)
    ensures Geometric(g, |a|) && Tables(g, |a|) && InodeMaps(g, |a|) && World(g, a, w.P, w.D) && Placed(g, a, w.P)
  {
  }

  lemma CaseKept(g: Geometry, a: Image, b: Image, w: Setup)
    requires Placed(g, a, w.P) && InodeMaps(g, |a|) && OnlyDirsDiffer(w.P, a, b)
    ensures |a| == |b| && Tables(g, |a|) && CaseFor(g, a, w) == CaseFor(g, b, w)
    ensures forall n :: g.HasInode(n) ==> InodeAt(g, a, n) == InodeAt(g, b, n)
  {
    hide LiveIn, DirsIn, Tables, InodeAt, Refs, Dotted, InodeMaps;
    MetaKept(g, a, b, w.P, {});
    LiveKept(g, a, b);
  }

  lemma FixedAfter(c: Case, g: Geometry, a: Image, b: Image, w: Setup)
    requires Repairable(g, a, w) && |a| == |b| && c == CaseFor(g, a, w) && c == CaseFor(g, b, w)
    requires World(g, b, w.P, Dotted(w))
    requires forall n :: g.HasInode(n) ==> InodeAt(g, a, n) == InodeAt(g, b, n)
    ensures Fixed(c, g, b, w.P, w.X)
  {
    hide Wooded, Shape, HasRoom, Missing, StaleMild, Sorted, TopsLive, Covered, LostFoundIs, FileSafe, LooseBlocks,
         BlockMaps, MetaApart, Refs, ToRescue, AllHeaded, InodeAt, Tables, InodeMaps, LiveIn, DirsIn, Dotted, Shows,
         Apart;
    LooseAsBefore(c, g, a, b, w.P, w.X);
    RootHere(g, a, w);
  }

  lemma RootHere(g: Geometry, a: Image, w: Setup)
    requires Repairable(g, a, w)
    ensures g.HasInode(w.lf)
  {
    InodeNumbers(g, a, w.P, w.D);
  }

  lemma ReadyAfter(c: Case, g: Geometry, a: Image, w: Setup)
    requires Repairable(g, a, w) && c == CaseFor(g, a, w)
    ensures Ready2(c)
  {
    hide Wooded, Shape, HasRoom, Missing, StaleMild, StaleHarmless, Sorted, TopsLive, Covered, LostFoundIs, FileSafe,
         LooseBlocks, BlockMaps, MetaApart, Refs, ToRescue, AllHeaded, InodeAt, Tables, InodeMaps, DirsIn, Placed,
         Shows, Allocated;
    InodeNumbers(g, a, w.P, w.D);
    DottedShape(c, g, w);
    StaleReady(g, w, c.dirs, c.live);
    FilesKnown(c, g, a, w.P, w.X);
  }

  lemma FilesKnown(c: Case, g: Geometry, a: Image, P: Places, X: set<nat>)
    requires Tables(g, |a|) && InodeMaps(g, |a|) && c.n == g.inodesCount && LooseBlocks(c, g, a, P, X) &&
             c.live == LiveIn(g, a)
    ensures forall i :: i in c.live ==> 1 <= i <= c.n
    ensures forall i :: i in c.live && Missing(c, i) && i !in c.dirs ==> i in c.files
  {
    hide Tables, InodeMaps, InodeAt, Missing, LooseBlock, IsMeta;
    LiveBelow(g, a);
  }

  lemma InodeNumbers(g: Geometry, img: Image, P: Places, D: Dirs)
    requires World(g, img, P, D)
    ensures forall n :: n in D ==> 1 <= n <= g.inodesCount
  {
  }

  lemma StaleReady(g: Geometry, w: Setup, dirs: set<nat>, live: set<nat>)
    requires Wooded(g, w, dirs) && StaleMild(w.D, w.F, w.O, live)
    ensures StaleHarmless(Dotted(w), w.F, w.O, live)
  {
    WholeDistinct(w.F, w.O);
    UnfoldsKeys(w.D, Kids(w.D, ROOT_INO), w.F);
    NodesOfWhole(w.F);
    StaleMildStays(w.D, w.F, w.O, live);
  }

  lemma LooseAsBefore(c: Case, g: Geometry, a: Image, b: Image, P: Places, X: set<nat>)
    requires Tables(g, |a|) && |a| == |b| && c.n == g.inodesCount && LooseBlocks(c, g, a, P, X)
    requires forall n :: g.HasInode(n) ==> InodeAt(g, a, n) == InodeAt(g, b, n)
    ensures LooseBlocks(c, g, b, P, X)
  {
  }

  /** Images that differ in directory blocks, loose blocks, metadata blocks and
      link counts only. */
  ghost predicate Beside(g: Geometry, P: Places, X: set<nat>, a: Image, b: Image) {
    && |a| == |b| && Tables(g, |a|)
    && (forall k :: 0 <= k < |a| && !IsDirBlock(P, k) && k !in X && !IsMeta(g, k) ==> a[k] == b[k])
    && (forall n :: g.HasInode(n) ==> InodeAt(g, b, n) == InodeAt(g, a, n).(links := InodeAt(g, b, n).links))
  }

  lemma BesideTrans(g: Geometry, P: Places, X: set<nat>, a: Image, b: Image, c: Image)
    requires Beside(g, P, X, a, b) && Beside(g, P, X, b, c)
    ensures Beside(g, P, X, a, c)
  {
    hide InodeAt, Tables, IsDirBlock, IsMeta;
  }

  /** A safe file occupies the same blocks on both images, and stays safe. */
  lemma SafeKept(g: Geometry, P: Places, X: set<nat>, a: Image, b: Image, x: nat)
    requires Beside(g, P, X, a, b) && FileSafe(g, a, P, X, x)
    ensures FileSafe(g, b, P, X, x) && FileUsed(g, b, x) == FileUsed(g, a, x)
  {
    hide Tables, IsDirBlock, IsMeta, InodeAt;
    var v, u := InodeAt(g, a, x), InodeAt(g, b, x);
    var n := BlockCount(v.size);
    assert u.block == v.block && u.size == v.size && u.mode == v.mode;
    if v.IsReg() && n <= DOUBLE_INDIRECT_MAX {
      PointersOnDisk(v, a, n);
      FileKept(v, u, a, b, n);
      assert FileMarks(u, b) == FileMarks(v, a);
    }
  }

  lemma PointersOnDisk(v: Inode, a: Image, n: nat)
    requires |v.block| == N_BLOCKS && Readable(v, a, n)
    ensures forall k: nat :: IsPointerBlock(v, a, n, k) ==> k < |a|
  {
  }

  /** The marks depend on the files only. */
  lemma {:induction false} EntriesUsedKept(g: Geometry, a: Image, b: Image, P: Places, D: Dirs, es: seq<Entry>,
                                           f: Forest, dirs: set<nat>, files: set<nat>)
    requires Tables(g, |a|) && |a| == |b| && Unfolds(D, es, f) && Typed(D, dirs, files) && ListTyped(es, dirs, files)
    requires forall x :: x in files ==> FileUsed(g, a, x) == FileUsed(g, b, x)
    ensures EntriesUsed(g, a, P, D, es, f) == EntriesUsed(g, b, P, D, es, f)
    decreases f, |es|
  {
    hide FileUsed, Tables;
    if es != [] {
      var t := es[1..];
      assert ListTyped(t, dirs, files);
      if es[0].IsDir() {
        EntriesUsedKept(g, a, b, P, D, Kids(D, f.ino), f.kids, dirs, files);
        EntriesUsedKept(g, a, b, P, D, t, f.rest, dirs, files);
      } else {
        EntriesUsedKept(g, a, b, P, D, t, f, dirs, files);
        assert FileUsed(g, a, es[0].ino) == FileUsed(g, b, es[0].ino);
      }
    }
  }

  lemma TreeUsedKept(g: Geometry, P: Places, X: set<nat>, a: Image, b: Image, E: Dirs, H: Forest, dirs: set<nat>,
                     files: set<nat>)
    requires Beside(g, P, X, a, b) && ROOT_INO in E && Unfolds(E, Kids(E, ROOT_INO), H) && Typed(E, dirs, files)
    requires forall x :: x in files ==> FileSafe(g, a, P, X, x)
    ensures TreeUsed(g, a, P, E, ROOT_INO, H) == TreeUsed(g, b, P, E, ROOT_INO, H)
    ensures forall x :: x in files ==> FileSafe(g, b, P, X, x)
  {
    hide FileSafe, FileUsed, Tables, InodeAt, IsDirBlock, IsMeta;
    forall x | x in files
      ensures FileSafe(g, b, P, X, x) && FileUsed(g, a, x) == FileUsed(g, b, x)
    {
      SafeKept(g, P, X, a, b, x);
    }
    EntriesUsedKept(g, a, b, P, E, Kids(E, ROOT_INO), H, dirs, files);
  }

  /** Everything the walk of pass4 meets is sound. */
  lemma AllSoundNow(g: Geometry, img: Image, P: Places, X: set<nat>, E: Dirs, H: Forest, dirs: set<nat>,
                    files: set<nat>)
    requires Tables(g, |img|) && Typed(E, dirs, files) && InRange(E, g.inodesCount + 1) && E.Keys <= dirs
    requires dirs == DirsIn(g, img) && (forall x :: x in files ==> FileSafe(g, img, P, X, x))
    requires forall n, i :: n in P && 0 <= i < |P[n]| ==> P[n][i] <= g.blocksCount
    requires ROOT_INO in E && Unfolds(E, Kids(E, ROOT_INO), H)
    ensures AllSound(g, img, P, E, g.blocksCount + 1)
    ensures NodeSound(g, img, E, ROOT_INO, H, true, g.blocksCount + 1)
  {
    hide Tables, InodeAt, FileSound, PointersSafe;
    forall n | n in E
      ensures ListSound(g, img, Kids(E, n), g.blocksCount + 1)
    {
      var es := Kids(E, n);
      assert ListTyped(es, dirs, files);
      forall k | 0 <= k < |es|
        ensures EntrySound(g, img, es[k], g.blocksCount + 1)
      {
        if !es[k].IsDir() { assert FileSafe(g, img, P, X, es[k].ino); }
      }
    }
  }

  lemma BesideDirs(g: Geometry, P: Places, X: set<nat>, a: Image, b: Image)
    requires Placed(g, a, P) && InodeMaps(g, |a|) && OnlyDirsOr(P, X, a, b) && (forall k :: k in X ==> !IsMeta(g, k))
    ensures Beside(g, P, X, a, b)
  {
    hide Tables, InodeAt, LiveIn, DirsIn, InodeMaps;
    MetaKept(g, a, b, P, X);
    LiveKept(g, a, b);
    forall n | g.HasInode(n)
      ensures InodeAt(g, b, n) == InodeAt(g, a, n).(links := InodeAt(g, b, n).links)
    {
      assert InodeAt(g, b, n) == InodeAt(g, a, n);
    }
  }

  lemma BesideLinks(g: Geometry, P: Places, X: set<nat>, a: Image, b: Image, D: Dirs, refs: seq<nat>)
    requires World(g, a, P, D) && Tables(g, |a|) && |a| == |b| && |refs| == g.inodesCount + 1
    requires Midway(g, a, b, refs, g.inodesCount + 1)
    ensures Beside(g, P, X, a, b)
    ensures forall x :: 1 <= x <= g.inodesCount ==> InodeAt(g, b, x).links == StoredLinks(refs[x])
  {
    hide InodeAt, StoredLinks, World, InodeBytes;
    WorldRelinked(g, a, b, P, D, refs);
  }

  lemma BesideBits(g: Geometry, P: Places, X: set<nat>, a: Image, b: Image, D: Dirs)
    requires World(g, a, P, D) && Geometric(g, |a|) && |a| == |b|
    requires forall k :: 0 <= k < |b| && !InRuns(g.blockBitmap, g.BlockBitmapBlocks(), k) ==> b[k] == a[k]
    ensures Beside(g, P, X, a, b) && World(g, b, P, D)
    ensures forall n :: g.HasInode(n) ==> InodeAt(g, b, n) == InodeAt(g, a, n)
  {
    hide InodeAt, LiveIn, DirsIn, InRuns;
    LiveKept(g, a, b);
    forall n, i | n in P && 0 <= i < |P[n]|
      ensures P[n][i] < |b| && b[P[n][i]] == a[P[n][i]] && !IsMeta(g, P[n][i])
    {
      assert !IsMeta(g, P[n][i]);
    }
  }

  /** No inode is named often enough for its counter to wrap. */
  lemma CountsSmall(c: Case, E: Dirs, H: Forest, x: nat)
    requires Modest(c) && AllRescued(c, E, H) && x <= c.n
    ensures Refs(E, Whole(H), x) < 128
  {
    hide Shape, Missing, Refs;
  }

  /** The setup after a run. */
  ghost function Next(w: Setup, E: Dirs, H: Forest): Setup {
    Setup(w.P, E, H, Nil, w.lf, {}, w.files)
  }

  /** Inode table blocks that pass4 verifies as data blocks as well, should there be
      any, are used by the tree; otherwise its two loops disagree about their bits. */
  ghost predicate TablesAgree(g: Geometry, U: iset<nat>)
    requires g.blocksPerGroup > 0 && g.BlockGroups() <= |g.inodeTable|
  {
    forall y: nat :: HasDiskBit(g, y) && InTable(g, y) && IsData(g, y) ==> y in U
  }

  /** Every inode table block lies in the part of its group that pass4's first loop skips. */
  ghost predicate TablesSkipped(g: Geometry)
    requires g.blocksPerGroup > 0 && g.BlockGroups() <= |g.inodeTable|
  {
    forall y: nat :: InTable(g, y) ==> (y - 1) % g.blocksPerGroup < g.Skip()
  }

  lemma SkippedAgree(g: Geometry, U: iset<nat>)
    requires g.blocksPerGroup > 0 && g.BlockGroups() <= |g.inodeTable| && TablesSkipped(g)
    ensures TablesAgree(g, U)
  {
  }

  /** Tables that no file or directory uses must be skipped for the loops to agree. */
  lemma AgreeOnlySkipped(g: Geometry, size: nat, U: iset<nat>)
    requires BlockMaps(g, size) && TablesAgree(g, U) && forall y: nat :: InTable(g, y) ==> y !in U
    ensures TablesSkipped(g)
  {
    hide Geometry.Skip;
    forall y: nat | InTable(g, y)
      ensures (y - 1) % g.blocksPerGroup < g.Skip()
    {
      Covers(g.blocksCount, g.blocksPerGroup, g.BlockBitmapBlocks(), g.BlockGroups(), y);
      assert HasDiskBit(g, y);
    }
  }

  /** No directory and no file has a block inside an inode table. */
  ghost predicate TablesFree(g: Geometry, img: Image, P: Places, files: set<nat>)
    requires Tables(g, |img|) && g.blocksPerGroup > 0 && g.BlockGroups() <= |g.inodeTable|
  {
    && (forall n, i :: n in P && 0 <= i < |P[n]| ==> !InTable(g, P[n][i]))
    && (forall x, y: nat :: x in files && y in FileUsed(g, img, x) ==> !InTable(g, y))
  }

  lemma HasGroups(g: Geometry, size: nat)
    requires Geometric(g, size)
    ensures g.blocksPerGroup > 0 && g.BlockGroups() <= |g.inodeTable|
  {
  }

  /** Then the tree does not use the tables either. */
  lemma TreeAvoidsTables(g: Geometry, a: Image, b: Image, w: Setup, E: Dirs, H: Forest)
    requires Geometric(g, |b|) && Repaired(g, a, b, w, E, H) && Tables(g, |a|) && TablesFree(g, a, w.P, w.files)
    ensures forall y: nat :: InTable(g, y) ==> y !in TreeUsed(g, b, w.P, E, ROOT_INO, H)
  {
    hide *;
    HasGroups(g, |b|);
    RepairedParts(g, a, b, w, E, H);
    RepairableRest(g, a, w);
    ShapeTree(CaseFor(g, a, w), E, H);
    forall x | x in w.files
      ensures FileUsed(g, b, x) == FileUsed(g, a, x)
    {
      SafeKept(g, w.P, w.X, a, b, x);
    }
    forall y: nat | y in TreeUsed(g, b, w.P, E, ROOT_INO, H)
      ensures !InTable(g, y)
    {
      TreeUsedIff(g, b, w.P, E, ROOT_INO, H, y);
      UsesFree(g, a, b, w.P, E, Nodes(Dir(ROOT_INO, H, Nil)), y, CaseFor(g, a, w).dirs, w.files);
    }
  }

  lemma UsesFree(g: Geometry, a: Image, b: Image, P: Places, E: Dirs, nodes: set<nat>, y: nat, dirs: set<nat>,
                 files: set<nat>)
    requires Tables(g, |a|) && |b| == |a| && g.blocksPerGroup > 0 && g.BlockGroups() <= |g.inodeTable|
    requires TablesFree(g, a, P, files) && Typed(E, dirs, files) && Uses(g, b, P, E, nodes, y)
    requires forall x :: x in files ==> FileUsed(g, b, x) == FileUsed(g, a, x)
    ensures !InTable(g, y)
  {
    hide Tables, InTable, FileUsed, Kids;
    var n :| n in nodes && UsedBy(g, b, P, E, n, y);
    if y !in BlocksOf(P, n) {
      var e :| e in Kids(E, n) && !e.IsDir() && y in FileUsed(g, b, e.ino);
      KidIsFile(E, n, e, dirs, files);
    }
  }

  lemma KidIsFile(E: Dirs, n: nat, e: Entry, dirs: set<nat>, files: set<nat>)
    requires Typed(E, dirs, files) && e in Kids(E, n) && !e.IsDir()
    ensures e.ino in files
  {
    assert n in E;
    assert ListTyped(Kids(E, n), dirs, files);
  }

  /** Nothing for the first three passes to do. */
  ghost predicate Tidy(g: Geometry, img: Image, w: Setup)
    requires Tables(g, |img|) && InodeMaps(g, |img|)
  {
    && w.O == Nil && DotsRight(w.D, ROOT_INO, Whole(w.F))
    && ToRescue(CaseFor(g, img, w), 1) == []
    && (forall x :: 1 <= x <= g.inodesCount ==> InodeAt(g, img, x).links == Refs(w.D, Whole(w.F), x))
  }

  /** Nothing for pass4 to do. */
  ghost predicate BitsClean(g: Geometry, img: Image, w: Setup)
    requires Tables(g, |img|) && BlockMaps(g, |img|)
  {
    BitsRight(g, img, TreeUsed(g, img, w.P, w.D, ROOT_INO, w.F))
  }

  /** The links part of the final state. */
  ghost predicate Linked(g: Geometry, img: Image, E: Dirs, H: Forest)
    requires Tables(g, |img|)
  {
    forall x :: 1 <= x <= g.inodesCount ==> InodeAt(g, img, x).links == Refs(E, Whole(H), x)
  }

  lemma NowLinked(g: Geometry, a: Image, b: Image, w: Setup, E: Dirs, H: Forest, refs: seq<nat>)
    requires Repairable(g, a, w) && AllRescued(CaseFor(g, a, w), E, H)
    requires |refs| == g.inodesCount + 1 && (forall x :: 0 <= x < |refs| ==> refs[x] == Refs(E, Whole(H), x))
    requires Tables(g, |b|) && forall x :: 1 <= x <= g.inodesCount ==> InodeAt(g, b, x).links == StoredLinks(refs[x])
    ensures Linked(g, b, E, H)
  {
    hide InodeAt, Tables, AllRescued, StoredLinks, Refs, World, Wooded, LooseBlocks, HasRoom, FileSafe, Modest;
    forall x | 1 <= x <= g.inodesCount
      ensures InodeAt(g, b, x).links == Refs(E, Whole(H), x)
    {
      CountsSmall(CaseFor(g, a, w), E, H, x);
      StoredExact(refs[x]);
    }
  }

  /** The bits part of the final state. */
  ghost predicate Mapped(g: Geometry, img: Image, U: iset<nat>)
    requires BlockMaps(g, |img|)
  {
    forall y: nat :: HasDiskBit(g, y) && (InTable(g, y) || IsData(g, y)) ==>
      DiskBit(g, img, y) == if InTable(g, y) || y in U then 1 else 0
  }

  lemma NowMapped(g: Geometry, a: Image, b: Image, U: iset<nat>)
    requires BlockMaps(g, |a|) && |a| == |b| && BitsFixed(g, a, b, U)
    ensures Mapped(g, b, U)
    ensures BitsRight(g, b, U) <==> TablesAgree(g, U)
  {
    hide DiskBit, InTable, IsData, BlockMaps;
  }

  /** The inode bitmaps hold the same bytes. */
  ghost predicate SameMap(g: Geometry, a: Image, b: Image) {
    |a| == |b| && forall k :: 0 <= k < |a| && InRuns(g.inodeBitmap, g.InodeBitmapBlocks(), k) ==> a[k] == b[k]
  }

  /** What was live on `a` is named, and live on `b` as well. */
  ghost predicate Saved(g: Geometry, a: Image, b: Image, E: Dirs, H: Forest)
    requires Tables(g, |a|) && InodeMaps(g, |a|) && |b| == |a|
  {
    forall x :: x in LiveIn(g, a) ==> Named(E, H, x) && x in LiveIn(g, b)
  }

  /** What the four passes establish, put together. */
  ghost predicate Repaired(g: Geometry, a: Image, b: Image, w: Setup, E: Dirs, H: Forest)
    requires Geometric(g, |b|)
  {
    && Repairable(g, a, w) && |a| == |b| && Beside(g, w.P, w.X, a, b) && World(g, b, w.P, E)
    && AllRescued(CaseFor(g, a, w), E, H) && CaseFor(g, a, w).n == g.inodesCount
    && LooseRight(CaseFor(g, a, w), g, a, b, w.P) && SameMap(g, a, b)
    && Linked(g, b, E, H)
    && Mapped(g, b, TreeUsed(g, b, w.P, E, ROOT_INO, H))
    && (BitsRight(g, b, TreeUsed(g, b, w.P, E, ROOT_INO, H)) <==> TablesAgree(g, TreeUsed(g, b, w.P, E, ROOT_INO, H)))
  }

  lemma RepairedIsConsistent(g: Geometry, a: Image, b: Image, w: Setup, E: Dirs, H: Forest)
    requires Geometric(g, |b|) && Repaired(g, a, b, w, E, H)
    ensures Consistent(g, b, w.P, E, H)
  {
    hide Repairable, Beside, World, InodeAt, TreeUsed, DiskBit, Refs, BlockMaps, MetaApart, InodeMaps, Tables,
         InTable, IsData, LiveIn, Named, Shape, BitsRight, TablesAgree;
    ShapeTree(CaseFor(g, a, w), E, H);
  }

  lemma LiveNamed(g: Geometry, img: Image, E: Dirs, H: Forest)
    requires Tables(g, |img|) && InodeMaps(g, |img|) && Linked(g, img, E, H)
    ensures forall x :: x in LiveIn(g, img) ==> Named(E, H, x)
  {
    hide Tables, InodeMaps, InodeAt, Refs;
  }

  /** Nothing that was live before the run has been lost. */
  lemma LiveSaved(g: Geometry, a: Image, b: Image, w: Setup, E: Dirs, H: Forest)
    requires Geometric(g, |b|) && Repaired(g, a, b, w, E, H)
    ensures Tables(g, |a|) && InodeMaps(g, |a|) && |a| == |b| && Saved(g, a, b, E, H)
  {
    hide *;
    RepairedParts(g, a, b, w, E, H);
    RescuedLive(CaseFor(g, a, w), E, H);
    CaseLive(g, a, w);
    LiveBelow(g, a);
    NamedLive(g, a, b, E, H);
  }

  lemma RescuedLive(c: Case, E: Dirs, H: Forest)
    requires AllRescued(c, E, H)
    ensures forall x :: x in c.live ==> Named(E, H, x)
  {
    hide Shape, Missing, Refs;
  }

  lemma CaseLive(g: Geometry, a: Image, w: Setup)
    requires Tables(g, |a|) && InodeMaps(g, |a|)
    ensures CaseFor(g, a, w).live == LiveIn(g, a)
  {
    hide Tables, InodeMaps, Dotted, Refs, LiveIn, DirsIn;
  }

  lemma NamedLive(g: Geometry, a: Image, b: Image, E: Dirs, H: Forest)
    requires Tables(g, |a|) && InodeMaps(g, |a|) && SameMap(g, a, b) && Linked(g, b, E, H)
    requires forall x :: x in LiveIn(g, a) ==> 1 <= x <= g.inodesCount && Named(E, H, x)
    ensures Saved(g, a, b, E, H)
  {
    hide Tables, InodeMaps, InodeAt, Refs, Allocated;
    forall x | x in LiveIn(g, a)
      ensures x in LiveIn(g, b)
    {
      AllocatedKept(g, a, b, x);
    }
  }

  lemma ShapeTree(c: Case, E: Dirs, H: Forest)
    requires Shape(c, E, H, Nil)
    ensures ROOT_INO in E && Unfolds(E, Kids(E, ROOT_INO), H) && Distinct(Whole(H)) && DotsRight(E, ROOT_INO, Whole(H))
    ensures AllHeaded(E) && InRange(E, c.n + 1) && Typed(E, c.dirs, c.files) && E.Keys <= c.dirs
  {
    assert DotsRight(E, ROOT_INO, Nil);
  }

  /** What pass1 asks for. */
  lemma Pass1Ready(g: Geometry, img: Image, w: Setup)
    requires Repairable(g, img, w)
    ensures World(g, img, w.P, w.D) && AllHeaded(w.D) && ROOT_INO in w.D && Unfolds(w.D, Kids(w.D, ROOT_INO), w.F)
    ensures Distinct(w.F) && ROOT_INO !in Nodes(w.F) && 0 < ROOT_INO < U32_LIMIT && g.inodesCount < U32_LIMIT
    ensures Geometric(g, |img|) && Tables(g, |img|) && InodeMaps(g, |img|)
    ensures Dotted(w) == FixTree(w.D, ROOT_INO, Dir(ROOT_INO, w.F, Nil))
    ensures Tidy(g, img, w) ==> Calm(w.D, ROOT_INO, ROOT_INO, w.F)
  {
    hide World, LooseBlocks, HasRoom, FileSafe, MetaApart, BlockMaps, InodeMaps, Tables, FixTree, StaleMild, Modest,
         ToRescue, BitsRight, Sorted, TopsLive, Covered, LostFoundIs, Refs, Missing, InRange, Typed, OrphanDots,
         Grown, InodeAt;
  }

  /** What pass3 and pass4 ask for. */
  lemma Pass34Ready(g: Geometry, a: Image, b: Image, w: Setup, E: Dirs, H: Forest)
    requires Repairable(g, a, w) && Beside(g, w.P, w.X, a, b) && AllRescued(CaseFor(g, a, w), E, H)
    ensures Tables(g, |b|) && BlockMaps(g, |b|) && Geometric(g, |b|)
    ensures ROOT_INO in E && Unfolds(E, Kids(E, ROOT_INO), H) && InRange(E, g.inodesCount + 1)
    ensures AllSound(g, b, w.P, E, g.blocksCount + 1) && NodeSound(g, b, E, ROOT_INO, H, true, g.blocksCount + 1)
    ensures forall x :: x in w.files ==> FileSafe(g, b, w.P, w.X, x)
    ensures DirsIn(g, b) == DirsIn(g, a)
  {
    hide *;
    RepairableRest(g, a, w);
    var c := CaseFor(g, a, w);
    BesideSize(g, w.P, w.X, a, b);
    RescuedShape(c, E, H);
    ShapeTree(c, E, H);
    SameDirs(g, w.P, w.X, a, b);
    forall x | x in w.files
      ensures FileSafe(g, b, w.P, w.X, x)
    {
      SafeKept(g, w.P, w.X, a, b, x);
    }
    AllSoundNow(g, b, w.P, w.X, E, H, c.dirs, w.files);
  }

  lemma RepairableRest(g: Geometry, a: Image, w: Setup)
    requires Repairable(g, a, w)
    ensures Geometric(g, |a|) && Tables(g, |a|) && InodeMaps(g, |a|) && BlockMaps(g, |a|)
    ensures CaseFor(g, a, w).dirs == DirsIn(g, a) && CaseFor(g, a, w).files == w.files &&
            CaseFor(g, a, w).n == g.inodesCount
    ensures forall x :: x in w.files ==> FileSafe(g, a, w.P, w.X, x)
    ensures forall n, i :: n in w.P && 0 <= i < |w.P[n]| ==> w.P[n][i] <= g.blocksCount
  {
    hide World, LooseBlocks, HasRoom, FileSafe, MetaApart, FixTree, StaleMild, Modest, Wooded, Sorted, TopsLive,
         Covered, Refs;
  }

  lemma RescuedShape(c: Case, E: Dirs, H: Forest)
    requires AllRescued(c, E, H)
    ensures Shape(c, E, H, Nil)
  {
  }

  lemma SameDirs(g: Geometry, P: Places, X: set<nat>, a: Image, b: Image)
    requires Beside(g, P, X, a, b)
    ensures Tables(g, |b|) && DirsIn(g, b) == DirsIn(g, a)
  {
    hide InodeAt, Tables;
    forall n | 1 <= n <= g.inodesCount
      ensures InodeAt(g, b, n).IsDir() == InodeAt(g, a, n).IsDir()
    {
      assert g.HasInode(n);
    }
  }

  /** The final state, from what each pass ensures. */
  lemma Assemble(g: Geometry, a: Image, m: Image, l: Image, b: Image, w: Setup, E: Dirs, H: Forest, refs: seq<nat>)
    requires |l| == |m| && |b| == |l| && |refs| == g.inodesCount + 1 && Tables(g, |m|) && BlockMaps(g, |l|)
    requires forall x :: 0 <= x < |refs| ==> refs[x] == Refs(E, Whole(H), x)
    requires Midway(g, m, l, refs, g.inodesCount + 1) && BitsFixed(g, l, b, TreeUsed(g, l, w.P, E, ROOT_INO, H))
    requires forall k :: 0 <= k < |b| && !InRuns(g.blockBitmap, g.BlockBitmapBlocks(), k) ==> b[k] == l[k]
    requires World(g, m, w.P, E) && World(g, l, w.P, E)
    requires Repairable(g, a, w) && Beside(g, w.P, w.X, a, m) && AllRescued(CaseFor(g, a, w), E, H)
    requires CaseFor(g, a, w).n == g.inodesCount && LooseRight(CaseFor(g, a, w), g, a, m, w.P) && SameMap(g, a, m)
    ensures Geometric(g, |b|) && Repaired(g, a, b, w, E, H)
  {
    hide *;
    RepairableParts(g, a, w);
    BesideSize(g, w.P, w.X, a, m);
    BesideLinks(g, w.P, w.X, m, l, E, refs);
    BesideTrans(g, w.P, w.X, a, m, l);
    Pass34Ready(g, a, l, w, E, H);
    BesideBits(g, w.P, w.X, l, b, E);
    BesideTrans(g, w.P, w.X, a, l, b);
    UsedKept(g, w, a, l, b, E, H);
    StillStored(g, l, b, refs);
    NowLinked(g, a, b, w, E, H, refs);
    NowMapped(g, l, b, TreeUsed(g, l, w.P, E, ROOT_INO, H));
    MetaOnly(g, m, l, b, refs);
    LooseStays(CaseFor(g, a, w), g, a, m, b, w.P);
    MapStays(g, a, m, l, b, refs);
    MakeRepaired(g, a, b, w, E, H);
  }

  lemma BesideSize(g: Geometry, P: Places, X: set<nat>, a: Image, b: Image)
    requires Beside(g, P, X, a, b)
    ensures |a| == |b| && Tables(g, |a|)
  {
  }

  lemma StillStored(g: Geometry, l: Image, b: Image, refs: seq<nat>)
    requires Tables(g, |l|) && |b| == |l| && |refs| == g.inodesCount + 1
    requires forall n :: g.HasInode(n) ==> InodeAt(g, b, n) == InodeAt(g, l, n)
    requires forall x :: 1 <= x <= g.inodesCount ==> InodeAt(g, l, x).links == StoredLinks(refs[x])
    ensures forall x :: 1 <= x <= g.inodesCount ==> InodeAt(g, b, x).links == StoredLinks(refs[x])
  {
    hide InodeAt, StoredLinks;
    forall x | 1 <= x <= g.inodesCount
      ensures InodeAt(g, b, x).links == StoredLinks(refs[x])
    {
      assert g.HasInode(x);
    }
  }

  lemma UsedKept(g: Geometry, w: Setup, a: Image, l: Image, b: Image, E: Dirs, H: Forest)
    requires Repairable(g, a, w) && Beside(g, w.P, w.X, a, l) && Beside(g, w.P, w.X, l, b)
    requires AllRescued(CaseFor(g, a, w), E, H)
    ensures Tables(g, |l|) && Tables(g, |b|)
    ensures TreeUsed(g, l, w.P, E, ROOT_INO, H) == TreeUsed(g, b, w.P, E, ROOT_INO, H)
  {
    hide Shape, Repairable, World, InodeAt, Tables, TreeUsed, FileSafe, Missing, Typed, Unfolds;
    Pass34Ready(g, a, l, w, E, H);
    ShapeTree(CaseFor(g, a, w), E, H);
    TreeUsedKept(g, w.P, w.X, l, b, E, H, CaseFor(g, a, w).dirs, w.files);
  }

  lemma MakeRepaired(g: Geometry, a: Image, b: Image, w: Setup, E: Dirs, H: Forest)
    requires Geometric(g, |b|) && Repairable(g, a, w) && |a| == |b| && Beside(g, w.P, w.X, a, b) && World(g, b, w.P, E)
    requires AllRescued(CaseFor(g, a, w), E, H) && Linked(g, b, E, H) && CaseFor(g, a, w).n == g.inodesCount
    requires LooseRight(CaseFor(g, a, w), g, a, b, w.P) && SameMap(g, a, b)
    requires Mapped(g, b, TreeUsed(g, b, w.P, E, ROOT_INO, H))
    requires BitsRight(g, b, TreeUsed(g, b, w.P, E, ROOT_INO, H)) <==>
             TablesAgree(g, TreeUsed(g, b, w.P, E, ROOT_INO, H))
    ensures Repaired(g, a, b, w, E, H)
  {
  }

  /** A directory inode that the tree names is a directory of the tree. */
  lemma NamedDirIsNode(c: Case, D: Dirs, F: Forest, x: nat)
    requires Shape(c, D, F, Nil) && x in c.dirs && Named(D, F, x)
    ensures x in Nodes(Whole(F))
  {
    var W := Whole(F);
    NodesOfWhole(F);
    RefsPositive(D, W, x);
    var m :| m in Nodes(W) && Mentions(All(D, m), x) > 0;
    NamesPositive(All(D, m), x);
    var e :| e in All(D, m) && e.ino == x;
    EntryStaysInside(c, D, F, m, e);
  }

  lemma EntryStaysInside(c: Case, D: Dirs, F: Forest, m: nat, e: Entry)
    requires Shape(c, D, F, Nil) && m in Nodes(Whole(F)) && e in All(D, m) && e.ino in c.dirs
    ensures e.ino in Nodes(Whole(F))
  {
    var W := Whole(F);
    NodesOfWhole(F);
    UnfoldsKeys(D, Kids(D, ROOT_INO), F);
    assert Headed(D[m]);
    FlatHeads(D[m], e);
    if e in Kids(D, m) {
      assert ListTyped(Kids(D, m), c.dirs, c.files);
      GrownWhole(D, F);
      GrownClosed(D, W, m, e);
    } else if m != ROOT_INO {
      DotsInside(D, ROOT_INO, F, m);
    }
  }

  lemma {:induction false} NothingMissing(c: Case, k: nat)
    requires forall i :: k <= i <= c.n ==> !Missing(c, i)
    ensures ToRescue(c, k) == []
    decreases c.n + 1 - k
  {
    if k <= c.n { NothingMissing(c, k + 1); }
  }

  /** The case of the second run: no orphan trees and nothing missing. */
  ghost predicate Settled(c: Case, dirs: set<nat>, live: set<nat>, files: set<nat>, n: nat, lf: nat, E: Dirs,
                          H: Forest) {
    && c.dirs == dirs && c.live == live && c.files == files && c.n == n && c.lf == lf && c.O0 == Nil && c.D0 == E &&
       c.F0 == H
    && |c.total| == c.n + 1 && (forall x :: 0 <= x <= c.n ==> c.total[x] == Refs(E, Whole(H), x))
    && (forall i :: 1 <= i <= c.n ==> !Missing(c, i))
  }

  lemma RepairedParts(g: Geometry, a: Image, b: Image, w: Setup, E: Dirs, H: Forest)
    requires Geometric(g, |b|) && Repaired(g, a, b, w, E, H)
    ensures Tables(g, |a|) && Tables(g, |b|) && InodeMaps(g, |a|)
    ensures Repairable(g, a, w) && AllRescued(CaseFor(g, a, w), E, H)
    ensures Beside(g, w.P, w.X, a, b) && Linked(g, b, E, H) && World(g, b, w.P, E) &&
            CaseFor(g, a, w).n == g.inodesCount && |a| == |b|
    ensures Shape(CaseFor(g, a, w), E, H, Nil) && SameMap(g, a, b)
  {
    hide Repairable, Beside, World, InodeAt, TreeUsed, DiskBit, Refs, Shape, Mapped, BitsRight, Linked, TablesAgree,
         Dotted, LiveIn, DirsIn;
  }

  lemma NextCase(g: Geometry, a: Image, b: Image, w: Setup, E: Dirs, H: Forest)
    requires Geometric(g, |b|) && Repaired(g, a, b, w, E, H)
    ensures Dotted(Next(w, E, H)) == E && Tables(g, |a|) && Tables(g, |b|) && InodeMaps(g, |b|)
    ensures Settled(CaseFor(g, b, Next(w, E, H)), DirsIn(g, a), LiveIn(g, b), w.files, g.inodesCount, w.lf, E, H)
  {
    hide *;
    RepairedParts(g, a, b, w, E, H);
    ShapeTree(CaseFor(g, a, w), E, H);
    SameDirs(g, w.P, w.X, a, b);
    LiveNamed(g, b, E, H);
    NextDots(w, E, H);
    ModestCase(g, a, w);
    forall x | 0 <= x <= g.inodesCount
      ensures Refs(E, Whole(H), x) < 128
    {
      CountsSmall(CaseFor(g, a, w), E, H, x);
    }
    NextSettled(g, b, w, E, H);
  }

  lemma NextDots(w: Setup, E: Dirs, H: Forest)
    requires ROOT_INO in E && DotsRight(E, ROOT_INO, Whole(H))
    ensures Dotted(Next(w, E, H)) == E
  {
    FixTreeIdle(E, ROOT_INO, Whole(H));
  }

  lemma NextSettled(g: Geometry, b: Image, w: Setup, E: Dirs, H: Forest)
    requires Tables(g, |b|) && InodeMaps(g, |b|) && Dotted(Next(w, E, H)) == E
    requires forall x :: x in LiveIn(g, b) ==> Named(E, H, x)
    requires forall x :: 0 <= x <= g.inodesCount ==> Refs(E, Whole(H), x) < 128
    ensures Settled(CaseFor(g, b, Next(w, E, H)), DirsIn(g, b), LiveIn(g, b), w.files, g.inodesCount, w.lf, E, H)
  {
    var c := CaseFor(g, b, Next(w, E, H));
    LiveBelow(g, b);
    hide Tables, InodeMaps, InodeAt, LiveIn, DirsIn, Refs, Missing, Dotted;
    forall i | 1 <= i <= c.n
      ensures !Missing(c, i)
    {
      QuietRounds(c, i);
    }
  }

  lemma LiveBelow(g: Geometry, b: Image)
    requires Tables(g, |b|) && InodeMaps(g, |b|)
    ensures forall x :: x in LiveIn(g, b) ==> 1 <= x <= g.inodesCount
  {
    hide Tables, InodeMaps, InodeAt, Allocated;
  }

  /** Where the tree names every live inode, less than 256 times, no round rescues anything. */
  lemma {:induction false} QuietRounds(c: Case, i: nat)
    requires forall x :: x in c.live ==> x <= c.n && 0 < Refs(c.D0, Whole(c.F0), x) < 256
    ensures RoundAt(c, i) == Start(c) && !Missing(c, i)
  {
    if i > 1 { QuietRounds(c, i - 1); }
  }

  lemma NextTree(g: Geometry, a: Image, b: Image, w: Setup, E: Dirs, H: Forest)
    requires Geometric(g, |b|) && Repaired(g, a, b, w, E, H)
    ensures Wooded(g, Next(w, E, H), DirsIn(g, b))
    ensures Covered(CaseFor(g, b, Next(w, E, H)), 1, H, Nil)
    ensures forall live :: Sorted(Nil, 1, live) && StaleMild(E, H, Nil, live) && TopsLive(Nil, live)
  {
    hide Repairable, Beside, World, InodeAt, TreeUsed, DiskBit, BlockMaps, MetaApart, InTable, IsData, BitsRight,
         Mapped, LiveIn, Named, TablesAgree, FixTree, Refs, Tables, InodeMaps, DirsIn, Missing, Unfolds, Typed,
         InRange, AllHeaded, DotsRight;
    NextCase(g, a, b, w, E, H);
    SameDirs(g, w.P, w.X, a, b);
    LiveNamed(g, b, E, H);
    var c := CaseFor(g, a, w);
    forall x | x in LiveIn(g, b) && x in c.dirs
      ensures x in Nodes(Whole(H))
    {
      NamedDirIsNode(c, E, H, x);
    }
  }

  lemma NextModest(g: Geometry, a: Image, b: Image, w: Setup, E: Dirs, H: Forest)
    requires Geometric(g, |b|) && Repaired(g, a, b, w, E, H)
    ensures Modest(CaseFor(g, b, Next(w, E, H)))
  {
    hide Beside, World, InodeAt, TreeUsed, DiskBit, BlockMaps, MetaApart, InTable, IsData, BitsRight, Mapped, Linked,
         LiveIn, Named, TablesAgree, FixTree, Refs, Tables, InodeMaps, DirsIn, Missing, Shape, Wooded, FileSafe,
         HasRoom, LooseBlocks;
    NextCase(g, a, b, w, E, H);
    var c, c' := CaseFor(g, a, w), CaseFor(g, b, Next(w, E, H));
    assert Missing(c', 0) == false by { NotLiveNotMissing(g, b, c', 0); }
    forall x | 0 <= x <= c'.n
      ensures c'.total[x] + (if Missing(c', x) then 1 else 0) + (if x == c'.lf then TopCount(c'.O0) else 0) < 128
    {
      CountsSmall(c, E, H, x);
    }
  }

  lemma NotLiveNotMissing(g: Geometry, b: Image, c: Case, x: nat)
    requires Tables(g, |b|) && InodeMaps(g, |b|) && c.live == LiveIn(g, b) && x == 0
    ensures !Missing(c, x)
  {
  }

  ghost predicate FilesSafe(g: Geometry, img: Image, P: Places, X: set<nat>, files: set<nat>)
    requires Tables(g, |img|)
  {
    forall x :: x in files ==> FileSafe(g, img, P, X, x)
  }

  lemma NextFiles(g: Geometry, a: Image, b: Image, w: Setup)
    requires Beside(g, w.P, w.X, a, b) && Repairable(g, a, w)
    ensures Tables(g, |b|) && FilesSafe(g, b, w.P, {}, w.files)
    ensures forall n, i :: n in w.P && 0 <= i < |w.P[n]| ==> w.P[n][i] <= g.blocksCount
  {
    hide Repairable, Beside, World, InodeAt, TreeUsed, DiskBit, BlockMaps, MetaApart, InTable, IsData, BitsRight,
         Mapped, Linked, LiveIn, Named, TablesAgree, FixTree, Refs, Tables, InodeMaps, DirsIn, Missing, Shape,
         FileSafe, AllRescued;
    RepairableRest(g, a, w);
    BesideSize(g, w.P, w.X, a, b);
    forall x | x in w.files
      ensures FileSafe(g, b, w.P, {}, x)
    {
      SafeKept(g, w.P, w.X, a, b, x);
      SaferFile(g, b, w.P, w.X, x);
    }
  }

  lemma SaferFile(g: Geometry, b: Image, P: Places, X: set<nat>, x: nat)
    requires Tables(g, |b|) && FileSafe(g, b, P, X, x)
    ensures FileSafe(g, b, P, {}, x)
  {
    hide Tables, InodeAt, IsDirBlock, IsMeta;
  }

  lemma NextRoot(g: Geometry, a: Image, w: Setup, E: Dirs, H: Forest)
    requires Repairable(g, a, w) && AllRescued(CaseFor(g, a, w), E, H)
    ensures LostFoundIs(E, w.lf) && w.lf in E
  {
    hide World, Wooded, LooseBlocks, HasRoom, FileSafe, MetaApart, BlockMaps, InodeMaps, Tables, StaleMild, Modest,
         Refs, Missing, Shape;
  }

  lemma NextLoose(c: Case, g: Geometry, b: Image, P: Places)
    requires Tables(g, |b|) && c.n == g.inodesCount && forall i :: 1 <= i <= c.n ==> !Missing(c, i)
    ensures LooseBlocks(c, g, b, P, {})
  {
  }

  lemma MakeRepairable(g: Geometry, b: Image, w: Setup)
    requires Geometric(g, |b|) && World(g, b, w.P, w.D) && Tables(g, |b|) && InodeMaps(g, |b|)
    requires Wooded(g, w, CaseFor(g, b, w).dirs)
    requires Sorted(w.O, 1, CaseFor(g, b, w).live) && TopsLive(w.O, CaseFor(g, b, w).live)
    requires Covered(CaseFor(g, b, w), 1, w.F, w.O) && StaleMild(w.D, w.F, w.O, CaseFor(g, b, w).live)
    requires LostFoundIs(Dotted(w), w.lf) && w.lf in Dotted(w) && Modest(CaseFor(g, b, w))
    requires HasRoom(CaseFor(g, b, w), Dotted(w)[w.lf], ToRescue(CaseFor(g, b, w), 1))
    requires CaseFor(g, b, w).n == g.inodesCount && LooseBlocks(CaseFor(g, b, w), g, b, w.P, w.X)
    requires forall x :: x in w.files ==> FileSafe(g, b, w.P, w.X, x)
    requires forall n, i :: n in w.P && 0 <= i < |w.P[n]| ==> w.P[n][i] <= g.blocksCount
    ensures Repairable(g, b, w)
  {
    hide World, Wooded, LooseBlocks, HasRoom, FileSafe, Sorted, TopsLive, Covered, StaleMild, LostFoundIs, Modest,
         CaseFor, Dotted, ToRescue;
  }

  /** A repaired disk can be repaired again, with nothing to do. */
  lemma RepairableAgain(g: Geometry, a: Image, b: Image, w: Setup, E: Dirs, H: Forest)
    requires Geometric(g, |b|) && Repaired(g, a, b, w, E, H)
    ensures Repairable(g, b, Next(w, E, H))
    ensures Tables(g, |b|) && InodeMaps(g, |b|) && BlockMaps(g, |b|) && Tidy(g, b, Next(w, E, H))
    ensures BitsClean(g, b, Next(w, E, H)) <==> TablesAgree(g, TreeUsed(g, b, w.P, E, ROOT_INO, H))
  {
    hide Repairable, Beside, World, InodeAt, TreeUsed, DiskBit, BlockMaps, MetaApart, InTable, IsData, BitsRight,
         LiveIn, Named, Shape, TablesAgree, FixTree, Refs, Tables, InodeMaps, DirsIn, Missing, ToRescue, LostFoundIs,
         Mapped, FileSafe, Wooded, Covered, Modest, LooseBlocks, Dotted;
    var w' := Next(w, E, H);
    NextCase(g, a, b, w, E, H);
    SameDirs(g, w.P, w.X, a, b);
    var c := CaseFor(g, b, w');
    NothingMissing(c, 1);
    NextTree(g, a, b, w, E, H);
    NextModest(g, a, b, w, E, H);
    RepairedParts(g, a, b, w, E, H);
    NextFiles(g, a, b, w);
    NextRoot(g, a, w, E, H);
    NextLoose(c, g, b, w.P);
    assert HasRoom(c, E[w.lf], []);
    MakeRepairable(g, b, w');
    ShapeTree(CaseFor(g, a, w), E, H);
  }

  /** Outside directories and metadata, exactly the first blocks of rescued files differ,
      and they in bytes 12 to 15, which hold lost+found's number. */
  ghost predicate LooseRight(c: Case, g: Geometry, a: Image, b: Image, P: Places)
    requires Tables(g, |a|) && c.n == g.inodesCount
  {
    && |b| == |a|
    && forall k :: 0 <= k < |a| && !IsDirBlock(P, k) && !IsMeta(g, k) ==>
         b[k] == if Hit(c, g, a, k, c.n + 1) then PutLe(a[k], FIRST_ENTRY_LEN, c.lf, 4) else a[k]
  }

  /** A setup for this disk, the loose blocks being no metadata. */
  ghost predicate Based(g: Geometry, a: Image, w: Setup) {
    Geometric(g, |a|) && World(g, a, w.P, w.D) && forall k :: k in w.X ==> !IsMeta(g, k)
  }

  lemma BasedParts(g: Geometry, a: Image, w: Setup)
    requires Based(g, a, w)
    ensures Geometric(g, |a|) && Tables(g, |a|) && InodeMaps(g, |a|) && World(g, a, w.P, w.D) && Placed(g, a, w.P)
    ensures forall k :: k in w.X ==> !IsMeta(g, k)
  {
    hide Tables, InodeMaps, BlockMaps, MetaApart, Placed, Shows, IsMeta;
  }

  /** After pass1 and pass2. */
  lemma AfterDirs(g: Geometry, a: Image, m: Image, l: Image, w: Setup)
    requires Based(g, a, w) && OnlyDirsDiffer(w.P, a, m)
    requires Tables(g, |m|) && CaseFor(g, a, w).n == g.inodesCount && Fixed(CaseFor(g, a, w), g, m, w.P, w.X)
    requires Now(CaseFor(g, a, w), g, m, l, w.P, CaseFor(g, a, w).n + 1)
    ensures Beside(g, w.P, w.X, a, l) && World(g, l, w.P, RoundAt(CaseFor(g, a, w), CaseFor(g, a, w).n + 1).D)
    ensures LooseRight(CaseFor(g, a, w), g, a, l, w.P) && SameMap(g, a, l)
  {
    hide *;
    BasedParts(g, a, w);
    CaseKept(g, a, m, w);
    var c := CaseFor(g, a, w);
    NowParts(c, g, m, l, w.P, w.X, c.n + 1);
    LooseOnly(c, g, m, l, w.P, w.X, c.n + 1);
    NowSteps(g, a, m, l, w);
    BesideDirs(g, w.P, w.X, a, l);
    MapKept(g, w.P, w.X, a, l);
    LooseSteps(c, g, a, m, l, w.P);
  }

  lemma MapKept(g: Geometry, P: Places, X: set<nat>, a: Image, b: Image)
    requires Placed(g, a, P) && OnlyDirsOr(P, X, a, b) && (forall k :: k in X ==> !IsMeta(g, k))
    ensures SameMap(g, a, b)
  {
    MetaKept(g, a, b, P, X);
  }

  /** After pass1 and as much of pass2 as was reached. */
  lemma AfterStop(g: Geometry, a: Image, m: Image, l: Image, w: Setup, exited: bool, last: nat)
    requires Based(g, a, w) && OnlyDirsDiffer(w.P, a, m)
    requires Tables(g, |m|) && CaseFor(g, a, w).n == g.inodesCount && Fixed(CaseFor(g, a, w), g, m, w.P, w.X)
    requires Now(CaseFor(g, a, w), g, m, l, w.P, last + 1) && Stops(CaseFor(g, a, w), g, m, exited, last)
    ensures Tables(g, |a|) && InodeMaps(g, |a|) && Stopped(g, a, l, w, exited, last)
  {
    hide *;
    BasedParts(g, a, w);
    CaseKept(g, a, m, w);
    var c := CaseFor(g, a, w);
    NowParts(c, g, m, l, w.P, w.X, last + 1);
    LooseOnly(c, g, m, l, w.P, w.X, last + 1);
    NowSteps(g, a, m, l, w);
    SameStops(c, g, a, m, exited, last);
    MakeStopped(g, a, l, w, exited, last);
  }

  /** How far pass2 came: the directories of its last round are on the disk, and outside
      the directories and loose blocks no byte has changed since the start. */
  ghost predicate Stopped(g: Geometry, a: Image, b: Image, w: Setup, exited: bool, last: nat)
    requires Tables(g, |a|) && InodeMaps(g, |a|)
  {
    && Stops(CaseFor(g, a, w), g, a, exited, last)
    && World(g, b, w.P, RoundAt(CaseFor(g, a, w), last + 1).D) && OnlyDirsOr(w.P, w.X, a, b)
  }

  lemma MakeStopped(g: Geometry, a: Image, b: Image, w: Setup, exited: bool, last: nat)
    requires Tables(g, |a|) && InodeMaps(g, |a|) && CaseFor(g, a, w).n == g.inodesCount
    requires Stops(CaseFor(g, a, w), g, a, exited, last)
    requires World(g, b, w.P, RoundAt(CaseFor(g, a, w), last + 1).D) && OnlyDirsOr(w.P, w.X, a, b)
    ensures Stopped(g, a, b, w, exited, last)
  {
    hide Stops, World, OnlyDirsOr, RoundAt, CaseFor;
  }

  lemma SameStops(c: Case, g: Geometry, a: Image, m: Image, exited: bool, last: nat)
    requires Tables(g, |a|) && |m| == |a| && c.n == g.inodesCount && Stops(c, g, m, exited, last)
    requires forall n :: g.HasInode(n) ==> InodeAt(g, a, n) == InodeAt(g, m, n)
    ensures Stops(c, g, a, exited, last)
  {
    hide Tables, InodeAt, Missing;
    forall i: nat
      ensures Exits(c, g, a, i) <==> Exits(c, g, m, i)
    {
      if 1 <= i <= c.n { assert g.HasInode(i); }
    }
  }

  lemma RepairableBased(g: Geometry, a: Image, w: Setup)
    requires Repairable(g, a, w)
    ensures Based(g, a, w)
  {
    hide World, Wooded, HasRoom, FileSafe, MetaApart, BlockMaps, InodeMaps, Tables, StaleMild, Modest, Refs, Missing,
         IsMeta, InodeAt;
  }

  lemma NowSteps(g: Geometry, a: Image, m: Image, l: Image, w: Setup)
    requires OnlyDirsDiffer(w.P, a, m) && OnlyDirsOr(w.P, w.X, m, l)
    ensures OnlyDirsOr(w.P, w.X, a, l)
  {
    hide IsDirBlock;
  }

  lemma LooseSteps(c: Case, g: Geometry, a: Image, m: Image, l: Image, P: Places)
    requires Tables(g, |a|) && |m| == |a| && c.n == g.inodesCount && OnlyDirsDiffer(P, a, m)
    requires forall n :: g.HasInode(n) ==> InodeAt(g, a, n) == InodeAt(g, m, n)
    requires LooseNow(c, g, m, l, P, c.n + 1)
    ensures LooseRight(c, g, a, l, P)
  {
    assert g.inodesPerGroup > 0 && g.InodeGroups() <= |g.inodeTable|;
    hide Tables, InodeAt, IsDirBlock, IsMeta, PutLe, Hit;
    forall k | 0 <= k < |a| && !IsDirBlock(P, k) && !IsMeta(g, k)
      ensures l[k] == if Hit(c, g, a, k, c.n + 1) then PutLe(a[k], FIRST_ENTRY_LEN, c.lf, 4) else a[k]
    {
      SameHit(c, g, a, m, k);
    }
  }

  lemma SameHit(c: Case, g: Geometry, a: Image, m: Image, b: nat)
    requires Tables(g, |a|) && |m| == |a| && c.n == g.inodesCount
    requires forall n :: g.HasInode(n) ==> InodeAt(g, a, n) == InodeAt(g, m, n)
    ensures Hit(c, g, m, b, c.n + 1) <==> Hit(c, g, a, b, c.n + 1)
  {
    hide Tables, InodeAt, Missing;
    if Hit(c, g, m, b, c.n + 1) {
      var k: nat :| 1 <= k <= c.n && Missing(c, k) && k !in c.dirs && FirstBlock(g, m, k) == b;
      assert g.HasInode(k) && FirstBlock(g, a, k) == b;
    }
    if Hit(c, g, a, b, c.n + 1) {
      var k: nat :| 1 <= k <= c.n && Missing(c, k) && k !in c.dirs && FirstBlock(g, a, k) == b;
      assert g.HasInode(k) && FirstBlock(g, m, k) == b;
    }
  }

  /** pass3 and pass4 write metadata only. */
  lemma LooseStays(c: Case, g: Geometry, a: Image, m: Image, b: Image, P: Places)
    requires Tables(g, |a|) && c.n == g.inodesCount && LooseRight(c, g, a, m, P) && |b| == |m|
    requires forall k :: 0 <= k < |b| && !IsMeta(g, k) ==> b[k] == m[k]
    ensures LooseRight(c, g, a, b, P)
  {
    hide Tables, Hit, IsDirBlock, IsMeta, PutLe;
  }

  /** pass3 and pass4 leave the inode bitmaps alone. */
  lemma MapStays(g: Geometry, a: Image, m: Image, l: Image, b: Image, refs: seq<nat>)
    requires Geometric(g, |a|) && SameMap(g, a, m) && Tables(g, |m|) && |l| == |m| && |b| == |l|
    requires |refs| == g.inodesCount + 1 && Midway(g, m, l, refs, g.inodesCount + 1)
    requires forall k :: 0 <= k < |b| && !InRuns(g.blockBitmap, g.BlockBitmapBlocks(), k) ==> b[k] == l[k]
    ensures SameMap(g, a, b)
  {
    hide IsTableBlock, InRuns, Tables, InodeBytes, InodeMaps, BlockMaps;
  }

  lemma MetaOnly(g: Geometry, m: Image, l: Image, b: Image, refs: seq<nat>)
    requires Tables(g, |m|) && |l| == |m| && |b| == |l| && |refs| == g.inodesCount + 1 &&
             Midway(g, m, l, refs, g.inodesCount + 1)
    requires forall k :: 0 <= k < |b| && !InRuns(g.blockBitmap, g.BlockBitmapBlocks(), k) ==> b[k] == l[k]
    ensures forall k :: 0 <= k < |b| && !IsMeta(g, k) ==> b[k] == m[k]
  {
    hide IsTableBlock, InRuns, Tables, InodeBytes;
  }

  /** On a tidy disk pass1 and pass2 leave the setup as it is. */
  lemma TidySetup(g: Geometry, a: Image, w: Setup)
    requires Repairable(g, a, w) && Tables(g, |a|) && InodeMaps(g, |a|) && Tidy(g, a, w)
    ensures Dotted(w) == w.D && ToRescue(CaseFor(g, a, w), 1) == [] && Linked(g, a, w.D, w.F)
  {
    hide World, LooseBlocks, HasRoom, FileSafe, MetaApart, BlockMaps, InodeMaps, Tables, StaleMild, Modest, BitsRight,
         Sorted, TopsLive, Covered, LostFoundIs, ToRescue, Refs, InodeAt, FixTree, DotsRight;
    FixTreeIdle(w.D, ROOT_INO, Whole(w.F));
  }

  /** Link counts that are right stay as they are: no counter has wrapped. */
  lemma RightLinks(c: Case, g: Geometry, a: Image, E: Dirs, H: Forest, refs: seq<nat>)
    requires Modest(c) && c.n == g.inodesCount && AllRescued(c, E, H) && Tables(g, |a|) && Linked(g, a, E, H)
    requires |refs| == g.inodesCount + 1 && (forall x :: 0 <= x < |refs| ==> refs[x] == Refs(E, Whole(H), x))
    ensures LinksRight(g, a, refs)
  {
    hide InodeAt, Tables, AllRescued, Refs, Modest, Whole;
    forall x | 1 <= x <= g.inodesCount
      ensures InodeAt(g, a, x).links == Char(refs[x])
    {
      CountsSmall(c, E, H, x);
    }
  }

  lemma ModestCase(g: Geometry, a: Image, w: Setup)
    requires Repairable(g, a, w)
    ensures Tables(g, |a|) && InodeMaps(g, |a|)
    ensures Modest(CaseFor(g, a, w)) && CaseFor(g, a, w).n == g.inodesCount && CaseFor(g, a, w).O0 == w.O
  {
    hide World, Wooded, LooseBlocks, HasRoom, FileSafe, MetaApart, BlockMaps, Tables, InodeMaps, StaleMild, Modest,
         Refs, Missing, Sorted, TopsLive, Covered, LostFoundIs, ToRescue, Dotted;
  }

  /** The end of a run that is not cut short: a consistent disk on which nothing that was
      live has been lost, and which a further run leaves as it is but for bitmap bits that
      the loops of pass4 do not agree about. */
  ghost predicate Finished(g: Geometry, a: Image, b: Image, w: Setup, E: Dirs, H: Forest)
    requires Geometric(g, |a|) && |b| == |a|
  {
    && Consistent(g, b, w.P, E, H) && Repaired(g, a, b, w, E, H) && Saved(g, a, b, E, H)
    && Repairable(g, b, Next(w, E, H)) && Tidy(g, b, Next(w, E, H))
    && (BitsClean(g, b, Next(w, E, H)) <==> TablesAgree(g, TreeUsed(g, b, w.P, E, ROOT_INO, H)))
  }

  lemma MakeFinished(g: Geometry, a: Image, b: Image, w: Setup, E: Dirs, H: Forest)
    requires Geometric(g, |a|) && |b| == |a| && Repaired(g, a, b, w, E, H)
    ensures Finished(g, a, b, w, E, H)
  {
    hide *;
    HasGroups(g, |b|);
    RepairedIsConsistent(g, a, b, w, E, H);
    LiveSaved(g, a, b, w, E, H);
    RepairableAgain(g, a, b, w, E, H);
    FinishedIs(g, a, b, w, E, H);
  }

  lemma FinishedIs(g: Geometry, a: Image, b: Image, w: Setup, E: Dirs, H: Forest)
    requires Geometric(g, |a|) && |b| == |a|
    ensures Tables(g, |a|) && InodeMaps(g, |a|) && BlockMaps(g, |a|) && g.blocksPerGroup > 0
    ensures g.BlockGroups() <= |g.inodeTable|
    ensures Finished(g, a, b, w, E, H) <==>
            && Consistent(g, b, w.P, E, H) && Repaired(g, a, b, w, E, H) && Saved(g, a, b, E, H)
            && Repairable(g, b, Next(w, E, H)) && Tidy(g, b, Next(w, E, H))
            && (BitsClean(g, b, Next(w, E, H)) <==> TablesAgree(g, TreeUsed(g, b, w.P, E, ROOT_INO, H)))
  {
    hide Consistent, Repaired, Saved, Repairable, Tidy, BitsClean, TablesAgree, TreeUsed;
  }

  /** correct_one_partition: the four passes in order.  Whatever was wrong with a
      repairable disk, afterwards it is consistent and nothing that was live is lost,
      unless pass2 exits.  If the first three passes have nothing to do, something is
      written exactly when a bitmap bit is wrong. */
  method CorrectPartition(d: Disk, ghost w: Setup)
    returns (exited: bool, ghost last: nat, ghost E: Dirs, ghost H: Forest)
    requires Repairable(d.g, d.blocks, w)
    modifies d
    ensures Geometric(d.g, |d.blocks|) && Geometric(d.g, |old(d.blocks)|) && |d.blocks| == |old(d.blocks)|
    ensures CaseFor(d.g, old(d.blocks), w).n == d.g.inodesCount
    ensures Stops(CaseFor(d.g, old(d.blocks), w), d.g, old(d.blocks), exited, last)
    ensures exited ==> Stopped(d.g, old(d.blocks), d.blocks, w, exited, last)
    ensures !exited ==> Finished(d.g, old(d.blocks), d.blocks, w, E, H)
    ensures Tidy(d.g, old(d.blocks), w) ==>
              !exited && (d.writes == old(d.writes) <==> BitsClean(d.g, old(d.blocks), w))
    ensures Tidy(d.g, old(d.blocks), w) && BitsClean(d.g, old(d.blocks), w) ==> d.blocks == old(d.blocks)
  {
    hide *;
    ghost var img0 := d.blocks;
    Pass1Ready(d.g, img0, w);
    ghost var E1 := Pass1.Pass1(d, ROOT_INO, ROOT_INO, w.P, w.D, w.F);
    ghost var img1 := d.blocks;
    AfterPass1(d.g, img0, img1, w);
    ghost var c := CaseFor(d.g, img0, w);
    ModestCase(d.g, img0, w);
    CaseDirs(d.g, img0, w);
    ReadyRuns(c);
    exited, last := Pass2.Pass2(d, c, w.P, w.X);
    ghost var img2 := d.blocks;
    if Tidy(d.g, img0, w) { TidySetup(d.g, img0, w); }
    RepairableBased(d.g, img0, w);
    AfterStop(d.g, img0, img1, img2, w, exited, last);
    StoppedParts(d.g, img0, img2, w, exited, last);
    E := RoundAt(c, c.n + 1).D;
    H := RunRescues(c);
    if exited { return; }
    AfterDirs(d.g, img0, img1, img2, w);
    Pass34Ready(d.g, img0, img2, w, E, H);
    ghost var refs := Pass3.Pass3(d, w.P, E, H);
    ghost var img3 := d.blocks;
    if Tidy(d.g, img0, w) { RightLinks(c, d.g, img0, E, H, refs); }
    BesideLinks(d.g, w.P, w.X, img2, img3, E, refs);
    BesideTrans(d.g, w.P, w.X, img0, img2, img3);
    Pass34Ready(d.g, img0, img3, w, E, H);
    Pass4.Pass4(d, w.P, E, H);
    Assemble(d.g, img0, img2, img3, d.blocks, w, E, H, refs);
    MakeFinished(d.g, img0, d.blocks, w, E, H);
    BitsCleanIs(d.g, img0, w);
  }

  lemma StoppedParts(g: Geometry, a: Image, b: Image, w: Setup, exited: bool, last: nat)
    requires Tables(g, |a|) && InodeMaps(g, |a|) && Stopped(g, a, b, w, exited, last)
    requires CaseFor(g, a, w).n == g.inodesCount
    ensures |a| == |b| && Stops(CaseFor(g, a, w), g, a, exited, last) && (!exited ==> last == g.inodesCount)
  {
    hide World, RoundAt, CaseFor, IsDirBlock, Exits;
  }

  lemma CaseDirs(g: Geometry, a: Image, w: Setup)
    requires Tables(g, |a|) && InodeMaps(g, |a|)
    ensures CaseFor(g, a, w).D0 == Dotted(w) && CaseFor(g, a, w).F0 == w.F
  {
    hide Tables, InodeMaps, Dotted, Refs, LiveIn, DirsIn;
  }

  lemma BitsCleanIs(g: Geometry, img: Image, w: Setup)
    requires Geometric(g, |img|)
    ensures BitsClean(g, img, w) <==> BitsRight(g, img, TreeUsed(g, img, w.P, w.D, ROOT_INO, w.F))
  {
    hide BitsRight, TreeUsed;
  }

  /** Two runs: the second finds a consistent disk.  It writes nothing if every inode
      table block lies in its group's skipped part, and only then unless some file lies
      in a table. */
  method CorrectTwice(d: Disk, ghost w: Setup)
    returns (exited: bool, ghost once: Image, ghost writes: seq<nat>, ghost E: Dirs, ghost H: Forest)
    requires Repairable(d.g, d.blocks, w)
    modifies d
    ensures Geometric(d.g, |old(d.blocks)|) && Geometric(d.g, |once|) && |once| == |old(d.blocks)|
    ensures CaseFor(d.g, old(d.blocks), w).n == d.g.inodesCount
    ensures exited <==> exists i :: Exits(CaseFor(d.g, old(d.blocks), w), d.g, old(d.blocks), i)
    ensures !exited ==> Finished(d.g, old(d.blocks), once, w, E, H)
    ensures !exited ==> SilentIff(d.g, old(d.blocks), once, w, E, H, d.writes == writes)
    ensures !exited && d.writes == writes ==> d.blocks == once
    ensures Geometric(d.g, |d.blocks|) && (!exited ==> exists G, K :: Consistent(d.g, d.blocks, w.P, G, K))
  {
    hide *;
    ghost var last;
    exited, last, E, H := CorrectPartition(d, w);
    once, writes := d.blocks, d.writes;
    FinishedIs(d.g, old(d.blocks), once, w, E, H);
    WhenExits(CaseFor(d.g, old(d.blocks), w), d.g, old(d.blocks), exited, last);
    if exited { return; }
    ghost var G, K;
    var again;
    again, last, G, K := CorrectPartition(d, Next(w, E, H));
    SamePlaces(w, E, H);
    FinishedIs(d.g, once, d.blocks, Next(w, E, H), G, K);
    SecondRun(d.g, old(d.blocks), once, w, E, H, d.writes == writes);
  }

  lemma WhenExits(c: Case, g: Geometry, img: Image, exited: bool, last: nat)
    requires Tables(g, |img|) && c.n == g.inodesCount && Stops(c, g, img, exited, last)
    ensures exited <==> exists i :: Exits(c, g, img, i)
  {
    hide Missing, FirstBlock;
  }

  /** When a second run writes nothing: exactly when the tree uses whatever inode table
      blocks pass4 verifies as data blocks; so if all tables lie in the skipped parts of
      their groups, and only then unless a directory or file has a block in a table. */
  ghost predicate SilentIff(g: Geometry, a: Image, once: Image, w: Setup, E: Dirs, H: Forest, silent: bool)
    requires Geometric(g, |a|) && |once| == |a|
  {
    && (silent <==> TablesAgree(g, TreeUsed(g, once, w.P, E, ROOT_INO, H)))
    && (TablesSkipped(g) ==> silent)
    && (TablesFree(g, a, w.P, w.files) ==> (silent <==> TablesSkipped(g)))
  }

  /** The geometry decides about a second run. */
  lemma SecondRun(g: Geometry, a: Image, once: Image, w: Setup, E: Dirs, H: Forest, silent: bool)
    requires Geometric(g, |a|) && |once| == |a| && Repaired(g, a, once, w, E, H)
    requires silent <==> BitsClean(g, once, Next(w, E, H))
    ensures SilentIff(g, a, once, w, E, H, silent)
  {
    hide *;
    FinishedIs(g, a, once, w, E, H);
    var U := TreeUsed(g, once, w.P, E, ROOT_INO, H);
    RepairableAgain(g, a, once, w, E, H);
    if TablesSkipped(g) { SkippedAgree(g, U); }
    if TablesFree(g, a, w.P, w.files) && TablesAgree(g, U) {
      TreeAvoidsTables(g, a, once, w, E, H);
      AgreeOnlySkipped(g, |once|, U);
    }
    MakeSilent(g, a, once, w, E, H, silent);
  }

  lemma MakeSilent(g: Geometry, a: Image, once: Image, w: Setup, E: Dirs, H: Forest, silent: bool)
    requires Geometric(g, |a|) && |once| == |a|
    requires silent <==> TablesAgree(g, TreeUsed(g, once, w.P, E, ROOT_INO, H))
    requires TablesSkipped(g) ==> silent
    requires TablesFree(g, a, w.P, w.files) ==> (silent <==> TablesSkipped(g))
    ensures SilentIff(g, a, once, w, E, H, silent)
  {
    hide TablesAgree, TreeUsed, TablesSkipped, TablesFree, Geometric;
  }

  lemma SamePlaces(w: Setup, E: Dirs, H: Forest)
    ensures Next(w, E, H).P == w.P
  {
  }
}
