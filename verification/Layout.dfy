/** How the decoded tree lies on the disk.

  `P` gives the block numbers of every directory, `D` their decoded entries.
  `Placed` says the inode tables name those blocks, that no two directories share
  a block and that no directory block is metadata; `Shows` says the blocks decode
  to `D`.  Writing directory blocks touches only `Shows`. */
module Layout {
  import opened DirBlock
  import opened Disk
  import opened Inode
  import opened Bitmap
  import opened Tree

  type Places = map<nat, seq<nat>>

  /** `block` is an inode's pointer array; a walk over it reads `ps` and stops. */
  predicate Walks(block: seq<nat>, ps: seq<nat>)
    requires |block| == N_BLOCKS
  {
    && |ps| <= N_BLOCKS
    && block[..|ps|] == ps
    && (forall i :: 0 <= i < |ps| ==> ps[i] != 0)
    && (|ps| < N_BLOCKS ==> block[|ps|] == 0)
  }

  ghost predicate IsDirBlock(P: Places, b: nat) {
    exists n, i :: n in P && 0 <= i < |P[n]| && P[n][i] == b
  }

  /** Inode table or bitmap block. */
  ghost predicate IsMeta(g: Geometry, b: nat)
    requires g.inodesPerGroup > 0 && g.InodeGroups() <= |g.inodeTable|
  {
    || IsTableBlock(g, b)
    || InRuns(g.blockBitmap, g.BlockBitmapBlocks(), b)
    || InRuns(g.inodeBitmap, g.InodeBitmapBlocks(), b)
  }

  /** One directory's blocks are its own. */
  ghost predicate Apart(P: Places) {
    forall n, i, m, j :: n in P && m in P && 0 <= i < |P[n]| && 0 <= j < |P[m]| && P[n][i] == P[m][j]
      ==> n == m && i == j
  }

  ghost predicate Placed(g: Geometry, img: Image, P: Places) {
    && Tables(g, |img|)
    && Apart(P)
    && (forall n :: n in P ==> g.HasInode(n) && Walks(InodeAt(g, img, n).block, P[n]))
    && (forall n, i :: n in P && 0 <= i < |P[n]| ==> P[n][i] < |img| && !IsMeta(g, P[n][i]))
  }

  ghost predicate Shows(img: Image, P: Places, D: Dirs) {
    && P.Keys == D.Keys
    && (forall n :: n in P ==> |D[n]| == |P[n]|)
    && (forall n, i :: n in P && 0 <= i < |P[n]| ==> P[n][i] < |img| && BlockFrom(img[P[n][i]], 0, D[n][i]))
  }

  ghost predicate World(g: Geometry, img: Image, P: Places, D: Dirs) {
    Placed(g, img, P) && Shows(img, P, D)
  }

  /** Images that agree on every block that is neither directory nor table data. */
  ghost predicate OnlyDirsDiffer(P: Places, a: Image, b: Image) {
    |a| == |b| && forall k :: 0 <= k < |a| && !IsDirBlock(P, k) ==> a[k] == b[k]
  }

  lemma DirBlockIsDir(P: Places, n: nat, i: nat)
    requires n in P && i < |P[n]|
    ensures IsDirBlock(P, P[n][i])
  {
  }

  lemma TablesAreNotDirs(g: Geometry, img: Image, P: Places, n: nat)
    requires Placed(g, img, P) && g.HasInode(n)
    ensures !IsDirBlock(P, TableBlock(g, n)) && TableBlock(g, n) < |img|
  {
    TableBlockIsTable(g, n);
    var i := GroupOf(g, n);
    assert g.inodeTable[i] + g.TableBlocks() <= |img|;
  }

  /** Rewriting directory blocks changes no inode. */
  lemma InodesKept(g: Geometry, a: Image, b: Image, P: Places, n: nat)
    requires Placed(g, a, P) && OnlyDirsDiffer(P, a, b) && g.HasInode(n)
    ensures InodeAt(g, b, n) == InodeAt(g, a, n)
  {
    TablesAreNotDirs(g, a, P, n);
    SameInode(g, a, b, n);
  }

  lemma PlacedKept(g: Geometry, a: Image, b: Image, P: Places)
    requires Placed(g, a, P) && OnlyDirsDiffer(P, a, b)
    ensures Placed(g, b, P)
  {
    forall n | n in P
      ensures g.HasInode(n) && Walks(InodeAt(g, b, n).block, P[n])
    {
      InodesKept(g, a, b, P, n);
    }
  }

  /** One directory block rewritten. */
  lemma BlockRewritten(g: Geometry, a: Image, b: Image, P: Places, D: Dirs, n: nat, i: nat, es: seq<Entry>)
    requires World(g, a, P, D) && n in P && i < |P[n]|
    requires |b| == |a| && BlockFrom(b[P[n][i]], 0, es)
    requires forall k :: 0 <= k < |a| && k != P[n][i] ==> b[k] == a[k]
    ensures World(g, b, P, D[n := D[n][i := es]])
    ensures OnlyDirsDiffer(P, a, b)
  {
    DirBlockIsDir(P, n, i);
    PlacedKept(g, a, b, P);
    ShowsRewritten(a, b, P, D, n, i, es);
  }

  lemma ShowsRewritten(a: Image, b: Image, P: Places, D: Dirs, n: nat, i: nat, es: seq<Entry>)
    requires Apart(P) && Shows(a, P, D) && n in P && i < |P[n]|
    requires |b| == |a| && BlockFrom(b[P[n][i]], 0, es)
    requires forall k :: 0 <= k < |a| && k != P[n][i] ==> b[k] == a[k]
    ensures Shows(b, P, D[n := D[n][i := es]])
  {
    var E := D[n := D[n][i := es]];
    forall m, j | m in P && 0 <= j < |P[m]|
      ensures P[m][j] < |b| && BlockFrom(b[P[m][j]], 0, E[m][j])
    {
      if P[m][j] == P[n][i] {
        assert m == n && j == i;
      } else {
        assert b[P[m][j]] == a[P[m][j]] && E[m][j] == D[m][j];
        assert BlockFrom(a[P[m][j]], 0, D[m][j]);
      }
    }
  }

  lemma OnlyDirsRefl(P: Places, a: Image)
    ensures OnlyDirsDiffer(P, a, a)
  {
  }

  lemma OnlyDirsTrans(P: Places, a: Image, b: Image, c: Image)
    requires OnlyDirsDiffer(P, a, b) && OnlyDirsDiffer(P, b, c)
    ensures OnlyDirsDiffer(P, a, c)
  {
  }

  /** What a walk over directory `n` reads at block pointer `i`. */
  lemma WalkReads(g: Geometry, img: Image, P: Places, D: Dirs, n: nat, i: nat)
    requires World(g, img, P, D) && n in D && i <= |D[n]|
    ensures Tables(g, |img|) && g.HasInode(n) && 1 <= n <= g.inodesCount && n in P && |P[n]| == |D[n]| <= N_BLOCKS
    ensures i < N_BLOCKS ==> InodeAt(g, img, n).block[i] == if i < |D[n]| then P[n][i] else 0
    ensures i < |D[n]| ==> 0 < P[n][i] < |img| && BlockFrom(img[P[n][i]], 0, D[n][i])
  {
    hide Apart, BlockFrom, InodeAt, IsMeta, Tables;
    assert Walks(InodeAt(g, img, n).block, P[n]);
    if i < |P[n]| { assert InodeAt(g, img, n).block[..|P[n]|][i] == P[n][i]; }
  }
}
