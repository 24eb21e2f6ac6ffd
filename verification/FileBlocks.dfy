/** Which blocks a regular file occupies: the three walks of correct.c against a
  map from logical block index to disk block. */
module FileBlocks {
  import opened Bytes
  import opened DirBlock
  import opened Disk
  import opened Inode

  const NDIR: nat := 12
  const IND_BLOCK: nat := 12
  const DIND_BLOCK: nat := 13
  const PER_BLOCK: nat := 256
  const INDIRECT_MAX: nat := 268
  const DOUBLE_INDIRECT_MAX: nat := 65549

  /** `(i_size + block_size - 1) / block_size` in 32-bit arithmetic. */
  function BlockCount(size: nat): nat {
    (size + (BLOCK_SIZE - 1)) % U32_LIMIT / BLOCK_SIZE
  }

  function Pointer(img: Image, b: nat, j: nat): nat
    requires b < |img| && j < PER_BLOCK
  {
    U32(img[b], 4 * j)
  }

  /** The pointer blocks of a file of `n` blocks can be read. */
  ghost predicate Readable(inode: Inode, img: Image, n: nat)
    requires |inode.block| == N_BLOCKS
  {
    && (n > NDIR ==> inode.block[IND_BLOCK] < |img|)
    && (n > INDIRECT_MAX ==>
          && inode.block[DIND_BLOCK] < |img|
          && forall j :: 0 <= j < PER_BLOCK && INDIRECT_MAX + j * PER_BLOCK < n ==>
               Pointer(img, inode.block[DIND_BLOCK], j) < |img|)
  }

  /** The block holding logical block `k`. */
  ghost function DataBlock(inode: Inode, img: Image, n: nat, k: nat): nat
    requires |inode.block| == N_BLOCKS && Readable(inode, img, n) && k < n <= INDIRECT_MAX + PER_BLOCK * PER_BLOCK
  {
    if k < NDIR then inode.block[k]
    else if k < INDIRECT_MAX then Pointer(img, inode.block[IND_BLOCK], k - NDIR)
    else
      var i, j := (k - INDIRECT_MAX) / PER_BLOCK, (k - INDIRECT_MAX) % PER_BLOCK;
      Pointer(img, Pointer(img, inode.block[DIND_BLOCK], i), j)
  }

  /** The pointer blocks needed to reach logical blocks `0..n`. */
  ghost predicate IsPointerBlock(inode: Inode, img: Image, n: nat, b: nat)
    requires |inode.block| == N_BLOCKS && Readable(inode, img, n)
  {
    || (n > NDIR && b == inode.block[IND_BLOCK])
    || (n > INDIRECT_MAX && b == inode.block[DIND_BLOCK])
    || (n > INDIRECT_MAX && exists j :: 0 <= j < PER_BLOCK && INDIRECT_MAX + j * PER_BLOCK < n
                                         && b == Pointer(img, inode.block[DIND_BLOCK], j))
  }

  /** `b` holds data of the file, or pointers to it. */
  ghost predicate Occupies(inode: Inode, img: Image, n: nat, b: nat)
    requires |inode.block| == N_BLOCKS && Readable(inode, img, n) && n <= INDIRECT_MAX + PER_BLOCK * PER_BLOCK
  {
    (exists k :: 0 <= k < n && DataBlock(inode, img, n, k) == b) || IsPointerBlock(inode, img, n, b)
  }

  /** All of the file's block numbers are below `limit`. */
  ghost predicate InLimit(inode: Inode, img: Image, n: nat, limit: nat)
    requires |inode.block| == N_BLOCKS && Readable(inode, img, n) && n <= INDIRECT_MAX + PER_BLOCK * PER_BLOCK
  {
    forall b: nat :: Occupies(inode, img, n, b) ==> b < limit
  }

  /** `now` is `was` with the blocks of `S` set to 1. */
  ghost predicate Painted(was: seq<int>, now: seq<int>, S: iset<nat>) {
    |now| == |was| && forall b :: 0 <= b < |was| ==> now[b] == if b in S then 1 else was[b]
  }

  /** The blocks the walk has marked when `k` logical blocks and the pointer
      blocks for the first `m` of them are done. */
  ghost function Marked(inode: Inode, img: Image, n: nat, k: nat, m: nat): iset<nat>
    requires |inode.block| == N_BLOCKS && Readable(inode, img, n) && k <= m <= n <= INDIRECT_MAX + PER_BLOCK * PER_BLOCK
  {
    iset b | (exists j :: 0 <= j < k && DataBlock(inode, img, n, j) == b) || IsPointerBlockUpto(inode, img, n, m, b)
  }

  ghost predicate IsPointerBlockUpto(inode: Inode, img: Image, n: nat, m: nat, b: nat)
    requires |inode.block| == N_BLOCKS && Readable(inode, img, n) && m <= n
  {
    || (m > NDIR && b == inode.block[IND_BLOCK])
    || (m > INDIRECT_MAX && b == inode.block[DIND_BLOCK])
    || (m > INDIRECT_MAX && exists j :: 0 <= j < PER_BLOCK && INDIRECT_MAX + j * PER_BLOCK < m
                                         && b == Pointer(img, inode.block[DIND_BLOCK], j))
  }

  lemma MarkedData(inode: Inode, img: Image, n: nat, k: nat, m: nat)
    requires |inode.block| == N_BLOCKS && Readable(inode, img, n) && k < m <= n <= INDIRECT_MAX + PER_BLOCK * PER_BLOCK
    ensures Marked(inode, img, n, k + 1, m) == Marked(inode, img, n, k, m) + iset{DataBlock(inode, img, n, k)}
  {
    var A, B := Marked(inode, img, n, k + 1, m), Marked(inode, img, n, k, m) + iset{DataBlock(inode, img, n, k)};
    forall b
      ensures b in A <==> b in B
    {
      if b in A && !IsPointerBlockUpto(inode, img, n, m, b) {
        var j :| 0 <= j < k + 1 && DataBlock(inode, img, n, j) == b;
      }
    }
  }

  lemma MarkedAll(inode: Inode, img: Image, n: nat)
    requires |inode.block| == N_BLOCKS && Readable(inode, img, n) && n <= INDIRECT_MAX + PER_BLOCK * PER_BLOCK
    ensures Marked(inode, img, n, n, n) == iset b | Occupies(inode, img, n, b)
  {
  }

  /** `block_bitmap[b] = 1`. */
  method Mark(bm: array<int>, b: nat, ghost was: seq<int>, ghost S: iset<nat>)
    requires b < bm.Length && Painted(was, bm[..], S)
    modifies bm
    ensures Painted(was, bm[..], S + iset{b})
  {
    ghost var mid := bm[..];
    bm[b] := 1;
    assert bm[..] == mid[b := 1];
  }

  /** Everything the walk of a file of `n` blocks can touch is in bounds. */
  ghost predicate Walkable(inode: Inode, img: Image, n: nat, limit: nat) {
    && |inode.block| == N_BLOCKS && n <= INDIRECT_MAX + PER_BLOCK * PER_BLOCK
    && Readable(inode, img, n) && InLimit(inode, img, n, limit)
  }

  /** The direct blocks, as all three walks mark them. */
  method MarkDirect(bm: array<int>, inode: Inode, count: nat, ghost img: Image, ghost n: nat, ghost was: seq<int>)
    requires Walkable(inode, img, n, bm.Length) && count <= NDIR && count <= n && bm[..] == was
    modifies bm
    ensures Painted(was, bm[..], Marked(inode, img, n, count, count))
  {
    var i := 0;
    assert Marked(inode, img, n, 0, count) == iset{};
    while i < count
      invariant 0 <= i <= count
      invariant Painted(was, bm[..], Marked(inode, img, n, i, count))
    {
      assert DataBlock(inode, img, n, i) == inode.block[i];
      assert Occupies(inode, img, n, inode.block[i]);
      MarkedData(inode, img, n, i, count);
      Mark(bm, inode.block[i], was, Marked(inode, img, n, i, count));
      i := i + 1;
    }
  }

  /** The end of the run of logical blocks that one pointer block covers. */
  function RunEnd(start: nat, n: nat): (e: nat)
    ensures e <= n || e == start + PER_BLOCK
  {
    if n < start + PER_BLOCK then n else start + PER_BLOCK
  }

  /** The pointers of block `ptrs`, which hold logical blocks `start..`, up to the
      file's end: the inner loop of both indirect walks. */
  method MarkPointers(bm: array<int>, ptrs: array<byte>, start: nat, fileBlockNum: nat,
                      ghost inode: Inode, ghost img: Image, ghost b: nat, ghost was: seq<int>)
    returns (k: nat)
    requires Walkable(inode, img, fileBlockNum, bm.Length) && ptrs as object != bm && ptrs.Length == BLOCK_SIZE
    requires b < |img| && ptrs[..] == img[b] && start < fileBlockNum
    requires forall j :: 0 <= j < PER_BLOCK && start + j < fileBlockNum ==>
               DataBlock(inode, img, fileBlockNum, start + j) == Pointer(img, b, j)
    requires Painted(was, bm[..], Marked(inode, img, fileBlockNum, start, RunEnd(start, fileBlockNum)))
    modifies bm
    ensures k == RunEnd(start, fileBlockNum) && Painted(was, bm[..], Marked(inode, img, fileBlockNum, k, k))
  {
    hide Marked, Painted, Readable;
    k := start;
    ghost var n, upto := fileBlockNum, RunEnd(start, fileBlockNum);
    var j := 0;
    while j < BLOCK_SIZE
      invariant 0 <= j <= BLOCK_SIZE && j % 4 == 0 && k == start + j / 4 && k <= upto
      invariant j < BLOCK_SIZE ==> k < upto
      invariant Painted(was, bm[..], Marked(inode, img, n, k, upto))
      invariant ptrs[..] == img[b]
    {
      var p := Parse4(ptrs, j);
      assert p == Pointer(img, b, j / 4) == DataBlock(inode, img, n, start + j / 4);
      assert Occupies(inode, img, n, p);
      MarkedData(inode, img, n, k, upto);
      Mark(bm, p, was, Marked(inode, img, n, k, upto));
      k := k + 1;
      j := j + 4;
      if k == fileBlockNum { return; }
    }
  }

  /** Reaching the single indirect block adds it. */
  lemma MarkedIndirect(inode: Inode, img: Image, n: nat, m: nat)
    requires |inode.block| == N_BLOCKS && Readable(inode, img, n) &&
             NDIR < m <= n <= INDIRECT_MAX + PER_BLOCK * PER_BLOCK
    requires m <= INDIRECT_MAX
    ensures Marked(inode, img, n, NDIR, NDIR) + iset{inode.block[IND_BLOCK]} == Marked(inode, img, n, NDIR, m)
  {
  }

  /** The blocks marked before round `i` of the double indirect walk. */
  ghost function BeforeRound(inode: Inode, img: Image, n: nat, i: nat): iset<nat>
    requires |inode.block| == N_BLOCKS && Readable(inode, img, n) && n <= INDIRECT_MAX + PER_BLOCK * PER_BLOCK
    requires INDIRECT_MAX + i * PER_BLOCK < n
  {
    Marked(inode, img, n, INDIRECT_MAX + i * PER_BLOCK, INDIRECT_MAX + i * PER_BLOCK) + iset{inode.block[DIND_BLOCK]}
  }

  /** Round `i` adds the `i`-th second-level block. */
  lemma MarkedRound(inode: Inode, img: Image, n: nat, i: nat)
    requires |inode.block| == N_BLOCKS && Readable(inode, img, n) && n <= INDIRECT_MAX + PER_BLOCK * PER_BLOCK
    requires i < PER_BLOCK && INDIRECT_MAX + i * PER_BLOCK < n
    ensures var start := INDIRECT_MAX + i * PER_BLOCK;
            BeforeRound(inode, img, n, i) + iset{Pointer(img, inode.block[DIND_BLOCK], i)}
            == Marked(inode, img, n, start, RunEnd(start, n))
  {
    var start := INDIRECT_MAX + i * PER_BLOCK;
    var m := RunEnd(start, n);
    forall b
      ensures IsPointerBlockUpto(inode, img, n, m, b) <==>
              IsPointerBlockUpto(inode, img, n, start, b) || b == inode.block[DIND_BLOCK] ||
                b == Pointer(img, inode.block[DIND_BLOCK], i)
    {
      if IsPointerBlockUpto(inode, img, n, m, b) && b != inode.block[DIND_BLOCK] && b != inode.block[IND_BLOCK] {
        var j :| 0 <= j < PER_BLOCK && INDIRECT_MAX + j * PER_BLOCK < m &&
          b == Pointer(img, inode.block[DIND_BLOCK], j);
        assert j <= i;
      }
    }
  }

  lemma NextRound(inode: Inode, img: Image, n: nat, i: nat)
    requires |inode.block| == N_BLOCKS && Readable(inode, img, n) && n <= INDIRECT_MAX + PER_BLOCK * PER_BLOCK
    requires INDIRECT_MAX + (i + 1) * PER_BLOCK < n
    ensures var k := INDIRECT_MAX + (i + 1) * PER_BLOCK;
            Marked(inode, img, n, k, k) == BeforeRound(inode, img, n, i + 1)
  {
  }

  /** get_file_indirect_block_bitmap. */
  method MarkIndirect(d: Disk, bm: array<int>, inode: Inode, fileBlockNum: nat, ghost was: seq<int>)
    requires NDIR < fileBlockNum <= INDIRECT_MAX && Walkable(inode, d.blocks, fileBlockNum, bm.Length) && bm[..] == was
    modifies bm
    ensures Painted(was, bm[..], Marked(inode, d.blocks, fileBlockNum, fileBlockNum, fileBlockNum))
  {
    ghost var n, img := fileBlockNum, d.blocks;
    MarkDirect(bm, inode, NDIR, img, n, was);
    var ind := inode.block[IND_BLOCK];
    assert Occupies(inode, img, n, ind);
    Mark(bm, ind, was, Marked(inode, img, n, NDIR, NDIR));
    MarkedIndirect(inode, img, n, n);
    var ptrs := new byte[BLOCK_SIZE];
    d.ReadBlock(ind, ptrs, 0);
    var k := MarkPointers(bm, ptrs, NDIR, fileBlockNum, inode, img, ind, was);
  }

  /** get_file_double_indirect_block_bitmap. */
  method MarkDoubleIndirect(d: Disk, bm: array<int>, inode: Inode, fileBlockNum: nat, ghost was: seq<int>)
    requires INDIRECT_MAX < fileBlockNum <= DOUBLE_INDIRECT_MAX
    requires Walkable(inode, d.blocks, fileBlockNum, bm.Length) && bm[..] == was
    modifies bm
    ensures Painted(was, bm[..], Marked(inode, d.blocks, fileBlockNum, fileBlockNum, fileBlockNum))
  {
    hide Painted, Marked, DataBlock;
    ghost var n, img := fileBlockNum, d.blocks;
    MarkDirect(bm, inode, NDIR, img, n, was);
    var ind, dind := inode.block[IND_BLOCK], inode.block[DIND_BLOCK];
    PointersOccupy(inode, img, n, 0);
    Mark(bm, ind, was, Marked(inode, img, n, NDIR, NDIR));
    MarkedIndirect(inode, img, n, INDIRECT_MAX);
    var level1 := new byte[BLOCK_SIZE];
    d.ReadBlock(ind, level1, 0);
    FirstRun(inode, img, n);
    var k := MarkPointers(bm, level1, NDIR, fileBlockNum, inode, img, ind, was);
    Mark(bm, dind, was, Marked(inode, img, n, INDIRECT_MAX, INDIRECT_MAX));
    MarkSecondLevel(d, bm, inode, fileBlockNum, was);
  }

  /** The nested loops over the double indirect block. */
  method MarkSecondLevel(d: Disk, bm: array<int>, inode: Inode, fileBlockNum: nat, ghost was: seq<int>)
    requires INDIRECT_MAX < fileBlockNum <= DOUBLE_INDIRECT_MAX
    requires Walkable(inode, d.blocks, fileBlockNum, bm.Length)
    requires Painted(was, bm[..], BeforeRound(inode, d.blocks, fileBlockNum, 0))
    modifies bm
    ensures Painted(was, bm[..], Marked(inode, d.blocks, fileBlockNum, fileBlockNum, fileBlockNum))
  {
    hide Painted, Marked, DataBlock, BeforeRound, IsPointerBlock, Readable, Occupies, Pointer;
    ghost var n, img := fileBlockNum, d.blocks;
    var dind := inode.block[DIND_BLOCK];
    PointersOccupy(inode, img, n, 0);
    var level1, level2 := new byte[BLOCK_SIZE], new byte[BLOCK_SIZE];
    d.ReadBlock(dind, level1, 0);
    var k := INDIRECT_MAX;
    var i := 0;
    while i < PER_BLOCK
      invariant 0 <= i < PER_BLOCK && k == INDIRECT_MAX + i * PER_BLOCK < n
      invariant level1[..] == img[dind]
      invariant Painted(was, bm[..], BeforeRound(inode, img, n, i))
    {
      var indirect := Parse4(level1, 4 * i);
      PointerRead(img, dind, i, level1[..]);
      PointersOccupy(inode, img, n, i);
      Mark(bm, indirect, was, BeforeRound(inode, img, n, i));
      MarkedRound(inode, img, n, i);
      d.ReadBlock(indirect, level2, 0);
      SecondRun(inode, img, n, i);
      k := MarkPointers(bm, level2, INDIRECT_MAX + i * PER_BLOCK, fileBlockNum, inode, img, indirect, was);
      if k == fileBlockNum { return; }
      NextRound(inode, img, n, i);
      i := i + 1;
    }
  }

  lemma PointerRead(img: Image, id: nat, i: nat, block: seq<byte>)
    requires id < |img| && i < PER_BLOCK && block == img[id]
    ensures 4 * i + 4 <= |block| && U32(block, 4 * i) == Pointer(img, id, i)
  {
  }

  lemma PointersOccupy(inode: Inode, img: Image, n: nat, i: nat)
    requires |inode.block| == N_BLOCKS && Readable(inode, img, n) &&
             INDIRECT_MAX < n <= INDIRECT_MAX + PER_BLOCK * PER_BLOCK
    requires i < PER_BLOCK && INDIRECT_MAX + i * PER_BLOCK < n
    ensures Occupies(inode, img, n, inode.block[IND_BLOCK]) && Occupies(inode, img, n, inode.block[DIND_BLOCK])
    ensures inode.block[IND_BLOCK] < |img| && inode.block[DIND_BLOCK] < |img|
    ensures Pointer(img, inode.block[DIND_BLOCK], i) < |img|
    ensures Occupies(inode, img, n, Pointer(img, inode.block[DIND_BLOCK], i))
  {
  }

  lemma FirstRun(inode: Inode, img: Image, n: nat)
    requires |inode.block| == N_BLOCKS && Readable(inode, img, n) && NDIR < n <= INDIRECT_MAX + PER_BLOCK * PER_BLOCK
    ensures forall j :: 0 <= j < PER_BLOCK && NDIR + j < n ==>
              DataBlock(inode, img, n, NDIR + j) == Pointer(img, inode.block[IND_BLOCK], j)
  {
  }

  lemma SecondRun(inode: Inode, img: Image, n: nat, i: nat)
    requires |inode.block| == N_BLOCKS && Readable(inode, img, n) && n <= INDIRECT_MAX + PER_BLOCK * PER_BLOCK
    requires i < PER_BLOCK && INDIRECT_MAX + i * PER_BLOCK < n
    ensures forall j :: 0 <= j < PER_BLOCK && INDIRECT_MAX + i * PER_BLOCK + j < n ==>
              DataBlock(inode, img, n, INDIRECT_MAX + i * PER_BLOCK + j)
              == Pointer(img, Pointer(img, inode.block[DIND_BLOCK], i), j)
  {
  }

  /** The blocks that get_file_block_bitmap marks. */
  ghost function FileMarks(inode: Inode, img: Image): iset<nat>
    requires |inode.block| == N_BLOCKS
    requires BlockCount(inode.size) <= DOUBLE_INDIRECT_MAX ==> Readable(inode, img, BlockCount(inode.size))
  {
    var n := BlockCount(inode.size);
    if n <= DOUBLE_INDIRECT_MAX then iset b | Occupies(inode, img, n, b) else iset{}
  }

  /** get_file_block_bitmap marks exactly the file's data and pointer blocks, for
      every size up to the threshold; beyond it, nothing. */
  method MarkFile(d: Disk, bm: array<int>, inode: Inode)
    requires |inode.block| == N_BLOCKS
    requires BlockCount(inode.size) <= DOUBLE_INDIRECT_MAX ==>
               Walkable(inode, d.blocks, BlockCount(inode.size), bm.Length)
    modifies bm
    ensures Painted(old(bm[..]), bm[..], FileMarks(inode, d.blocks))
  {
    var fileBlockNum := BlockCount(inode.size);
    ghost var was := bm[..];
    if fileBlockNum <= NDIR {
      MarkDirect(bm, inode, fileBlockNum, d.blocks, fileBlockNum, was);
    } else if fileBlockNum <= INDIRECT_MAX {
      MarkIndirect(d, bm, inode, fileBlockNum, was);
    } else if fileBlockNum <= DOUBLE_INDIRECT_MAX {
      MarkDoubleIndirect(d, bm, inode, fileBlockNum, was);
    } else {
      return;
    }
    MarkedAll(inode, d.blocks, fileBlockNum);
  }

  /** The threshold against what two levels of indirection can reach: a file whose
      blocks all exist is marked exactly when it is not in the window between. */
  lemma ThresholdIff(inode: Inode, img: Image)
    requires |inode.block| == N_BLOCKS && BlockCount(inode.size) <= INDIRECT_MAX + PER_BLOCK * PER_BLOCK
    requires Readable(inode, img, BlockCount(inode.size))
    ensures FileMarks(inode, img) == (iset b | Occupies(inode, img, BlockCount(inode.size), b))
            <==> BlockCount(inode.size) <= DOUBLE_INDIRECT_MAX
  {
    var n := BlockCount(inode.size);
    if n > DOUBLE_INDIRECT_MAX {
      var b := inode.block[IND_BLOCK];
      assert Occupies(inode, img, n, b);
      assert b !in FileMarks(inode, img);
    }
  }

  /** Byte `o` of the file can be reached: the pointer blocks on its way are on the disk. */
  ghost predicate Reaches(inode: Inode, img: Image, o: nat)
    requires |inode.block| == N_BLOCKS
  {
    && (12 * 1024 <= o < 268 * 1024 ==> inode.block[12] < |img|)
    && (268 * 1024 <= o < 65804 * 1024 ==>
          inode.block[13] < |img| && U32(img[inode.block[13]], 4 * ((o / 1024 - 268) / 256)) < |img|)
  }

  /** `b` is the block that holds byte `o`, or a pointer block on the way to it: blocks
      hold 1024 bytes or 256 pointers; 12 blocks are named by the inode itself, 256 more by
      the block that pointer 12 names, and the rest by the blocks that the block named by
      pointer 13 names. */
  ghost predicate OnTheWay(inode: Inode, img: Image, o: nat, b: nat)
    requires |inode.block| == N_BLOCKS && Reaches(inode, img, o) && o < 65804 * 1024
  {
    var k := o / 1024;
    if k < 12 then b == inode.block[k]
    else if k < 268 then b == inode.block[12] || b == U32(img[inode.block[12]], 4 * (k - 12))
    else
      var p := U32(img[inode.block[13]], 4 * ((k - 268) / 256));
      b == inode.block[13] || b == p || b == U32(img[p], 4 * ((k - 268) % 256))
  }

  /** Logical blocks are 1024 bytes of the file each: the count is right for every size
      that does not make the 32-bit sum wrap. */
  lemma CountCovers(size: nat, k: nat)
    requires size + 1023 < U32_LIMIT
    ensures k < BlockCount(size) <==> 1024 * k < size
  {
  }

  /** Near the end of the 32-bit range the sum wraps, and no block is counted at all. */
  lemma CountWraps(size: nat)
    requires U32_LIMIT <= size + 1023 && size < U32_LIMIT
    ensures BlockCount(size) == 0
  {
  }

  /** The pointer blocks for every byte are those for every logical block. */
  lemma ReachesAll(inode: Inode, img: Image, size: nat)
    requires |inode.block| == N_BLOCKS && size <= 65549 * 1024
    requires forall o: nat :: o < size ==> Reaches(inode, img, o)
    ensures BlockCount(size) <= DOUBLE_INDIRECT_MAX && Readable(inode, img, BlockCount(size))
  {
    var n := BlockCount(size);
    CountCovers(size, 65549);
    CountCovers(size, NDIR);
    CountCovers(size, INDIRECT_MAX);
    if n > NDIR { assert Reaches(inode, img, 12 * 1024); }
    if n > INDIRECT_MAX { assert Reaches(inode, img, 268 * 1024); }
    forall j | 0 <= j < PER_BLOCK && INDIRECT_MAX + j * PER_BLOCK < n
      ensures inode.block[DIND_BLOCK] < |img| && Pointer(img, inode.block[DIND_BLOCK], j) < |img|
    {
      CountCovers(size, INDIRECT_MAX + j * PER_BLOCK);
      SecondLevelByte(j);
      assert Reaches(inode, img, (268 + j * 256) * 1024);
    }
  }

  lemma SecondLevelByte(j: nat)
    ensures ((268 + j * 256) * 1024 / 1024 - 268) / 256 == j
  {
  }

  /** What a data block and the pointer blocks before it are, for the byte `o` of block `k`. */
  lemma WayTo(inode: Inode, img: Image, n: nat, o: nat, b: nat)
    requires |inode.block| == N_BLOCKS && Readable(inode, img, n) && n <= DOUBLE_INDIRECT_MAX
    requires o / 1024 < n && Reaches(inode, img, o)
    ensures o < 65804 * 1024
    ensures DataBlock(inode, img, n, o / 1024) == b ==> OnTheWay(inode, img, o, b)
    ensures OnTheWay(inode, img, o, b) ==> Occupies(inode, img, n, b)
  {
    var k := o / 1024;
    assert OnTheWay(inode, img, o, b) && DataBlock(inode, img, n, k) != b ==> IsPointerBlock(inode, img, n, b);
  }

  /** A pointer block is on the way to the first byte behind it. */
  lemma PointerWay(inode: Inode, img: Image, size: nat, b: nat)
    requires |inode.block| == N_BLOCKS && size <= 65549 * 1024
    requires forall o: nat :: o < size ==> Reaches(inode, img, o)
    requires Readable(inode, img, BlockCount(size)) && IsPointerBlock(inode, img, BlockCount(size), b)
    ensures exists o: nat :: o < size && OnTheWay(inode, img, o, b)
  {
    var n := BlockCount(size);
    CountCovers(size, NDIR);
    CountCovers(size, INDIRECT_MAX);
    if b == inode.block[IND_BLOCK] {
      assert OnTheWay(inode, img, 12 * 1024, b);
    } else if b == inode.block[DIND_BLOCK] {
      assert OnTheWay(inode, img, 268 * 1024, b);
    } else {
      var j :| 0 <= j < PER_BLOCK && INDIRECT_MAX + j * PER_BLOCK < n &&
        b == Pointer(img, inode.block[DIND_BLOCK], j);
      CountCovers(size, INDIRECT_MAX + j * PER_BLOCK);
      SecondLevelByte(j);
      assert OnTheWay(inode, img, (268 + j * 256) * 1024, b);
    }
  }

  /** The blocks that hold some byte of the file or lie on the way to one. */
  ghost function ByteBlocks(inode: Inode, img: Image): iset<nat>
    requires |inode.block| == N_BLOCKS && inode.size <= 65549 * 1024
    requires forall o: nat :: o < inode.size ==> Reaches(inode, img, o)
  {
    iset b: nat | ForSomeByte(inode, img, b)
  }

  ghost predicate ForSomeByte(inode: Inode, img: Image, b: nat)
    requires |inode.block| == N_BLOCKS && inode.size <= 65549 * 1024
    requires forall o: nat :: o < inode.size ==> Reaches(inode, img, o)
  {
    exists o: nat :: o < inode.size && OnTheWay(inode, img, o, b)
  }

  /** get_file_block_bitmap marks exactly the blocks that hold a byte of the file and the
      pointer blocks on the way to one, for files of up to 65549 full blocks; for larger
      ones, those included for which the 32-bit sum wraps, it marks none. */
  lemma FileMarksBytes(inode: Inode, img: Image)
    requires |inode.block| == N_BLOCKS && inode.size < U32_LIMIT
    requires inode.size <= 65549 * 1024 ==> forall o: nat :: o < inode.size ==> Reaches(inode, img, o)
    ensures BlockCount(inode.size) <= DOUBLE_INDIRECT_MAX ==> Readable(inode, img, BlockCount(inode.size))
    ensures FileMarks(inode, img) == if inode.size <= 65549 * 1024 then ByteBlocks(inode, img) else iset{}
  {
    var n := BlockCount(inode.size);
    if inode.size <= 65549 * 1024 {
      ReachesAll(inode, img, inode.size);
      forall b: nat
        ensures Occupies(inode, img, n, b) <==> b in ByteBlocks(inode, img)
      {
        OccupiesBytes(inode, img, b);
      }
    } else if inode.size + 1023 < U32_LIMIT {
      CountCovers(inode.size, DOUBLE_INDIRECT_MAX);
    } else {
      CountWraps(inode.size);
      assert forall b: nat :: !Occupies(inode, img, 0, b);
    }
  }

  lemma OccupiesBytes(inode: Inode, img: Image, b: nat)
    requires |inode.block| == N_BLOCKS && inode.size <= 65549 * 1024
    requires forall o: nat :: o < inode.size ==> Reaches(inode, img, o)
    requires BlockCount(inode.size) <= DOUBLE_INDIRECT_MAX && Readable(inode, img, BlockCount(inode.size))
    ensures Occupies(inode, img, BlockCount(inode.size), b) <==> b in ByteBlocks(inode, img)
  {
    hide OnTheWay, IsPointerBlock, Readable, Reaches, DataBlock;
    var n := BlockCount(inode.size);
    if Occupies(inode, img, n, b) {
      if IsPointerBlock(inode, img, n, b) {
        PointerWay(inode, img, inode.size, b);
      } else {
        var k: nat :| k < n && DataBlock(inode, img, n, k) == b;
        CountCovers(inode.size, k);
        assert 1024 * k / 1024 == k;
        WayTo(inode, img, n, 1024 * k, b);
      }
    }
    if b in ByteBlocks(inode, img) {
      var o: nat :| o < inode.size && OnTheWay(inode, img, o, b);
      CountCovers(inode.size, o / 1024);
      WayTo(inode, img, n, o, b);
    }
  }
}
