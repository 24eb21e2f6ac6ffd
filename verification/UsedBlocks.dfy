/** get_true_block_bitmap: the blocks that the tree uses. */
module UsedBlocks {
  import opened Bytes
  import opened DirBlock
  import opened Disk
  import opened Inode
  import opened Tree
  import opened Layout
  import opened Walk
  import opened FileBlocks

  ghost function BlocksOf(P: Places, n: nat): iset<nat> {
    iset b | n in P && b in P[n]
  }

  /** What the walk asks of a non-directory: a link, or a regular file whose block
      numbers are below `limit`. */
  ghost predicate FileSound(inode: Inode, img: Image, limit: nat) {
    && |inode.block| == N_BLOCKS && !inode.IsDir()
    && (inode.IsLnk() || (inode.IsReg() &&
         (BlockCount(inode.size) <= DOUBLE_INDIRECT_MAX ==> Walkable(inode, img, BlockCount(inode.size), limit))))
  }

  /** The entry's type agrees with the inode's mode, and a file is sound. */
  ghost predicate EntrySound(g: Geometry, img: Image, e: Entry, limit: nat)
    requires Tables(g, |img|)
  {
    && g.HasInode(e.ino)
    && (if e.IsDir() then InodeAt(g, img, e.ino).IsDir() else FileSound(InodeAt(g, img, e.ino), img, limit))
  }

  ghost predicate ListSound(g: Geometry, img: Image, es: seq<Entry>, limit: nat)
    requires Tables(g, |img|)
  {
    forall k :: 0 <= k < |es| ==> EntrySound(g, img, es[k], limit)
  }

  ghost predicate AllSound(g: Geometry, img: Image, P: Places, D: Dirs, limit: nat)
    requires Tables(g, |img|)
  {
    && (forall n :: n in D ==> ListSound(g, img, Kids(D, n), limit))
    && (forall n, i :: n in P && 0 <= i < |P[n]| ==> P[n][i] < limit)
  }

  /** Blocks that file `x` adds. */
  ghost function FileUsed(g: Geometry, img: Image, x: nat): iset<nat>
    requires Tables(g, |img|)
  {
    if g.HasInode(x) && InodeAt(g, img, x).IsReg()
       && (BlockCount(InodeAt(g, img, x).size) <= DOUBLE_INDIRECT_MAX ==>
             Readable(InodeAt(g, img, x), img, BlockCount(InodeAt(g, img, x).size)))
    then FileMarks(InodeAt(g, img, x), img) else iset{}
  }

  /** Blocks used below a list of entries whose subdirectories unfold to `f`. */
  ghost function EntriesUsed(g: Geometry, img: Image, P: Places, D: Dirs, es: seq<Entry>, f: Forest): iset<nat>
    requires Tables(g, |img|)
    decreases f, |es|
  {
    if es == [] then iset{}
    else if es[0].IsDir() && f.Dir? then
      BlocksOf(P, f.ino) + EntriesUsed(g, img, P, D, Kids(D, f.ino), f.kids) +
        EntriesUsed(g, img, P, D, es[1..], f.rest)
    else FileUsed(g, img, es[0].ino) + EntriesUsed(g, img, P, D, es[1..], f)
  }

  ghost function TreeUsed(g: Geometry, img: Image, P: Places, D: Dirs, n: nat, f: Forest): iset<nat>
    requires Tables(g, |img|)
  {
    BlocksOf(P, n) + EntriesUsed(g, img, P, D, Kids(D, n), f)
  }

  /** The same set without recursion: blocks of the tree's directories and of the
      files they name. */
  ghost predicate Uses(g: Geometry, img: Image, P: Places, D: Dirs, nodes: set<nat>, b: nat)
    requires Tables(g, |img|)
  {
    exists n :: n in nodes && UsedBy(g, img, P, D, n, b)
  }

  ghost predicate UsedBy(g: Geometry, img: Image, P: Places, D: Dirs, n: nat, b: nat)
    requires Tables(g, |img|)
  {
    b in BlocksOf(P, n) || exists e :: e in Kids(D, n) && !e.IsDir() && b in FileUsed(g, img, e.ino)
  }

  lemma {:induction false} EntriesUsedIff(g: Geometry, img: Image, P: Places, D: Dirs, es: seq<Entry>, f: Forest,
                                          b: nat)
    requires Tables(g, |img|) && Unfolds(D, es, f)
    ensures b in EntriesUsed(g, img, P, D, es, f) <==>
            || Uses(g, img, P, D, Nodes(f), b)
            || exists e :: e in es && !e.IsDir() && b in FileUsed(g, img, e.ino)
    decreases f, |es|
  {
    if es != [] {
      var t := es[1..];
      if es[0].IsDir() {
        EntriesUsedIff(g, img, P, D, Kids(D, f.ino), f.kids, b);
        EntriesUsedIff(g, img, P, D, t, f.rest, b);
        NodeUse(g, img, P, D, f, b);
        assert forall e :: e in es && !e.IsDir() ==> e in t;
        assert forall e :: e in t ==> e in es;
      } else {
        EntriesUsedIff(g, img, P, D, t, f, b);
        assert es[0] in es;
        assert forall e :: e in es ==> e == es[0] || e in t;
        assert forall e :: e in t ==> e in es;
      }
    }
  }

  lemma NodeUse(g: Geometry, img: Image, P: Places, D: Dirs, f: Forest, b: nat)
    requires Tables(g, |img|) && f.Dir?
    ensures Uses(g, img, P, D, Nodes(f), b) <==>
            UsedBy(g, img, P, D, f.ino, b) || Uses(g, img, P, D, Nodes(f.kids), b) ||
              Uses(g, img, P, D, Nodes(f.rest), b)
  {
  }

  /** The walk's marks are exactly the blocks of the directories it reaches and of
      the files they name. */
  lemma TreeUsedIff(g: Geometry, img: Image, P: Places, D: Dirs, n: nat, f: Forest, b: nat)
    requires Tables(g, |img|) && Unfolds(D, Kids(D, n), f)
    ensures b in TreeUsed(g, img, P, D, n, f) <==> Uses(g, img, P, D, Nodes(Dir(n, f, Nil)), b)
  {
    EntriesUsedIff(g, img, P, D, Kids(D, n), f, b);
    NodeUse(g, img, P, D, Dir(n, f, Nil), b);
    assert Nodes(Nil) == {};
  }

  /** File `x` is regular by its mode, of at most 65549 blocks, and `b` holds one of its
      bytes or is a pointer block on the way to one. */
  ghost predicate FileHas(g: Geometry, img: Image, x: nat, b: nat)
    requires Tables(g, |img|) && g.HasInode(x)
  {
    var v := InodeAt(g, img, x);
    && 0x8000 <= v.mode < 0x9000 && v.size <= 65549 * 1024
    && exists o: nat :: o < v.size && Reaches(v, img, o) && OnTheWay(v, img, o, b)
  }

  /** Pointer blocks that can be read lead to every byte. */
  lemma ReadableReaches(v: Inode, img: Image)
    requires |v.block| == N_BLOCKS && v.size <= 65549 * 1024 && Readable(v, img, BlockCount(v.size))
    ensures forall o: nat :: o < v.size ==> Reaches(v, img, o)
  {
    forall o: nat | o < v.size
      ensures Reaches(v, img, o)
    {
      CountCovers(v.size, NDIR);
      CountCovers(v.size, INDIRECT_MAX);
      if 268 * 1024 <= o {
        var j := (o / 1024 - 268) / 256;
        CountCovers(v.size, INDIRECT_MAX + j * PER_BLOCK);
        assert Pointer(img, v.block[DIND_BLOCK], j) < |img|;
      }
    }
  }

  /** What a file adds, on bytes. */
  lemma FileUsedBytes(g: Geometry, img: Image, x: nat, limit: nat, b: nat)
    requires Tables(g, |img|) && g.HasInode(x) && FileSound(InodeAt(g, img, x), img, limit)
    ensures b in FileUsed(g, img, x) <==> FileHas(g, img, x, b)
  {
    var v := InodeAt(g, img, x);
    assert v.size < U32_LIMIT;
    hide InodeAt, Tables, OnTheWay, Reaches, Readable, Occupies, InLimit, DataBlock;
    assert v.IsReg() <==> 0x8000 <= v.mode < 0x9000;
    if v.IsReg() {
      if v.size <= 65549 * 1024 {
        CountCovers(v.size, 65549);
        ReadableReaches(v, img);
      }
      FileMarksBytes(v, img);
      hide FileMarks;
    }
  }

  /** The blocks that the walk marks: those of the directories it reaches, and those that
      hold the bytes of the regular files they name below the dots, or lie on the way there. */
  lemma TreeUsedBytes(g: Geometry, img: Image, P: Places, D: Dirs, n: nat, f: Forest, limit: nat, b: nat)
    requires Tables(g, |img|) && Unfolds(D, Kids(D, n), f) && AllSound(g, img, P, D, limit)
    ensures forall m, e :: e in Kids(D, m) && e.fileType != 2 ==> g.HasInode(e.ino)
    ensures b in TreeUsed(g, img, P, D, n, f) <==>
            exists m :: m in Nodes(Dir(n, f, Nil)) &&
                        ((m in P && b in P[m]) ||
                         exists e :: e in Kids(D, m) && e.fileType != 2 && FileHas(g, img, e.ino, b))
  {
    hide InodeAt, Tables, FileHas, FileUsed, FileSound, TreeUsed, Unfolds;
    TreeUsedIff(g, img, P, D, n, f, b);
    forall m, e | e in Kids(D, m) && e.fileType != 2
      ensures g.HasInode(e.ino) && (b in FileUsed(g, img, e.ino) <==> FileHas(g, img, e.ino, b))
    {
      FileEntrySound(g, img, P, D, m, e, limit);
      FileUsedBytes(g, img, e.ino, limit, b);
    }
  }

  lemma FileEntrySound(g: Geometry, img: Image, P: Places, D: Dirs, m: nat, e: Entry, limit: nat)
    requires Tables(g, |img|) && AllSound(g, img, P, D, limit) && e in Kids(D, m) && e.fileType != 2
    ensures g.HasInode(e.ino) && FileSound(InodeAt(g, img, e.ino), img, limit)
  {
    hide InodeAt, Tables, FileSound;
    assert m in D;
    assert ListSound(g, img, Kids(D, m), limit);
  }

  /** Block `i` of directory `n` onwards. */
  ghost function BlocksFrom(P: Places, n: nat, i: nat): iset<nat> {
    iset b | n in P && i <= |P[n]| && b in P[n][i..]
  }

  lemma BlocksFromStep(P: Places, n: nat, i: nat)
    requires n in P && i < |P[n]|
    ensures BlocksFrom(P, n, i) == iset{P[n][i]} + BlocksFrom(P, n, i + 1)
    ensures BlocksFrom(P, n, 0) == BlocksOf(P, n) && BlocksFrom(P, n, |P[n]|) == iset{}
  {
    assert P[n][i..] == [P[n][i]] + P[n][i + 1..];
    assert P[n][0..] == P[n];
  }

  /** What is still to be marked inside one directory. */
  ghost predicate ToGo(goal: iset<nat>, S: iset<nat>, rest: iset<nat>) { goal == S + rest }

  lemma UsedHead(g: Geometry, img: Image, P: Places, D: Dirs, es: seq<Entry>, tail: seq<Entry>, f: Forest)
    requires Tables(g, |img|) && es != [] && Unfolds(D, es + tail, f)
    ensures EntriesUsed(g, img, P, D, es + tail, f) ==
            if es[0].IsDir()
            then TreeUsed(g, img, P, D, f.ino, f.kids) + EntriesUsed(g, img, P, D, es[1..] + tail, f.rest)
            else FileUsed(g, img, es[0].ino) + EntriesUsed(g, img, P, D, es[1..] + tail, f)
  {
    assert (es + tail)[1..] == es[1..] + tail;
  }

  lemma ToGoStep(goal: iset<nat>, S: iset<nat>, a: iset<nat>, rest: iset<nat>)
    requires ToGo(goal, S, a + rest)
    ensures ToGo(goal, S + a, rest)
  {
  }

  lemma SoundHead(g: Geometry, img: Image, es: seq<Entry>, limit: nat)
    requires Tables(g, |img|) && ListSound(g, img, es, limit) && es != []
    ensures EntrySound(g, img, es[0], limit) && ListSound(g, img, es[1..], limit)
  {
  }

  /** The kinds of inode the walk meets. */
  ghost predicate NodeSound(g: Geometry, img: Image, D: Dirs, x: nat, f: Forest, isDir: bool, limit: nat)
    requires Tables(g, |img|)
  {
    && g.HasInode(x)
    && (if isDir then x in D && Unfolds(D, Kids(D, x), f) && InodeAt(g, img, x).IsDir()
        else f.Nil? && FileSound(InodeAt(g, img, x), img, limit))
  }

  ghost function NodeUsed(g: Geometry, img: Image, P: Places, D: Dirs, x: nat, f: Forest, isDir: bool): iset<nat>
    requires Tables(g, |img|)
  {
    if isDir then TreeUsed(g, img, P, D, x, f) else FileUsed(g, img, x)
  }

  lemma SortNode(g: Geometry, img: Image, D: Dirs, x: nat, f: Forest, isDir: bool, limit: nat)
    requires Tables(g, |img|) && NodeSound(g, img, D, x, f, isDir, limit)
    ensures g.HasInode(x)
    ensures var inode := InodeAt(g, img, x);
            && (inode.IsLnk() ==> !isDir && FileUsed(g, img, x) == iset{})
            && (inode.IsReg() ==> !isDir && FileUsed(g, img, x) == FileMarks(inode, img)
                                  && (BlockCount(inode.size) <= DOUBLE_INDIRECT_MAX ==>
                                     Walkable(inode, img, BlockCount(inode.size), limit)))
            && (!inode.IsLnk() && !inode.IsReg() ==> isDir)
  {
  }

  /** Painting over a painting. */
  lemma PaintTwice(was: seq<int>, mid: seq<int>, now: seq<int>, S: iset<nat>, T: iset<nat>)
    requires Painted(was, mid, S) && Painted(mid, now, T)
    ensures Painted(was, now, S + T)
  {
  }

  lemma AddNothing(S: iset<nat>)
    ensures S + iset{} == S
  {
  }

  /** get_true_block_bitmap. */
  method MarkTree(d: Disk, bm: array<int>, x: nat, ghost P: Places, ghost D: Dirs, ghost f: Forest, ghost isDir: bool,
                  ghost was: seq<int>, ghost S: iset<nat>)
    returns (ghost S': iset<nat>)
    requires World(d.g, d.blocks, P, D) && Tables(d.g, |d.blocks|) && AllSound(d.g, d.blocks, P, D, bm.Length)
    requires NodeSound(d.g, d.blocks, D, x, f, isDir, bm.Length)
    requires Painted(was, bm[..], S)
    modifies bm
    ensures S' == S + NodeUsed(d.g, d.blocks, P, D, x, f, isDir) && Painted(was, bm[..], S')
    decreases isDir, Size(f), 2
  {
    hide *;
    SortNode(d.g, d.blocks, D, x, f, isDir, bm.Length);
    var inode := ReadInode(d, x);
    NodeUsedIs(d.g, d.blocks, P, D, x, f, isDir);
    S' := S + NodeUsed(d.g, d.blocks, P, D, x, f, isDir);
    if inode.IsLnk() {
      AddNothing(S);
      return;
    } else if inode.IsReg() {
      ghost var mid := bm[..];
      MarkFile(d, bm, inode);
      PaintTwice(was, mid, bm[..], S, FileMarks(inode, d.blocks));
      return;
    }
    ghost var goal, R, rest := S', S, f;
    var dirBlock := new byte[BLOCK_SIZE];
    DirSoundFacts(d.g, d.blocks, D, x, f, bm.Length);
    WalkReads(d.g, d.blocks, P, D, x, 0);
    StartMarking(d.g, d.blocks, P, D, x, f, S);
    var i := 0;
    while i < N_BLOCKS
      invariant 0 <= i <= |P[x]| <= N_BLOCKS && |D[x]| == |P[x]|
      invariant Marking(d.g, d.blocks, P, D, x, i, rest, goal, R) && Size(rest) <= Size(f)
      invariant Painted(was, bm[..], R)
    {
      WalkReads(d.g, d.blocks, P, D, x, i);
      var blockId := inode.block[i];
      if blockId == 0 { break; }
      InDirLimit(d.g, d.blocks, P, D, x, i, bm.Length);
      PaintedLength(was, bm[..], R);
      Mark(bm, blockId, was, R);
      d.ReadBlock(blockId, dirBlock, 0);
      EnterMarking(d.g, d.blocks, P, D, x, i, rest, goal, R);
      rest, R := MarkBlock(d, bm, dirBlock, x, i, d.blocks[blockId], P, D, rest, was, goal, R + iset{blockId});
      LeaveMarking(d.g, d.blocks, P, D, x, i, rest, goal, R);
      i := i + 1;
    }
    EndMarking(d.g, d.blocks, P, D, x, i, rest, goal, R);
  }

  /** The outer loop's state, `i` blocks in. */
  ghost predicate Marking(g: Geometry, img: Image, P: Places, D: Dirs, n: nat, i: nat, f: Forest, goal: iset<nat>,
                          R: iset<nat>)
    requires Tables(g, |img|)
  {
    && n in D && n in P && i <= |D[n]| == |P[n]| && Unfolds(D, From(D[n], i), f)
    && ToGo(goal, R, BlocksFrom(P, n, i) + EntriesUsed(g, img, P, D, From(D[n], i), f))
  }

  /** The inner loop's state: `es` left in block `i`, `f` the subtrees left. */
  ghost predicate Painting(g: Geometry, img: Image, P: Places, D: Dirs, n: nat, i: nat, es: seq<Entry>, f: Forest,
                           goal: iset<nat>, R: iset<nat>)
    requires Tables(g, |img|)
  {
    && n in D && n in P && i < |D[n]| == |P[n]| && Unfolds(D, es + Flat(D[n][i + 1..]), f)
    && ToGo(goal, R, BlocksFrom(P, n, i + 1) + EntriesUsed(g, img, P, D, es + Flat(D[n][i + 1..]), f))
  }

  lemma NodeUsedIs(g: Geometry, img: Image, P: Places, D: Dirs, x: nat, f: Forest, isDir: bool)
    requires Tables(g, |img|)
    ensures NodeUsed(g, img, P, D, x, f, isDir) == if isDir then TreeUsed(g, img, P, D, x, f) else FileUsed(g, img, x)
  {
  }

  lemma DirSoundFacts(g: Geometry, img: Image, D: Dirs, x: nat, f: Forest, limit: nat)
    requires Tables(g, |img|) && NodeSound(g, img, D, x, f, true, limit)
    ensures x in D && Unfolds(D, Kids(D, x), f)
  {
  }

  lemma InDirLimit(g: Geometry, img: Image, P: Places, D: Dirs, n: nat, i: nat, limit: nat)
    requires Tables(g, |img|) && AllSound(g, img, P, D, limit) && n in P && i < |P[n]|
    ensures P[n][i] < limit
  {
  }

  lemma PaintedLength(was: seq<int>, now: seq<int>, S: iset<nat>)
    requires Painted(was, now, S)
    ensures |now| == |was|
  {
  }

  lemma StartMarking(g: Geometry, img: Image, P: Places, D: Dirs, n: nat, f: Forest, S: iset<nat>)
    requires Tables(g, |img|) && n in D && n in P && |D[n]| == |P[n]| && Unfolds(D, Kids(D, n), f)
    ensures Marking(g, img, P, D, n, 0, f, S + TreeUsed(g, img, P, D, n, f), S)
  {
    assert P[n][0..] == P[n];
    assert BlocksFrom(P, n, 0) == BlocksOf(P, n);
  }

  lemma EnterMarking(g: Geometry, img: Image, P: Places, D: Dirs, n: nat, i: nat, f: Forest, goal: iset<nat>,
                     R: iset<nat>)
    requires Tables(g, |img|) && Marking(g, img, P, D, n, i, f, goal, R) && i < |D[n]|
    ensures Painting(g, img, P, D, n, i, Drop(D[n][i], Skipped(i, 0)), f, goal, R + iset{P[n][i]})
  {
    hide EntriesUsed, Unfolds;
    FromStep(D[n], i);
    BlocksFromStep(P, n, i);
  }

  lemma LeaveMarking(g: Geometry, img: Image, P: Places, D: Dirs, n: nat, i: nat, f: Forest, goal: iset<nat>,
                     R: iset<nat>)
    requires Tables(g, |img|) && Painting(g, img, P, D, n, i, [], f, goal, R)
    ensures Marking(g, img, P, D, n, i + 1, f, goal, R)
  {
    hide EntriesUsed, Unfolds;
    FromStep(D[n], i);
    assert [] + Flat(D[n][i + 1..]) == Flat(D[n][i + 1..]);
  }

  lemma EndMarking(g: Geometry, img: Image, P: Places, D: Dirs, n: nat, i: nat, f: Forest, goal: iset<nat>,
                   R: iset<nat>)
    requires Tables(g, |img|) && Marking(g, img, P, D, n, i, f, goal, R) && i == |D[n]|
    ensures R == goal
  {
    assert D[n][i..] == [];
    assert P[n][i..] == [];
  }

  /** The inner loop of get_true_block_bitmap: one block of directory `n`. */
  method MarkBlock(d: Disk, bm: array<int>, dirBlock: array<byte>, n: nat, i: nat, ghost block: Block,
                   ghost P: Places, ghost D: Dirs, ghost f: Forest, ghost was: seq<int>, ghost goal: iset<nat>,
                     ghost S: iset<nat>)
    returns (ghost rest: Forest, ghost R: iset<nat>)
    requires Tables(d.g, |d.blocks|) && n in D && i < |D[n]| && dirBlock as object != bm
    requires Painting(d.g, d.blocks, P, D, n, i, Drop(D[n][i], Skipped(i, 0)), f, goal, S) && Painted(was, bm[..], S)
    requires dirBlock[..] == block && BlockFrom(block, 0, D[n][i])
    requires World(d.g, d.blocks, P, D) && AllSound(d.g, d.blocks, P, D, bm.Length)
    modifies bm
    ensures Painting(d.g, d.blocks, P, D, n, i, [], rest, goal, R) && Painted(was, bm[..], R) && Size(rest) <= Size(f)
    decreases true, Size(f), 1
  {
    hide World, AllSound, Painting, Painted, Unfolds, Flat, Drop, Skipped, Tables, ListSound;
    ghost var es := D[n][i];
    rest, R := f, S;
    BlockListSound(d.g, d.blocks, P, D, n, i, bm.Length);
    var offset, count := 0, 0;
    var entry := Entry(0, 0, 0, []);
    while offset < BLOCK_SIZE
      invariant dirBlock[..] == block && 0 <= offset <= BLOCK_SIZE && BlockFrom(block, offset, es)
      invariant ListSound(d.g, d.blocks, Drop(es, Skipped(i, count)), bm.Length)
      invariant Painting(d.g, d.blocks, P, D, n, i, Drop(es, Skipped(i, count)), rest, goal, R)
      invariant Painted(was, bm[..], R) && Size(rest) <= Size(f)
      decreases BLOCK_SIZE - offset
    {
      NextRecord(block, offset, es);
      var len;
      len, entry := ReadDirEntry(dirBlock, offset, entry);
      if len < 0 { break; }
      rest, R := MarkEntry(d, bm, entry, n, i, count, P, D, es, rest, was, goal, R);
      es := es[1..];
      offset := offset + len;
      count := count + 1;
    }
    DropNothing(Skipped(i, count));
  }

  lemma BlockListSound(g: Geometry, img: Image, P: Places, D: Dirs, n: nat, i: nat, limit: nat)
    requires Tables(g, |img|) && AllSound(g, img, P, D, limit) && n in D && i < |D[n]|
    ensures ListSound(g, img, Drop(D[n][i], Skipped(i, 0)), limit)
  {
    var es := Drop(D[n][i], Skipped(i, 0));
    forall k | 0 <= k < |es|
      ensures EntrySound(g, img, es[k], limit)
    {
      EntryInKids(D, n, i, k);
    }
  }

  lemma {:induction false} EntryInFlat(bs: seq<seq<Entry>>, i: nat, e: Entry)
    requires i < |bs| && e in bs[i]
    ensures e in Flat(bs)
  {
    if i > 0 { EntryInFlat(bs[1..], i - 1, e); }
  }

  lemma EntryInKids(D: Dirs, n: nat, i: nat, k: nat)
    requires n in D && i < |D[n]| && k < |Drop(D[n][i], Skipped(i, 0))|
    ensures Drop(D[n][i], Skipped(i, 0))[k] in Kids(D, n)
  {
    if i > 0 { EntryInFlat(D[n][1..], i - 1, D[n][i][k]); }
  }

  lemma PaintingHead(g: Geometry, img: Image, P: Places, D: Dirs, n: nat, i: nat, es: seq<Entry>, f: Forest,
                     goal: iset<nat>, S: iset<nat>, limit: nat)
    returns (kids: Forest, rest: Forest)
    requires Tables(g, |img|) && es != [] && EntrySound(g, img, es[0], limit) &&
             Painting(g, img, P, D, n, i, es, f, goal, S)
    ensures NodeSound(g, img, D, es[0].ino, kids, es[0].IsDir(), limit)
    ensures Painting(g, img, P, D, n, i, es[1..], rest, goal,
            S + NodeUsed(g, img, P, D, es[0].ino, kids, es[0].IsDir()))
    ensures (es[0].IsDir() ==> Size(kids) < Size(f)) && Size(rest) <= Size(f)
  {
    hide EntriesUsed, TreeUsed, FileUsed, Flat, FileSound;
    var tail := Flat(D[n][i + 1..]);
    UnfoldHead(D, es, tail, f);
    UsedHead(g, img, P, D, es, tail, f);
    var more := BlocksFrom(P, n, i + 1);
    if es[0].IsDir() {
      kids, rest := f.kids, f.rest;
      Shuffle(more, TreeUsed(g, img, P, D, f.ino, f.kids), EntriesUsed(g, img, P, D, es[1..] + tail, f.rest));
      ToGoStep(goal, S, TreeUsed(g, img, P, D, f.ino, f.kids),
        more + EntriesUsed(g, img, P, D, es[1..] + tail, f.rest));
    } else {
      kids, rest := Nil, f;
      Shuffle(more, FileUsed(g, img, es[0].ino), EntriesUsed(g, img, P, D, es[1..] + tail, f));
      ToGoStep(goal, S, FileUsed(g, img, es[0].ino), more + EntriesUsed(g, img, P, D, es[1..] + tail, f));
    }
  }

  lemma Shuffle(a: iset<nat>, b: iset<nat>, c: iset<nat>)
    ensures a + (b + c) == b + (a + c)
  {
  }

  /** The recursive step, taken past the first two entries of the first block. */
  method MarkEntry(d: Disk, bm: array<int>, entry: Entry, n: nat, i: nat, count: nat,
                   ghost P: Places, ghost D: Dirs, ghost es: seq<Entry>, ghost f: Forest, ghost was: seq<int>,
                     ghost goal: iset<nat>, ghost S: iset<nat>)
    returns (ghost rest: Forest, ghost R: iset<nat>)
    requires World(d.g, d.blocks, P, D) && Tables(d.g, |d.blocks|) && AllSound(d.g, d.blocks, P, D, bm.Length)
    requires es != [] && entry == es[0] && ListSound(d.g, d.blocks, Drop(es, Skipped(i, count)), bm.Length)
    requires Painting(d.g, d.blocks, P, D, n, i, Drop(es, Skipped(i, count)), f, goal, S) && Painted(was, bm[..], S)
    modifies bm
    ensures Painting(d.g, d.blocks, P, D, n, i, Drop(es[1..], Skipped(i, count + 1)), rest, goal, R)
    ensures ListSound(d.g, d.blocks, Drop(es[1..], Skipped(i, count + 1)), bm.Length)
    ensures Painted(was, bm[..], R) && Size(rest) <= Size(f)
    decreases true, Size(f), 0
  {
    hide World, AllSound, Painting, Painted, Unfolds, Flat, Drop, Skipped, Tables, ListSound, EntrySound, NodeSound,
         NodeUsed;
    rest, R := f, S;
    DropStep(es, i, count);
    SkippedWhen(i, count);
    if i != 0 || count >= 2 {
      SoundHead(d.g, d.blocks, es, bm.Length);
      ghost var kids;
      kids, rest := PaintingHead(d.g, d.blocks, P, D, n, i, es, f, goal, S, bm.Length);
      R := MarkTree(d, bm, entry.ino, P, D, kids, entry.IsDir(), was, S);
    }
  }
}
