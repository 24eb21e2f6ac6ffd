/** pass1 on the disk: the recursive walk that rewrites wrong dot entries in place. */
module Pass1 {
  import opened Bytes
  import opened DirBlock
  import opened Disk
  import opened Inode
  import opened Tree
  import opened Dots
  import opened Layout
  import opened Walk

  /** `D` after the dot entries of directory `n` that are still to come when
      `count` entries of block `i` have been visited. */
  ghost function DotsLeft(D: Dirs, n: nat, parent: nat, i: nat, count: nat): (E: Dirs) {
    if i != 0 || count >= 2 || n !in D || D[n] == [] then D
    else if count == 1 then D[n := D[n][0 := FixEntry(D[n][0], 1, parent)]]
    else FixDots(D, n, parent)
  }

  function DotInode(n: nat, parent: nat, count: nat): nat {
    if count == 0 then n else parent
  }

  lemma DotsLeftStep(D: Dirs, n: nat, parent: nat, count: nat)
    requires n in D && Headed(D[n]) && count < 2
    ensures var E := SetIno(D, n, count, DotInode(n, parent, count));
            && DotsLeft(E, n, parent, 0, count + 1) == DotsLeft(D, n, parent, 0, count)
            && E[n][0][count + 1..] == D[n][0][count + 1..] && E[n][1..] == D[n][1..]
  {
    var E := SetIno(D, n, count, DotInode(n, parent, count));
    assert DotsLeft(E, n, parent, 0, count + 1)[n] == DotsLeft(D, n, parent, 0, count)[n];
  }

  /** pass1_corrector under pass1's test: entry `k` of the first block of
      directory `n` is given inode `v` unless it has it. */
  method CorrectDot(d: Disk, dirBlock: array<byte>, blockId: nat, offset: nat, entry: Entry, v: nat,
                    ghost P: Places, ghost D: Dirs, ghost n: nat, ghost k: nat)
    returns (ghost E: Dirs)
    requires World(d.g, d.blocks, P, D) && n in D && D[n] != [] && k < |D[n][0]|
    requires n in P && P[n] != [] && blockId == P[n][0] && blockId < |d.blocks|
    requires dirBlock.Length == BLOCK_SIZE && dirBlock[..] == d.blocks[blockId] && BlockFrom(dirBlock[..], 0, D[n][0])
    requires offset == At(dirBlock[..], 0, k) && entry == D[n][0][k] && 0 < v < U32_LIMIT
    modifies d, dirBlock
    ensures E == SetIno(D, n, k, v) && World(d.g, d.blocks, P, E)
    ensures dirBlock[..] == d.blocks[blockId] && |d.blocks| == |old(d.blocks)| &&
            OnlyDirsDiffer(P, old(d.blocks), d.blocks)
    ensures BlockFrom(dirBlock[..], 0, E[n][0])
    ensures At(dirBlock[..], 0, k) == offset
    ensures entry.ino == v ==> d.blocks == old(d.blocks) && d.writes == old(d.writes) && E == D
  {
    hide World, OnlyDirsDiffer, BlockFrom, PutLe, At, Chain, Decode;
    OnlyDirsRefl(P, d.blocks);
    E := SetIno(D, n, k, v);
    if entry.ino != v {
      ghost var was: Block := dirBlock[..];
      RecordFits(was, D[n][0], k);
      WriteNumber(dirBlock, offset, v, 4);
      d.WriteBlock(blockId, dirBlock, 0);
      assert dirBlock[0..0 + BLOCK_SIZE] == dirBlock[..];
      WrittenIno(was, dirBlock[..], D[n][0], k, v);
      BlockRewritten(d.g, old(d.blocks), d.blocks, P, D, n, 0, D[n][0][k := entry.(ino := v)]);
    } else {
      SetInoSame(D, n, k);
    }
  }

  /** The constants of the inner loop: block `i` of directory `n`, whose later
      blocks hold `tail`, in a walk of `n` that is to end in `goal`. */
  datatype Spot = Spot(g: Geometry, P: Places, n: nat, parent: nat, i: nat, tail: seq<Entry>, goal: Dirs)

  /** The inner loop's state, `count` entries in: the records from `offset` on are
      `es`, and `f` is the part of the tree still to be visited. */
  ghost predicate Mid(s: Spot, img: Image, D: Dirs, count: nat, offset: nat, block: seq<byte>, es: seq<Entry>,
                      f: Forest) {
    && |block| == BLOCK_SIZE
    && World(s.g, img, s.P, D) && AllHeaded(D)
    && s.n in D && s.i < |D[s.n]| && Flat(D[s.n][s.i + 1..]) == s.tail
    && BlockFrom(block, offset, es)
    && Unfolds(D, Drop(es, Skipped(s.i, count)) + s.tail, f)
    && Distinct(f) && s.n !in Nodes(f)
    && FixTree(DotsLeft(D, s.n, s.parent, s.i, count), s.n, f) == s.goal
    && (count < 2 ==> AtDot(s, img, D, count, offset, block, es))
  }

  ghost predicate AtDot(s: Spot, img: Image, D: Dirs, count: nat, offset: nat, block: Block, es: seq<Entry>) {
    && s.n in D && s.i < |D[s.n]|
    && s.n in s.P && s.i < |s.P[s.n]| && s.P[s.n][s.i] < |img| && block == img[s.P[s.n][s.i]]
    && BlockFrom(block, 0, D[s.n][s.i])
    && count <= |D[s.n][s.i]| && es == D[s.n][s.i][count..] && offset == At(block, 0, count)
  }

  /** Nothing left to repair. */
  ghost predicate Calm(D: Dirs, n: nat, parent: nat, f: Forest) {
    n in D && HeadRight(D[n], n, parent) && DotsRight(D, n, f)
  }

  /** Advancing past an entry that needs nothing. */
  lemma PlainVisited(s: Spot, img: Image, D: Dirs, count: nat, offset: nat, block: Block, es: seq<Entry>, f: Forest)
    requires Mid(s, img, D, count, offset, block, es, f) && es != [] && offset < BLOCK_SIZE && U32(block, offset) != 0
    requires !es[0].IsDir()
    ensures Mid(s, img, D, count + 1, offset + es[0].recLen, block, es[1..], f)
  {
    hide World, AllHeaded, FixTree, Distinct, Unfolds;
    NextRecord(block, offset, es);
    NotADot(s, img, D, count, offset, block, es, f);
    DropStep(es, s.i, count);
    UnfoldHead(D, es, s.tail, f);
    AtNext(s, img, D, count, offset, block, es);
  }

  /** Below two entries, only later blocks hold entries that are not directories. */
  lemma NotADot(s: Spot, img: Image, D: Dirs, count: nat, offset: nat, block: Block, es: seq<Entry>, f: Forest)
    requires Mid(s, img, D, count, offset, block, es, f) && es != []
    ensures count < 2 && !es[0].IsDir() ==> s.i > 0
    ensures count < 2 && es[0].IsDir() ==> s.i == 0
  {
    if count < 2 {
      assert Headed(D[s.n]);
      assert es[0] == D[s.n][s.i][count];
    }
  }

  lemma AtNext(s: Spot, img: Image, D: Dirs, count: nat, offset: nat, block: Block, es: seq<Entry>)
    requires count + 1 < 2 ==> AtDot(s, img, D, count, offset, block, es)
    requires es != [] && Record(block, offset) && es[0] == EntryAt(block, offset)
    ensures count + 1 < 2 ==> AtDot(s, img, D, count + 1, offset + es[0].recLen, block, es[1..])
  {
    if count + 1 < 2 {
      assert count == 0 && offset == 0 && es == D[s.n][s.i];
      assert At(block, 0, 1) == At(block, U16(block, 4), 0);
    }
  }

  /** The state after a dot entry has been corrected. */
  lemma DotVisited(s: Spot, img: Image, now: Image, D: Dirs, E: Dirs, count: nat, offset: nat,
                   block: Block, block': Block, es: seq<Entry>, f: Forest)
    requires Mid(s, img, D, count, offset, block, es, f) && es != [] && offset < BLOCK_SIZE && U32(block, offset) != 0
    requires count < 2 && s.i == 0 && E == SetIno(D, s.n, count, DotInode(s.n, s.parent, count))
    requires World(s.g, now, s.P, E) && |now| == |img| && block' == now[s.P[s.n][0]]
    requires BlockFrom(block', 0, E[s.n][0]) && At(block', 0, count) == offset
    ensures Mid(s, now, E, count + 1, offset + es[0].recLen, block', es[1..], f)
  {
    hide World, FixTree, Distinct, Unfolds;
    DotsLeftStep(D, s.n, s.parent, count);
    SetInoKeeps(D, s.n, count, DotInode(s.n, s.parent, count));
    DropStep(es, 0, count);
    SkippedWhen(0, count);
    SetInoUnfolds(D, s.n, count, DotInode(s.n, s.parent, count), Drop(es, Skipped(0, count)) + s.tail, f);
    assert E[s.n][1..] == D[s.n][1..];
    DecodeSuffix(block', 0, count);
    var es' := E[s.n][0][count..];
    NextRecord(block', offset, es');
    assert es'[1..] == E[s.n][0][count + 1..] == es[1..];
    assert es'[0].recLen == es[0].recLen;
    AtSucc(block', 0, count);
  }

  /** The state after a subdirectory has been walked. */
  lemma TreeVisited(s: Spot, img: Image, now: Image, D: Dirs, E: Dirs, count: nat, offset: nat,
                    block: Block, es: seq<Entry>, f: Forest)
    requires Mid(s, img, D, count, offset, block, es, f) && es != [] && offset < BLOCK_SIZE && U32(block, offset) != 0
    requires count >= 2 && es[0].IsDir() && f.Dir? && E == FixTree(D, s.n, Dir(f.ino, f.kids, Nil))
    requires World(s.g, now, s.P, E)
    ensures Mid(s, now, E, count + 1, offset + es[0].recLen, block, es[1..], f.rest)
  {
    hide World, Chain, Decode, AllHeaded, Unfolds;
    NextRecord(block, offset, es);
    HeadedHere(D, s.n);

    DropStep(es, s.i, count);
    UnfoldHead(D, es, s.tail, f);
    var t := Dir(f.ino, f.kids, Nil);
    FixTreeUnfolds(D, s.n, t, es[1..] + s.tail, f.rest);
    FixTreeHeaded(D, s.n, t);
    assert Nodes(t) == {f.ino} + Nodes(f.kids) + Nodes(Nil);
    FixTreeKeeps(D, s.n, t, s.n);
    FixTreeCons(D, s.n, f);
  }

  lemma HeadedHere(D: Dirs, n: nat)
    requires AllHeaded(D) && n in D
    ensures Headed(D[n])
  {
  }

  lemma FixTreeCons(D: Dirs, p: nat, f: Forest)
    requires f.Dir?
    ensures FixTree(FixTree(D, p, Dir(f.ino, f.kids, Nil)), p, f.rest) == FixTree(D, p, f)
  {
    var E := FixTree(FixDots(D, f.ino, p), f.ino, f.kids);
    assert FixTree(E, p, Nil) == E;
  }

  /** With nothing to repair, a dot entry already holds its inode. */
  lemma CalmDot(s: Spot, img: Image, D: Dirs, count: nat, offset: nat, block: Block, es: seq<Entry>, f: Forest)
    requires Mid(s, img, D, count, offset, block, es, f) && es != [] && count < 2 && s.i == 0
    ensures Calm(D, s.n, s.parent, f) ==> es[0].ino == DotInode(s.n, s.parent, count)
    ensures es[0] == D[s.n][0][count] && count < |D[s.n][0]|
  {
  }

  lemma CalmTree(D: Dirs, n: nat, parent: nat, f: Forest)
    requires Calm(D, n, parent, f) && f.Dir?
    ensures Calm(D, f.ino, n, f.kids) && Calm(D, n, parent, f.rest)
    ensures FixTree(D, n, Dir(f.ino, f.kids, Nil)) == D
  {
    assert DotsRight(D, n, Nil);
    FixTreeIdle(D, n, Dir(f.ino, f.kids, Nil));
  }

  /** The body of pass1's inner loop. */
  method Visit(d: Disk, dirBlock: array<byte>, blockId: nat, offset: nat, entry: Entry, n: nat, parent: nat, count: nat,
               ghost s: Spot, ghost D: Dirs, ghost es: seq<Entry>, ghost f: Forest)
    returns (ghost E: Dirs, ghost rest: Forest)
    requires dirBlock.Length == BLOCK_SIZE && s.g == d.g && s.n == n && s.parent == parent
    requires Mid(s, d.blocks, D, count, offset, dirBlock[..], es, f) && es != [] && entry == es[0]
    requires offset < BLOCK_SIZE && U32(dirBlock[..], offset) != 0
    requires n in s.P && s.i < |s.P[n]| && blockId == s.P[n][s.i] && blockId < |d.blocks|
    requires 0 < n < U32_LIMIT && 0 < parent < U32_LIMIT && d.g.inodesCount < U32_LIMIT
    modifies d, dirBlock
    ensures Mid(s, d.blocks, E, count + 1, offset + entry.recLen, dirBlock[..], es[1..], rest)
    ensures OnlyDirsDiffer(s.P, old(d.blocks), d.blocks) && Size(rest) <= Size(f)
    ensures Calm(D, n, parent, f) ==> d.blocks == old(d.blocks) && d.writes == old(d.writes) && Calm(E, n, parent, rest)
    decreases Size(f), 0
  {
    hide World, AllHeaded, FixTree, DotsRight, Unfolds, Distinct, Calm;
    E, rest := D, f;
    NotADot(s, d.blocks, D, count, offset, dirBlock[..], es, f);
    if entry.IsDir() {
      if count < 2 {
        ghost var was: Block := dirBlock[..];
        CalmDot(s, d.blocks, D, count, offset, was, es, f);
        E := CorrectDot(d, dirBlock, blockId, offset, entry, if count == 0 then n else parent, s.P, D, n, count);
        DotVisited(s, old(d.blocks), d.blocks, D, E, count, offset, was, dirBlock[..], es, f);
      } else {
        ghost var was: Block := dirBlock[..];
        EnterTree(s, d.blocks, D, count, offset, was, es, f);
        if Calm(D, n, parent, f) { CalmTree(D, n, parent, f); }
        E := Pass1(d, n, entry.ino, s.P, D, f.kids);
        TreeVisited(s, old(d.blocks), d.blocks, D, E, count, offset, was, es, f);
        rest := f.rest;
      }
    } else {
      PlainVisited(s, d.blocks, D, count, offset, dirBlock[..], es, f);
    }
  }

  lemma EnterTree(s: Spot, img: Image, D: Dirs, count: nat, offset: nat, block: Block, es: seq<Entry>, f: Forest)
    requires Mid(s, img, D, count, offset, block, es, f) && es != [] && count >= 2 && es[0].IsDir()
    ensures World(s.g, img, s.P, D) && AllHeaded(D)
    ensures f.Dir? && f.ino == es[0].ino && f.ino in D && Unfolds(D, Kids(D, f.ino), f.kids)
    ensures Distinct(f.kids) && f.ino !in Nodes(f.kids)
  {
    DropStep(es, s.i, count);
    UnfoldHead(D, es, s.tail, f);
  }

  /** The record at the loop's offset. */
  lemma MidRecord(s: Spot, img: Image, D: Dirs, count: nat, offset: nat, block: Block, es: seq<Entry>, f: Forest)
    requires Mid(s, img, D, count, offset, block, es, f) && offset < BLOCK_SIZE
    ensures Chain(block, offset) && (U32(block, offset) == 0 ==> es == [])
    ensures U32(block, offset) != 0 ==>
              Record(block, offset) && es != [] && es[0] == EntryAt(block, offset) &&
                offset < offset + es[0].recLen <= BLOCK_SIZE
  {
    hide World, AllHeaded, FixTree, Unfolds, Distinct;
    NextRecord(block, offset, es);
  }

  lemma MidOver(s: Spot, img: Image, D: Dirs, count: nat, offset: nat, block: Block, es: seq<Entry>, f: Forest)
    requires Mid(s, img, D, count, offset, block, es, f) && offset == BLOCK_SIZE
    ensures es == []
  {
    hide World, AllHeaded, FixTree, Unfolds, Distinct;
  }

  /** pass1's inner loop: one block of directory `n`. */
  method Pass1Block(d: Disk, dirBlock: array<byte>, blockId: nat, n: nat, parent: nat,
                    ghost s: Spot, ghost D: Dirs, ghost f: Forest)
    returns (ghost E: Dirs, ghost rest: Forest, ghost k: nat, ghost o: nat)
    requires dirBlock.Length == BLOCK_SIZE && s.g == d.g && s.n == n && s.parent == parent
    requires n in D && s.i < |D[n]| && Mid(s, d.blocks, D, 0, 0, dirBlock[..], D[n][s.i], f)
    requires n in s.P && s.i < |s.P[n]| && blockId == s.P[n][s.i] && blockId < |d.blocks|
    requires 0 < n < U32_LIMIT && 0 < parent < U32_LIMIT && d.g.inodesCount < U32_LIMIT
    modifies d, dirBlock
    ensures Mid(s, d.blocks, E, k, o, dirBlock[..], [], rest)
    ensures OnlyDirsDiffer(s.P, old(d.blocks), d.blocks) && Size(rest) <= Size(f)
    ensures Calm(D, n, parent, f) ==> d.blocks == old(d.blocks) && d.writes == old(d.writes) && Calm(E, n, parent, rest)
    decreases Size(f), 1
  {
    hide *;
    OnlyDirsRefl(s.P, d.blocks);
    ghost var es := D[n][s.i];
    E, rest := D, f;
    var offset, count := 0, 0;
    var entry := Entry(0, 0, 0, []);
    while offset < BLOCK_SIZE
      invariant 0 <= offset <= BLOCK_SIZE && blockId < |d.blocks|
      invariant Mid(s, d.blocks, E, count, offset, dirBlock[..], es, rest)
      invariant OnlyDirsDiffer(s.P, old(d.blocks), d.blocks) && Size(rest) <= Size(f)
      invariant Calm(D, n, parent, f) ==>
                  d.blocks == old(d.blocks) && d.writes == old(d.writes) && Calm(E, n, parent, rest)
      decreases BLOCK_SIZE - offset
    {
      MidRecord(s, d.blocks, E, count, offset, dirBlock[..], es, rest);
      var len;
      len, entry := ReadDirEntry(dirBlock, offset, entry);
      if len < 0 { break; }
      ghost var was := d.blocks;
      E, rest := Visit(d, dirBlock, blockId, offset, entry, n, parent, count, s, E, es, rest);
      OnlyDirsTrans(s.P, old(d.blocks), was, d.blocks);
      es := es[1..];
      offset := offset + len;
      count := count + 1;
    }
    if offset == BLOCK_SIZE { MidOver(s, d.blocks, E, count, offset, dirBlock[..], es, rest); }
    k, o := count, offset;
  }

  /** pass1: recursively gives every directory of the subtree of `n` itself as
      first and its parent as second entry.  (The guard `!INODE_IS_DIR(&inode)`
      expands to `(!(mode & 0xF000)) == 0x4000`, which no mode satisfies, so
      entry types alone steer the walk.) */
  method Pass1(d: Disk, parent: nat, n: nat, ghost P: Places, ghost D: Dirs, ghost f: Forest)
    returns (ghost E: Dirs)
    requires World(d.g, d.blocks, P, D) && AllHeaded(D) && n in D && Unfolds(D, Kids(D, n), f)
    requires Distinct(f) && n !in Nodes(f)
    requires 0 < parent < U32_LIMIT && d.g.inodesCount < U32_LIMIT
    modifies d
    ensures E == FixTree(D, parent, Dir(n, f, Nil)) && World(d.g, d.blocks, P, E)
    ensures OnlyDirsDiffer(P, old(d.blocks), d.blocks)
    ensures Calm(D, n, parent, f) ==> d.blocks == old(d.blocks) && d.writes == old(d.writes)
    decreases Size(f), 2
  {
    hide *;
    WalkReads(d.g, d.blocks, P, D, n, 0);
    var inode := ReadInode(d, n);
    ghost var goal := FixTree(D, parent, Dir(n, f, Nil));
    OnlyDirsRefl(P, d.blocks);
    ghost var rest := f;
    E := D;
    var dirBlock := new byte[BLOCK_SIZE];
    var i := 0;
    BeginWalk(d.g, d.blocks, P, D, n, parent, f);
    while i < N_BLOCKS
      invariant 0 <= i <= |P[n]| <= N_BLOCKS
      invariant Between(d.g, d.blocks, P, E, n, parent, i, rest, goal)
      invariant OnlyDirsDiffer(P, old(d.blocks), d.blocks) && Size(rest) <= Size(f)
      invariant Calm(D, n, parent, f) ==>
                  d.blocks == old(d.blocks) && d.writes == old(d.writes) && Calm(E, n, parent, rest)
    {
      WalkReads(d.g, old(d.blocks), P, D, n, i);
      BetweenReads(d.g, d.blocks, P, E, n, parent, i, rest, goal);
      var blockId := inode.block[i];
      if blockId == 0 { break; }
      d.ReadBlock(blockId, dirBlock, 0);
      ghost var s := Spot(d.g, P, n, parent, i, Flat(E[n][i + 1..]), goal);
      EnterBlock(s, d.blocks, E, rest);
      ghost var k, o;
      ghost var was := d.blocks;
      E, rest, k, o := Pass1Block(d, dirBlock, blockId, n, parent, s, E, rest);
      LeaveBlock(s, d.blocks, E, k, o, dirBlock[..], rest);
      OnlyDirsTrans(P, old(d.blocks), was, d.blocks);
      i := i + 1;
    }
    BetweenReads(d.g, d.blocks, P, E, n, parent, i, rest, goal);
    FinishWalk(d.g, d.blocks, P, E, n, parent, i, rest, goal);
  }

  /** The outer loop's state, `i` blocks in. */
  ghost predicate Between(g: Geometry, img: Image, P: Places, D: Dirs, n: nat, parent: nat, i: nat, f: Forest,
                          goal: Dirs) {
    && World(g, img, P, D) && AllHeaded(D)
    && n in D && i <= |D[n]| && Unfolds(D, From(D[n], i), f)
    && Distinct(f) && n !in Nodes(f)
    && FixTree(DotsLeft(D, n, parent, i, 0), n, f) == goal
  }

  lemma BetweenReads(g: Geometry, img: Image, P: Places, D: Dirs, n: nat, parent: nat, i: nat, f: Forest, goal: Dirs)
    requires Between(g, img, P, D, n, parent, i, f, goal)
    ensures n in D && n in P && i <= |D[n]| == |P[n]| <= N_BLOCKS
    ensures i < |D[n]| ==> 0 < P[n][i] < |img| && BlockFrom(img[P[n][i]], 0, D[n][i])
  {
    WalkReads(g, img, P, D, n, i);
  }

  lemma BeginWalk(g: Geometry, img: Image, P: Places, D: Dirs, n: nat, parent: nat, f: Forest)
    requires World(g, img, P, D) && AllHeaded(D) && n in D && Unfolds(D, Kids(D, n), f)
    requires Distinct(f) && n !in Nodes(f)
    ensures Between(g, img, P, D, n, parent, 0, f, FixTree(D, parent, Dir(n, f, Nil)))
  {
    hide World, Unfolds, Distinct;
    assert Headed(D[n]);
    var E := FixTree(FixDots(D, n, parent), n, f);
    assert FixTree(E, parent, Nil) == E;
  }

  lemma EnterBlock(s: Spot, img: Image, D: Dirs, f: Forest)
    requires Between(s.g, img, s.P, D, s.n, s.parent, s.i, f, s.goal) && s.i < |D[s.n]|
    requires s.tail == Flat(D[s.n][s.i + 1..])
    requires s.n in s.P && s.i < |s.P[s.n]| && s.P[s.n][s.i] < |img| && BlockFrom(img[s.P[s.n][s.i]], 0, D[s.n][s.i])
    ensures Mid(s, img, D, 0, 0, img[s.P[s.n][s.i]], D[s.n][s.i], f)
  {
    hide World, AllHeaded, FixTree, Unfolds, Distinct;
    FromStep(D[s.n], s.i);
  }

  lemma LeaveBlock(s: Spot, img: Image, D: Dirs, k: nat, o: nat, block: Block, f: Forest)
    requires Mid(s, img, D, k, o, block, [], f)
    ensures Between(s.g, img, s.P, D, s.n, s.parent, s.i + 1, f, s.goal)
    ensures s.n in D && s.i < |D[s.n]|
  {
    hide World, FixTree, Unfolds, Distinct;
    FromStep(D[s.n], s.i);
    DropNothing(Skipped(s.i, k));
    assert [] + s.tail == s.tail;
    assert Headed(D[s.n]);
  }

  lemma FinishWalk(g: Geometry, img: Image, P: Places, D: Dirs, n: nat, parent: nat, i: nat, f: Forest, goal: Dirs)
    requires Between(g, img, P, D, n, parent, i, f, goal) && i == |D[n]|
    ensures D == goal && World(g, img, P, D)
  {
    hide World;
    assert Headed(D[n]);
    assert D[n][i..] == [];
  }
}
