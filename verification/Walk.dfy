/** directory_traversor: counting the names of every inode in a subtree. */
module Walk {
  import opened Bytes
  import opened DirBlock
  import opened Disk
  import opened Inode
  import opened Tree
  import opened Layout

  /** A C `char` counter after `n` increments from zero: signed, eight bits. */
  function Char(n: nat): (c: int)
    ensures -128 <= c < 128
  {
    (n + 128) % 256 - 128
  }

  lemma CharStep(n: nat)
    ensures Char(n + 1) == if Char(n) == 127 then -128 else Char(n) + 1
  {
  }

  /** The counter array holds the wrapped form of `exact`. */
  ghost predicate Counts(counter: array<int>, exact: seq<nat>)
    reads counter
  {
    |exact| == counter.Length && forall x :: 0 <= x < |exact| ==> counter[x] == Char(exact[x])
  }

  /** Entries name existing inodes. */
  ghost predicate InRange(D: Dirs, limit: nat) {
    forall n, i :: n in D && 0 <= i < |D[n]| ==> ListInRange(D[n][i], limit)
  }

  ghost predicate ListInRange(es: seq<Entry>, limit: nat) {
    forall k :: 0 <= k < |es| ==> 0 < es[k].ino < limit
  }

  /** `total` is `exact` plus the names in `f`. */
  ghost predicate Added(D: Dirs, f: Forest, exact: seq<nat>, total: seq<nat>) {
    |total| == |exact| && forall x :: 0 <= x < |exact| ==> total[x] == exact[x] + Refs(D, f, x)
  }

  /** The entries from block `i` on that the walk descends through. */
  function From(bs: seq<seq<Entry>>, i: nat): seq<Entry>
    requires i <= |bs|
  {
    if i == 0 then Below(bs) else Flat(bs[i..])
  }

  /** Work still to be counted inside one directory: the entries in `es` and the
      subtrees of `f`. */
  ghost predicate Left(D: Dirs, es: seq<Entry>, f: Forest, total: seq<nat>, goal: seq<nat>) {
    |total| == |goal| && forall x :: 0 <= x < |goal| ==> total[x] + Mentions(es, x) + Refs(D, f, x) == goal[x]
  }

  function Skipped(i: nat, count: nat): nat {
    if i == 0 && count < 2 then 2 - count else 0
  }

  lemma UnfoldHead(D: Dirs, es: seq<Entry>, tail: seq<Entry>, f: Forest)
    requires es != [] && Unfolds(D, es + tail, f)
    ensures if es[0].IsDir()
            then f.Dir? && f.ino == es[0].ino && f.ino in D && Unfolds(D, Kids(D, f.ino), f.kids) &&
              Unfolds(D, es[1..] + tail, f.rest)
            else Unfolds(D, es[1..] + tail, f)
  {
    assert (es + tail)[1..] == es[1..] + tail;
  }

  lemma NamesHead(es: seq<Entry>, tail: seq<Entry>, x: nat)
    requires es != []
    ensures Mentions(es + tail, x) == (if es[0].ino == x then 1 else 0) + Mentions(es[1..] + tail, x)
  {
    assert (es + tail)[1..] == es[1..] + tail;
  }

  lemma CountHead(D: Dirs, es: seq<Entry>, tail: seq<Entry>, f: Forest, total: seq<nat>, goal: seq<nat>)
    requires es != [] && es[0].ino < |total| && Left(D, es + tail, f, total, goal)
    ensures Left(D, es[1..] + tail, f, total[es[0].ino := total[es[0].ino] + 1], goal)
  {
    forall x | 0 <= x < |goal| { NamesHead(es, tail, x); }
  }

  lemma CountTree(D: Dirs, es: seq<Entry>, f: Forest, total: seq<nat>, more: seq<nat>, goal: seq<nat>)
    requires f.Dir? && Left(D, es, f, total, goal) && Added(D, Dir(f.ino, f.kids, Nil), total, more)
    ensures Left(D, es, f.rest, more, goal)
  {
    forall x | 0 <= x < |goal|
      ensures Refs(D, f, x) == Refs(D, Dir(f.ino, f.kids, Nil), x) + Refs(D, f.rest, x)
    {
      assert Refs(D, Nil, x) == 0;
    }
  }

  lemma DropStep(es: seq<Entry>, i: nat, count: nat)
    requires es != []
    ensures Skipped(i, count) > 0 ==> Drop(es, Skipped(i, count)) == Drop(es[1..], Skipped(i, count + 1))
    ensures Skipped(i, count) == 0 ==>
              Drop(es, Skipped(i, count)) == es && Drop(es[1..], Skipped(i, count + 1)) == es[1..]
  {
  }

  lemma SkippedWhen(i: nat, count: nat)
    ensures Skipped(i, count) > 0 <==> i == 0 && count < 2
  {
  }

  lemma FromStep(bs: seq<seq<Entry>>, i: nat)
    requires i < |bs|
    ensures From(bs, i) == Drop(bs[i], Skipped(i, 0)) + Flat(bs[i + 1..])
    ensures Flat(bs[i..]) == bs[i] + Flat(bs[i + 1..])
    ensures From(bs, i + 1) == Flat(bs[i + 1..])
  {
    assert bs[i..][1..] == bs[i + 1..];
    if i == 0 { assert bs[0..] == bs; }
  }

  lemma InRangeHere(D: Dirs, limit: nat, n: nat, i: nat)
    requires InRange(D, limit) && n in D && i < |D[n]|
    ensures ListInRange(D[n][i], limit)
  {
  }

  /** inode_links_count[x]++ */
  method Bump(counter: array<int>, x: nat, ghost exact: seq<nat>)
    requires Counts(counter, exact) && x < counter.Length
    modifies counter
    ensures |exact| == counter.Length && Counts(counter, exact[x := exact[x] + 1])
  {
    CharStep(exact[x]);
    counter[x] := if counter[x] == 127 then -128 else counter[x] + 1;
  }

  /** directory_traversor adds to counter[x] the number of entries naming x in the
      subtree, `.` and `..` included, and finishes on every finite subtree. */
  method Traverse(d: Disk, counter: array<int>, n: nat, ghost P: Places, ghost D: Dirs, ghost f: Forest,
                  ghost exact: seq<nat>)
    returns (ghost total: seq<nat>)
    requires World(d.g, d.blocks, P, D) && n in D && Unfolds(D, Kids(D, n), f)
    requires Counts(counter, exact) && InRange(D, counter.Length)
    modifies counter
    ensures Counts(counter, total) && Added(D, Dir(n, f, Nil), exact, total)
    decreases Size(f), 2
  {
    hide World, Left, Unfolds, Flat, Mentions, InRange, Kids, Drop, Counts, From, Skipped;
    WalkReads(d.g, d.blocks, P, D, n, 0);
    var inode := ReadInode(d, n);
    ghost var goal := seq(|exact|, x requires 0 <= x < |exact| => exact[x] + Refs(D, Dir(n, f, Nil), x));
    ghost var rest := f;
    total := exact;
    var dirBlock := new byte[BLOCK_SIZE];
    var i := 0;
    StartWalk(D, n, f, exact, goal);
    while i < N_BLOCKS
      invariant 0 <= i <= |P[n]| <= N_BLOCKS && |D[n]| == |P[n]|
      invariant inode == InodeAt(d.g, d.blocks, n)
      invariant Unfolds(D, From(D[n], i), rest) && Size(rest) <= Size(f)
      invariant Counts(counter, total) && Left(D, Flat(D[n][i..]), rest, total, goal)
    {
      WalkReads(d.g, d.blocks, P, D, n, i);
      var blockId := inode.block[i];
      if blockId == 0 { break; }
      d.ReadBlock(blockId, dirBlock, 0);
      FromStep(D[n], i);
      rest, total := TraverseBlock(d, counter, dirBlock, n, i, P, D, rest, total, goal);
      i := i + 1;
    }
    assert i == |D[n]| && D[n][i..] == [];
    EndWalk(D, n, f, rest, exact, total, goal);
  }

  lemma StartWalk(D: Dirs, n: nat, f: Forest, exact: seq<nat>, goal: seq<nat>)
    requires n in D && Unfolds(D, Kids(D, n), f)
    requires |goal| == |exact| && forall x :: 0 <= x < |goal| ==> goal[x] == exact[x] + Refs(D, Dir(n, f, Nil), x)
    ensures Unfolds(D, From(D[n], 0), f) && Left(D, Flat(D[n][0..]), f, exact, goal)
  {
    assert D[n][0..] == D[n];
    assert forall x :: 0 <= x < |goal| ==>
             Refs(D, Dir(n, f, Nil), x) == Mentions(All(D, n), x) + Refs(D, f, x) + Refs(D, Nil, x);
  }

  lemma EndWalk(D: Dirs, n: nat, f: Forest, rest: Forest, exact: seq<nat>, total: seq<nat>, goal: seq<nat>)
    requires n in D && Unfolds(D, From(D[n], |D[n]|), rest) && Left(D, Flat([]), rest, total, goal)
    requires |goal| == |exact| && forall x :: 0 <= x < |goal| ==> goal[x] == exact[x] + Refs(D, Dir(n, f, Nil), x)
    ensures Added(D, Dir(n, f, Nil), exact, total)
  {
    assert D[n][|D[n]|..] == [];
  }

  /** The inner loop of directory_traversor: one block of directory `n`. */
  method TraverseBlock(d: Disk, counter: array<int>, dirBlock: array<byte>, n: nat, i: nat,
                       ghost P: Places, ghost D: Dirs, ghost f: Forest, ghost exact: seq<nat>, ghost goal: seq<nat>)
    returns (ghost rest: Forest, ghost total: seq<nat>)
    requires World(d.g, d.blocks, P, D) && n in D && i < |D[n]|
    requires dirBlock as object != counter && dirBlock.Length == BLOCK_SIZE && BlockFrom(dirBlock[..], 0, D[n][i])
    requires Unfolds(D, Drop(D[n][i], Skipped(i, 0)) + Flat(D[n][i + 1..]), f)
    requires Left(D, D[n][i] + Flat(D[n][i + 1..]), f, exact, goal)
    requires Counts(counter, exact) && InRange(D, counter.Length)
    modifies counter
    ensures Unfolds(D, Flat(D[n][i + 1..]), rest) && Size(rest) <= Size(f)
    ensures Counts(counter, total) && Left(D, Flat(D[n][i + 1..]), rest, total, goal)
    decreases Size(f), 1
  {
    hide World, Left, Unfolds, Flat, Mentions, InRange, Kids, Drop, Added, Skipped, Counts;
    ghost var tail := Flat(D[n][i + 1..]);
    ghost var block := dirBlock[..];
    ghost var es := D[n][i];
    InRangeHere(D, counter.Length, n, i);
    rest, total := f, exact;
    var offset, count := 0, 0;
    var entry := Entry(0, 0, 0, []);
    while offset < BLOCK_SIZE
      invariant dirBlock[..] == block && 0 <= offset <= BLOCK_SIZE && BlockFrom(block, offset, es)
      invariant ListInRange(es, counter.Length)
      invariant Unfolds(D, Drop(es, Skipped(i, count)) + tail, rest) && Size(rest) <= Size(f)
      invariant Counts(counter, total) && Left(D, es + tail, rest, total, goal)
      decreases BLOCK_SIZE - offset
    {
      var len;
      len, entry := ReadDirEntry(dirBlock, offset, entry);
      if len < 0 { break; }
      NextRecord(block, offset, es);
      Bump(counter, entry.ino, total);
      CountHead(D, es, tail, rest, total, goal);
      total := total[entry.ino := total[entry.ino] + 1];
      rest, total := Descend(d, counter, entry, i, count, P, D, es, tail, rest, total, goal);
      es := es[1..];
      offset := offset + len;
      count := count + 1;
    }
    assert es == [] && [] + tail == tail;
    DropNothing(Skipped(i, count));
  }

  /** The recursive step of the inner loop, taken past the first two entries of
      the first block. */
  method Descend(d: Disk, counter: array<int>, entry: Entry, i: nat, count: nat,
                 ghost P: Places, ghost D: Dirs, ghost es: seq<Entry>, ghost tail: seq<Entry>,
                 ghost f: Forest, ghost exact: seq<nat>, ghost goal: seq<nat>)
    returns (ghost rest: Forest, ghost total: seq<nat>)
    requires World(d.g, d.blocks, P, D) && es != [] && entry == es[0]
    requires Unfolds(D, Drop(es, Skipped(i, count)) + tail, f)
    requires Left(D, es[1..] + tail, f, exact, goal)
    requires Counts(counter, exact) && InRange(D, counter.Length)
    modifies counter
    ensures Unfolds(D, Drop(es[1..], Skipped(i, count + 1)) + tail, rest) && Size(rest) <= Size(f)
    ensures Counts(counter, total) && Left(D, es[1..] + tail, rest, total, goal)
    decreases Size(f), 0
  {
    hide World, Left, Unfolds, Flat, Mentions, InRange, Kids, Drop, Added, Skipped, Counts;
    rest, total := f, exact;
    DropStep(es, i, count);
    SkippedWhen(i, count);
    if i != 0 || count >= 2 {
      UnfoldHead(D, es, tail, rest);
      if entry.IsDir() {
        total := Traverse(d, counter, entry.ino, P, D, f.kids, exact);
        CountTree(D, es[1..] + tail, f, exact, total, goal);
        rest := f.rest;
      }
    }
  }

  lemma DropNothing(k: nat)
    ensures Drop([], k) == []
  {
  }
}
