/** pass4: the block bitmap. */
module Pass4 {
  import opened Bytes
  import opened DirBlock
  import opened Disk
  import opened Bitmap
  import opened Inode
  import opened Tree
  import opened Layout
  import opened UsedBlocks

  /** The block bitmaps lie on the disk, the partition-wide index finds each block's
      own bit, the first loop stays on the disk and the inode tables have bits. */
  ghost predicate BlockMaps(g: Geometry, size: nat) {
    && Maps(g.blockBitmap, g.blocksPerGroup, g.blocksCount, size)
    && Fills(g.blocksPerGroup, g.BlockBitmapBlocks(), g.BlockGroups())
    && g.blocksCount > 0 && StaysOnDisk(g)
    && g.BlockGroups() <= |g.inodeTable|
    && (forall i :: 0 <= i < g.BlockGroups() ==>
       1 <= g.inodeTable[i] && g.inodeTable[i] + g.TableBlocks() <= g.blocksCount)
  }

  /** The first data block of the last group. */
  function LastDataStart(g: Geometry): int
    requires g.blocksPerGroup > 0
  {
    1 + (g.BlockGroups() - 1) * g.blocksPerGroup + g.Skip()
  }

  /** No group has a part to verify, or the last group reaches past its skipped part. */
  predicate StaysOnDisk(g: Geometry)
    requires g.blocksPerGroup > 0
  {
    g.Skip() >= g.blocksPerGroup || LastDataStart(g) < g.blocksCount
  }

  /** The blocks that the inner loop of pass4's first part visits from block `y` and
      counter `j` on, whatever the geometry. */
  function GroupRun(g: Geometry, y: nat, j: nat): (r: seq<nat>)
    requires g.blocksPerGroup > 0
    decreases g.blocksPerGroup - j
  {
    if j + g.Skip() >= g.blocksPerGroup then []
    else [y] + if y + 1 >= g.blocksCount then [] else GroupRun(g, y + 1, j + 1)
  }

  /** The blocks that the outer loop visits from group `i` on, `y` being `block_id`. */
  function Visits(g: Geometry, y: nat, i: nat): (r: seq<nat>)
    requires g.blocksPerGroup > 0
    decreases g.BlockGroups() - i
  {
    if i >= g.BlockGroups() then []
    else
      var run := GroupRun(g, y + g.Skip(), 0);
      run + Visits(g, y + g.Skip() + |run|, i + 1)
  }

  lemma {:induction false} RunShape(g: Geometry, y: nat, j: nat)
    requires g.blocksPerGroup > 0
    ensures forall k :: 0 <= k < |GroupRun(g, y, j)| ==> GroupRun(g, y, j)[k] == y + k
    ensures j + g.Skip() >= g.blocksPerGroup ==> |GroupRun(g, y, j)| == 0
    ensures j + g.Skip() < g.blocksPerGroup && y < g.blocksCount ==>
              |GroupRun(g, y, j)| == if g.blocksPerGroup - g.Skip() - j <= g.blocksCount - y
                                     then g.blocksPerGroup - g.Skip() - j else g.blocksCount - y
    ensures j + g.Skip() < g.blocksPerGroup && y >= g.blocksCount ==> GroupRun(g, y, j) == [y]
    decreases g.blocksPerGroup - j
  {
    hide Geometry.Skip;
    if j + g.Skip() < g.blocksPerGroup && y + 1 < g.blocksCount {
      var rest := GroupRun(g, y + 1, j + 1);
      RunShape(g, y + 1, j + 1);
      assert GroupRun(g, y, j) == [y] + rest;
    }
  }

  /** A group that ends inside the disk is visited to its end. */
  lemma FullRun(g: Geometry, a: nat)
    requires 0 <= g.Skip() < g.blocksPerGroup && a + g.blocksPerGroup < g.blocksCount
    ensures |GroupRun(g, 1 + a + g.Skip(), 0)| == g.blocksPerGroup - g.Skip()
  {
    hide Geometry.Skip;
    RunShape(g, 1 + a + g.Skip(), 0);
  }

  lemma GroupFirst(g: Geometry, y: nat, i: nat)
    requires g.Skip() < g.blocksPerGroup && i < g.BlockGroups()
    ensures var run := GroupRun(g, y + g.Skip(), 0);
            run != [] && run[0] == y + g.Skip() && Visits(g, y, i) == run + Visits(g, y + g.Skip() + |run|, i + 1)
  {
    hide Geometry.Skip, Geometry.BlockGroups;
  }

  /** The last group's first data block is visited, even if it is beyond the end. */
  lemma {:induction false} LastStartVisited(g: Geometry, i: nat)
    requires 0 <= g.Skip() < g.blocksPerGroup && g.blocksCount > 0 && i < g.BlockGroups()
    ensures LastDataStart(g) in Visits(g, 1 + i * g.blocksPerGroup, i)
    decreases g.BlockGroups() - i
  {
    hide *;
    var a := i * g.blocksPerGroup;
    GroupFirst(g, 1 + a, i);
    var run := GroupRun(g, 1 + a + g.Skip(), 0);
    if i + 1 < g.BlockGroups() {
      FullGroup(g, i);
      FullRun(g, a);
      LastStartVisited(g, i + 1);
      InEither(run, Visits(g, 1 + (i + 1) * g.blocksPerGroup, i + 1), LastDataStart(g));
    } else {
      LastStartIs(g, i);
      assert run[0] in run;
      InEither(run, Visits(g, 1 + a + g.Skip() + |run|, i + 1), LastDataStart(g));
    }
  }

  lemma LastStartIs(g: Geometry, i: nat)
    requires g.blocksPerGroup > 0 && i + 1 == g.BlockGroups()
    ensures LastDataStart(g) == 1 + i * g.blocksPerGroup + g.Skip()
  {
  }

  lemma InEither(a: seq<nat>, b: seq<nat>, x: int)
    requires x in a || x in b
    ensures x in a + b
  {
  }

  /** Groups before the last one end inside the disk. */
  lemma FullGroup(g: Geometry, i: nat)
    requires g.blocksPerGroup > 0 && g.blocksCount > 0 && i + 1 < g.BlockGroups()
    ensures (i + 1) * g.blocksPerGroup == i * g.blocksPerGroup + g.blocksPerGroup < g.blocksCount
  {
    GroupsCounted(g.blocksPerGroup, g.blocksCount);
    MulMono(i + 1, g.BlockGroups() - 1, g.blocksPerGroup);
  }

  lemma RunInside(g: Geometry, y: nat)
    requires g.Skip() < g.blocksPerGroup && y < g.blocksCount
    ensures forall b :: b in GroupRun(g, y, 0) ==> b < g.blocksCount
  {
    hide Geometry.Skip;
    RunShape(g, y, 0);
  }

  lemma {:induction false} NothingVisited(g: Geometry, y: nat, i: nat)
    requires g.Skip() >= g.blocksPerGroup > 0
    ensures Visits(g, y, i) == []
    decreases g.BlockGroups() - i
  {
    hide Geometry.Skip, Geometry.BlockGroups;
    if i < g.BlockGroups() { NothingVisited(g, y + g.Skip(), i + 1); }
  }

  lemma VisitsEnd(g: Geometry, y: nat, i: nat)
    requires g.blocksPerGroup > 0 && i >= g.BlockGroups()
    ensures Visits(g, y, i) == []
  {
  }

  lemma {:induction false} VisitsInside(g: Geometry, y: nat, i: nat)
    requires 0 <= g.Skip() < g.blocksPerGroup && g.blocksCount > 0 && LastDataStart(g) < g.blocksCount
    requires i < g.BlockGroups() && y == 1 + i * g.blocksPerGroup
    ensures forall b :: b in Visits(g, y, i) ==> b < g.blocksCount
    decreases g.BlockGroups() - i
  {
    hide *;
    var a := i * g.blocksPerGroup;
    GroupFirst(g, 1 + a, i);
    var run := GroupRun(g, 1 + a + g.Skip(), 0);
    GroupEnds(g, i);
    RunInside(g, 1 + a + g.Skip());
    if i + 1 < g.BlockGroups() {
      FullGroup(g, i);
      FullRun(g, a);
      VisitsInside(g, 1 + (i + 1) * g.blocksPerGroup, i + 1);
    } else {
      VisitsEnd(g, 1 + a + g.Skip() + |run|, i + 1);
    }
  }

  /** The first loop visits no block beyond the end exactly when no group has a part to
      verify or the last one reaches past its skipped part. */
  lemma VisitsIff(g: Geometry)
    requires g.blocksPerGroup > 0 && g.blocksCount > 0
    ensures (forall b :: b in Visits(g, 1, 0) ==> b < g.blocksCount) <==> StaysOnDisk(g)
  {
    hide Geometry.Skip;
    GroupsCounted(g.blocksPerGroup, g.blocksCount);
    assert 0 < g.BlockGroups();
    hide Geometry.BlockGroups;
    if g.Skip() >= g.blocksPerGroup {
      NothingVisited(g, 1, 0);
    } else if StaysOnDisk(g) {
      VisitsInside(g, 1, 0);
    } else {
      LastStartVisited(g, 0);
    }
  }

  /** With `s_blocks_count` one more than the group size the code counts a group too
      many, and verifies a block that is not there. */
  lemma GroupTooMany(g: Geometry)
    requires g.Skip() < g.blocksPerGroup && g.blocksCount == g.blocksPerGroup + 1
    ensures g.blocksCount + g.Skip() in Visits(g, 1, 0)
  {
    hide Geometry.Skip, CeilDiv, Visits;
    LastGroup(g.blocksCount, g.blocksPerGroup);
    DivUnique(g.blocksPerGroup, g.blocksPerGroup, 1, 0);
    GroupsCounted(g.blocksPerGroup, g.blocksCount);
    hide Geometry.BlockGroups;
    LastStartVisited(g, 0);
  }

  /** A block that the first loop verifies: outside the first `skip` of its group. */
  predicate IsData(g: Geometry, y: int)
    requires g.blocksPerGroup > 0
  {
    1 <= y < g.blocksCount && (y - 1) % g.blocksPerGroup >= g.Skip()
  }

  /** A block of some group's inode table. */
  ghost predicate InTable(g: Geometry, y: int)
    requires g.blocksPerGroup > 0 && g.BlockGroups() <= |g.inodeTable|
  {
    InTableUpto(g, g.BlockGroups(), y)
  }

  ghost predicate InTableUpto(g: Geometry, groups: nat, y: int)
    requires groups <= |g.inodeTable|
  {
    exists i :: 0 <= i < groups && g.inodeTable[i] <= y < g.inodeTable[i] + g.TableBlocks()
  }

  /** `y` has a bit in the buffer. */
  predicate HasBit(bm: seq<byte>, y: int) { 1 <= y && (y - 1) / 8 < |bm| }

  /** The buffer after the first loop has verified the blocks below `upto`. */
  ghost predicate Checked(g: Geometry, was: seq<byte>, now: seq<byte>, used: seq<int>, upto: int)
    requires g.blocksPerGroup > 0 && |used| > g.blocksCount
  {
    && |now| == |was|
    && forall y: nat :: HasBit(was, y) ==>
         FlatBit(now, y) == if IsData(g, y) && y < upto then used[y] else FlatBit(was, y)
  }

  /** A verified block below `upto` differed. */
  ghost predicate DataDiffers(g: Geometry, was: seq<byte>, used: seq<int>, upto: int)
    requires g.blocksPerGroup > 0 && |used| > g.blocksCount
  {
    exists y: nat :: HasBit(was, y) && IsData(g, y) && y < upto && FlatBit(was, y) != used[y]
  }

  /** The buffer has a bit for every block, and the marks are bits. */
  ghost predicate Ready4(g: Geometry, bm: seq<byte>, used: seq<int>) {
    && g.blocksPerGroup > 0 && |used| == g.blocksCount + 1
    && (forall y :: 0 <= y < |used| ==> 0 <= used[y] <= 1)
    && (forall y: nat :: 1 <= y <= g.blocksCount ==> HasBit(bm, y))
  }

  /** The blocks the first loop has visited, in order: each data block below `upto` once. */
  ghost predicate Visited(g: Geometry, v: seq<nat>, upto: int)
    requires g.blocksPerGroup > 0
  {
    && (forall a, b :: 0 <= a < b < |v| ==> v[a] < v[b])
    && (forall y: nat :: y in v <==> IsData(g, y) && y < upto)
  }

  lemma VisitNext(g: Geometry, v: seq<nat>, y: nat)
    requires g.blocksPerGroup > 0 && Visited(g, v, y) && IsData(g, y)
    ensures Visited(g, v + [y], y + 1)
  {
    forall a | 0 <= a < |v|
      ensures v[a] < y
    {
      assert v[a] in v;
    }
  }

  /** How far the first loop has come when `block_id` is `y`; without a part to verify
      it has nothing to do. */
  function Upto(g: Geometry, y: nat): nat {
    if g.Skip() < g.blocksPerGroup then y else g.blocksCount
  }

  /** The first loop at block `y`: what it has set, whether it has found a difference
      and which blocks it has visited. */
  ghost predicate Sofar(g: Geometry, was: seq<byte>, now: seq<byte>, used: seq<int>, y: nat, found: bool, v: seq<nat>) {
    && Ready4(g, was, used)
    && Checked(g, was, now, used, Upto(g, y))
    && found == DataDiffers(g, was, used, Upto(g, y))
    && Visited(g, v, Upto(g, y))
  }

  /** get_block_alloc_bit against the marks, and fix_block_bitmap_in_partition. */
  method CheckBlock(g: Geometry, bm: array<byte>, used: array<int>, y: nat, found: bool,
                    ghost was: seq<byte>, ghost v: seq<nat>)
    returns (found': bool)
    requires bm as object != used && g.blocksPerGroup > 0 && g.Skip() < g.blocksPerGroup && IsData(g, y)
    requires |was| == bm.Length && used.Length == g.blocksCount + 1 && Sofar(g, was, bm[..], used[..], y, found, v)
    modifies bm
    ensures Sofar(g, was, bm[..], used[..], y + 1, found', v + [y])
  {
    found' := found;
    assert HasBit(was, y);
    VisitNext(g, v, y);
    var bit := GetBit(bm, y);
    assert used[..][y] == used[y] && FlatBit(was, y) == bit;
    if used[y] != bit {
      FixBit(bm, y);
      found' := true;
    }
  }

  /** No block of a group's skipped part is verified. */
  lemma SkippedPart(g: Geometry, i: nat, y: int)
    requires g.blocksPerGroup > 0 && 1 + i * g.blocksPerGroup <= y < 1 + i * g.blocksPerGroup + g.Skip() &&
             g.Skip() < g.blocksPerGroup
    ensures !IsData(g, y)
  {
    hide *;
    RestAt(y - 1, i, g.blocksPerGroup);
    DataNot(g, y);
  }

  lemma RestAt(x: nat, i: nat, per: nat)
    requires per > 0 && i * per <= x < i * per + per
    ensures x % per == x - i * per
  {
    DivUnique(x, per, i, x - i * per);
  }

  lemma DataNot(g: Geometry, y: int)
    requires g.blocksPerGroup > 0 && (y - 1) % g.blocksPerGroup < g.Skip()
    ensures !IsData(g, y)
  {
    hide Geometry.Skip;
  }

  ghost predicate AtGroup(g: Geometry, i: nat, y: nat)
    requires g.blocksPerGroup > 0
  {
    g.Skip() < g.blocksPerGroup ==> y == if i < g.BlockGroups() then 1 + i * g.blocksPerGroup else g.blocksCount
  }

  lemma SkipChecked(g: Geometry, was: seq<byte>, now: seq<byte>, used: seq<int>, i: nat, y: nat, found: bool,
                    v: seq<nat>)
    requires g.blocksPerGroup > 0 && i < g.BlockGroups() && AtGroup(g, i, y)
    requires Sofar(g, was, now, used, y, found, v)
    ensures Sofar(g, was, now, used, y + g.Skip(), found, v)
  {
    if g.Skip() < g.blocksPerGroup {
      forall b: nat | y <= b < y + g.Skip()
        ensures !IsData(g, b)
      {
        SkippedPart(g, i, b);
      }
    }
  }

  lemma DataPart(g: Geometry, i: nat, j: nat)
    requires g.blocksPerGroup > 0 && g.Skip() + j < g.blocksPerGroup &&
             1 + i * g.blocksPerGroup + g.Skip() + j < g.blocksCount
    ensures IsData(g, 1 + i * g.blocksPerGroup + g.Skip() + j)
  {
    hide *;
    RestAt(i * g.blocksPerGroup + g.Skip() + j, i, g.blocksPerGroup);
    DataIs(g, 1 + i * g.blocksPerGroup + g.Skip() + j);
  }

  lemma DataIs(g: Geometry, y: int)
    requires g.blocksPerGroup > 0 && 1 <= y < g.blocksCount && (y - 1) % g.blocksPerGroup >= g.Skip()
    ensures IsData(g, y)
  {
    hide Geometry.Skip;
  }

  lemma GroupEnds(g: Geometry, i: nat)
    requires g.blocksPerGroup > 0 && g.blocksCount > 0 && LastDataStart(g) < g.blocksCount && i < g.BlockGroups()
    ensures 1 + i * g.blocksPerGroup + g.Skip() < g.blocksCount
    ensures i + 1 < g.BlockGroups() ==> 1 + (i + 1) * g.blocksPerGroup < g.blocksCount
    ensures i + 1 == g.BlockGroups() ==> g.blocksCount <= (i + 1) * g.blocksPerGroup
  {
    GroupsCounted(g.blocksPerGroup, g.blocksCount);
    MulMono(i, g.BlockGroups() - 1, g.blocksPerGroup);
    if i + 1 < g.BlockGroups() { MulMono(i + 1, g.BlockGroups() - 1, g.blocksPerGroup); }
  }

  /** Block `y` opens the part of a group that is to be verified. */
  ghost predicate Opens(g: Geometry, y: nat)
    requires g.blocksPerGroup > 0
  {
    g.Skip() < g.blocksPerGroup ==>
      y < g.blocksCount && forall b :: y <= b < y + (g.blocksPerGroup - g.Skip()) && b < g.blocksCount ==> IsData(g, b)
  }

  /** At the start of group `i` the running id is `1 + i * blocksPerGroup`; after the
      last group it is the disk's end. */
  lemma GroupOpens(g: Geometry, i: nat, y: nat)
    requires g.blocksPerGroup > 0 && g.blocksCount > 0 && StaysOnDisk(g) && i < g.BlockGroups() && AtGroup(g, i, y)
    ensures Opens(g, y + g.Skip()) && AtGroup(g, i + 1, y + g.Skip() + |GroupRun(g, y + g.Skip(), 0)|)
  {
    hide Geometry.Skip, Geometry.BlockGroups, IsData;
    if g.Skip() < g.blocksPerGroup {
      GroupEnds(g, i);
      assert (i + 1) * g.blocksPerGroup == i * g.blocksPerGroup + g.blocksPerGroup;
      RunShape(g, y + g.Skip(), 0);
      forall b | y + g.Skip() <= b < y + g.blocksPerGroup && b < g.blocksCount
        ensures IsData(g, b)
      {
        DataPart(g, i, b - y - g.Skip());
      }
    }
  }

  /** The inner loop of pass4's first part. */
  method CheckGroup(g: Geometry, bm: array<byte>, used: array<int>, blockId: nat, found: bool,
                    ghost was: seq<byte>, ghost v: seq<nat>)
    returns (blockId': nat, found': bool, ghost v': seq<nat>)
    requires bm as object != used && g.blocksPerGroup > 0 && Opens(g, blockId)
    requires |was| == bm.Length && used.Length == g.blocksCount + 1 &&
             Sofar(g, was, bm[..], used[..], blockId, found, v)
    modifies bm
    ensures v' == v + GroupRun(g, blockId, 0) && blockId' == blockId + |GroupRun(g, blockId, 0)|
    ensures Sofar(g, was, bm[..], used[..], blockId', found', v')
  {
    hide Sofar, Geometry.Skip, GroupRun, IsData;
    blockId', found', v' := blockId, found, v;
    var j := 0;
    while j + g.Skip() < g.blocksPerGroup
      invariant 0 <= j && blockId' == blockId + j && |v'| == |v| + j
      invariant g.Skip() < g.blocksPerGroup ==> j + g.Skip() <= g.blocksPerGroup && blockId' < g.blocksCount
      invariant v' + GroupRun(g, blockId', j) == v + GroupRun(g, blockId, 0)
      invariant Sofar(g, was, bm[..], used[..], blockId', found', v')
    {
      RunStep(g, blockId', j, v');
      found' := CheckBlock(g, bm, used, blockId', found', was, v');
      v' := v' + [blockId'];
      blockId' := blockId' + 1;
      if blockId' >= g.blocksCount { return; }
      j := j + 1;
    }
    RunOver(g, blockId', j, v');
  }

  lemma RunStep(g: Geometry, y: nat, j: nat, v: seq<nat>)
    requires g.blocksPerGroup > 0 && j + g.Skip() < g.blocksPerGroup
    ensures v + GroupRun(g, y, j) == if y + 1 >= g.blocksCount then v + [y] else v + [y] + GroupRun(g, y + 1, j + 1)
  {
    hide Geometry.Skip;
    if y + 1 < g.blocksCount {
      assert v + ([y] + GroupRun(g, y + 1, j + 1)) == v + [y] + GroupRun(g, y + 1, j + 1);
    }
  }

  lemma RunOver(g: Geometry, y: nat, j: nat, v: seq<nat>)
    requires g.blocksPerGroup > 0 && j + g.Skip() >= g.blocksPerGroup
    ensures v + GroupRun(g, y, j) == v
  {
  }

  /** pass4's first part: the blocks of `Visits`, which are the data blocks of every
      group, each once, in order; group `i` starts at `1 + i * blocksPerGroup`. */
  method CheckData(g: Geometry, bm: array<byte>, used: array<int>) returns (found: bool, ghost visited: seq<nat>)
    requires bm as object != used && g.blocksPerGroup > 0 && Ready4(g, bm[..], used[..])
    requires StaysOnDisk(g) && g.blocksCount > 0 && used.Length == g.blocksCount + 1
    modifies bm
    ensures Checked(g, old(bm[..]), bm[..], used[..], g.blocksCount)
    ensures found == DataDiffers(g, old(bm[..]), used[..], g.blocksCount)
    ensures visited == Visits(g, 1, 0) && Visited(g, visited, g.blocksCount)
  {
    hide *;
    ghost var was := bm[..];
    StartChecked(g, was, used[..]);
    VisitsStart(g);
    var blockId: nat := 1;
    found := false;
    visited := [];
    var i := 0;
    while i < g.BlockGroups()
      invariant 0 <= i <= g.BlockGroups() && |was| == bm.Length && AtGroup(g, i, blockId)
      invariant Sofar(g, was, bm[..], used[..], blockId, found, visited)
      invariant visited + Visits(g, blockId, i) == Visits(g, 1, 0)
    {
      SkipChecked(g, was, bm[..], used[..], i, blockId, found, visited);
      VisitsStep(g, blockId, i, visited);
      GroupOpens(g, i, blockId);
      blockId := blockId + g.Skip();
      blockId, found, visited := CheckGroup(g, bm, used, blockId, found, was, visited);
      i := i + 1;
    }
    VisitsOver(g, blockId, i, visited);
    SofarOver(g, was, bm[..], used[..], blockId, found, visited);
  }

  lemma SofarOver(g: Geometry, was: seq<byte>, now: seq<byte>, used: seq<int>, y: nat, found: bool, v: seq<nat>)
    requires Sofar(g, was, now, used, y, found, v) && g.blocksPerGroup > 0 && AtGroup(g, g.BlockGroups(), y)
    ensures g.blocksPerGroup > 0 && |used| > g.blocksCount && Checked(g, was, now, used, g.blocksCount)
    ensures found == DataDiffers(g, was, used, g.blocksCount) && Visited(g, v, g.blocksCount)
  {
  }

  lemma VisitsStart(g: Geometry)
    requires g.blocksPerGroup > 0 && g.blocksCount > 0
    ensures [] + Visits(g, 1, 0) == Visits(g, 1, 0) && AtGroup(g, 0, 1)
  {
    hide Geometry.Skip, CeilDiv, Visits;
    GroupsCounted(g.blocksPerGroup, g.blocksCount);
    assert 0 * g.blocksPerGroup == 0;
  }

  lemma VisitsStep(g: Geometry, y: nat, i: nat, v: seq<nat>)
    requires g.blocksPerGroup > 0 && i < g.BlockGroups()
    ensures var run := GroupRun(g, y + g.Skip(), 0);
            v + Visits(g, y, i) == v + run + Visits(g, y + g.Skip() + |run|, i + 1)
  {
    hide GroupRun, Geometry.Skip, Geometry.BlockGroups;
    var run := GroupRun(g, y + g.Skip(), 0);
    assert v + (run + Visits(g, y + g.Skip() + |run|, i + 1)) == v + run + Visits(g, y + g.Skip() + |run|, i + 1);
  }

  lemma VisitsOver(g: Geometry, y: nat, i: nat, v: seq<nat>)
    requires g.blocksPerGroup > 0 && i >= g.BlockGroups()
    ensures v + Visits(g, y, i) == v
  {
  }

  lemma StartChecked(g: Geometry, was: seq<byte>, used: seq<int>)
    requires Ready4(g, was, used)
    ensures Sofar(g, was, was, used, 1, false, [])
  {
  }

  /** The buffer after the second loop has set the bits of the blocks in `S`. */
  ghost predicate TablesSet(was: seq<byte>, now: seq<byte>, S: iset<int>) {
    |now| == |was| && forall y: nat :: HasBit(was, y) ==> FlatBit(now, y) == if y in S then 1 else FlatBit(was, y)
  }

  ghost predicate SomeClear(was: seq<byte>, S: iset<int>) {
    exists y: nat :: HasBit(was, y) && y in S && FlatBit(was, y) != 1
  }

  /** One inode table block. */
  method CheckTableBlock(bm: array<byte>, y: nat, found: bool, ghost was: seq<byte>, ghost S: iset<int>,
                         ghost first: bool)
    returns (found': bool)
    requires HasBit(was, y) && |was| == bm.Length
    requires TablesSet(was, bm[..], S) && found == (first || SomeClear(was, S))
    modifies bm
    ensures TablesSet(was, bm[..], S + iset{y}) && found' == (first || SomeClear(was, S + iset{y}))
  {
    found' := found;
    var bit := GetBit(bm, y);
    if bit != 1 {
      FixBit(bm, y);
      found' := true;
      assert y !in S && FlatBit(was, y) != 1;
    }
  }

  ghost function TableSet(g: Geometry, groups: nat): iset<int>
    requires groups <= |g.inodeTable|
  {
    iset y | InTableUpto(g, groups, y)
  }

  ghost predicate InRun(start: nat, len: nat, y: int) { start <= y < start + len }

  ghost function RunSet(start: nat, len: nat): iset<int> { iset y | InRun(start, len, y) }

  lemma TableSetStep(g: Geometry, i: nat)
    requires i < |g.inodeTable|
    ensures TableSet(g, i + 1) == TableSet(g, i) + RunSet(g.inodeTable[i], g.TableBlocks())
  {
    forall y
      ensures InTableUpto(g, i + 1, y) <==>
              InTableUpto(g, i, y) || g.inodeTable[i] <= y < g.inodeTable[i] + g.TableBlocks()
    {
      if InTableUpto(g, i + 1, y) {
        var j :| 0 <= j < i + 1 && g.inodeTable[j] <= y < g.inodeTable[j] + g.TableBlocks();
        assert j < i ==> InTableUpto(g, i, y);
      }
    }
  }

  lemma RunSetStep(S: iset<int>, start: nat, j: nat)
    ensures S + RunSet(start, j) + iset{start + j} == S + RunSet(start, j + 1)
    ensures S + RunSet(start, 0) == S
  {
  }

  /** The inner loop of pass4's second part. */
  method CheckTable(bm: array<byte>, start: nat, len: nat, found: bool, ghost was: seq<byte>, ghost S: iset<int>,
                    ghost first: bool)
    returns (found': bool)
    requires |was| == bm.Length && (forall y: nat :: start <= y < start + len ==> HasBit(was, y))
    requires TablesSet(was, bm[..], S) && found == (first || SomeClear(was, S))
    modifies bm
    ensures TablesSet(was, bm[..], S + RunSet(start, len)) &&
            found' == (first || SomeClear(was, S + RunSet(start, len)))
  {
    hide TablesSet, SomeClear, RunSet;
    found' := found;
    RunSetStep(S, start, 0);
    var j := 0;
    while j < len
      invariant 0 <= j <= len
      invariant TablesSet(was, bm[..], S + RunSet(start, j)) &&
                found' == (first || SomeClear(was, S + RunSet(start, j)))
    {
      found' := CheckTableBlock(bm, start + j, found', was, S + RunSet(start, j), first);
      RunSetStep(S, start, j);
      j := j + 1;
    }
  }

  /** pass4's second part: inode table blocks are always allocated. */
  method CheckTables(g: Geometry, bm: array<byte>, found: bool) returns (found': bool)
    requires g.blocksPerGroup > 0 && g.BlockGroups() <= |g.inodeTable|
    requires forall y: nat :: 1 <= y <= g.blocksCount ==> HasBit(bm[..], y)
    requires forall i :: 0 <= i < g.BlockGroups() ==>
             1 <= g.inodeTable[i] && g.inodeTable[i] + g.TableBlocks() <= g.blocksCount
    modifies bm
    ensures TablesSet(old(bm[..]), bm[..], TableSet(g, g.BlockGroups()))
    ensures found' == (found || SomeClear(old(bm[..]), TableSet(g, g.BlockGroups())))
  {
    hide TablesSet, SomeClear, RunSet, TableSet;
    ghost var was := bm[..];
    found' := found;
    StartTables(g, was);
    var i := 0;
    while i < g.BlockGroups()
      invariant 0 <= i <= g.BlockGroups() && |was| == bm.Length
      invariant TablesSet(was, bm[..], TableSet(g, i)) && found' == (found || SomeClear(was, TableSet(g, i)))
    {
      found' := CheckTable(bm, g.inodeTable[i], g.TableBlocks(), found', was, TableSet(g, i), found);
      TableSetStep(g, i);
      i := i + 1;
    }
  }

  lemma StartTables(g: Geometry, was: seq<byte>)
    ensures TablesSet(was, was, TableSet(g, 0)) && !SomeClear(was, TableSet(g, 0))
  {
  }

  /** The last group's size, as a remainder. */
  lemma LastGroupIff(g: Geometry)
    requires 0 <= g.Skip() < g.blocksPerGroup && g.blocksCount > 0
    ensures StaysOnDisk(g) <==> (g.blocksCount - 1) % g.blocksPerGroup >= g.Skip() + 1
  {
    hide Geometry.Skip, CeilDiv;
    LastGroup(g.blocksCount, g.blocksPerGroup);
  }

  lemma LastGroup(total: nat, per: nat)
    requires total > 0 && per > 0
    ensures (CeilDiv(total, per) - 1) * per + (total - 1) % per == total - 1
  {
    var q, r := (total - 1) / per, (total - 1) % per;
    assert total - 1 == per * q + r;
    assert per * (q + 1) == per * q + per;
    DivUnique(total + per - 1, per, q + 1, r);
    assert q * per == per * q;
  }

  /** Block `y`'s own bit, in its group's bitmap; beyond the last block, the padding
      bit that the partition-wide index leads to. */
  ghost function DiskBit(g: Geometry, img: Image, y: nat): nat
    requires BlockMaps(g, |img|) && HasDiskBit(g, y)
  {
    if y <= g.blocksCount then
      OwnInRuns(g.blockBitmap, g.blocksPerGroup, g.blocksCount, |img|, y);
      OwnBit(img, g.blockBitmap, g.blocksPerGroup, y)
    else
      BlockNoInRange(g.blockBitmap, g.BlockBitmapBlocks(), g.BlockGroups(), |img|, (y - 1) / BITS_PER_BLOCK);
      SeenBit(img, g.blockBitmap, g.BlockBitmapBlocks(), g.BlockGroups(), y)
  }

  ghost predicate HasDiskBit(g: Geometry, y: nat)
    requires g.blocksPerGroup > 0
  {
    1 <= y && (y - 1) / BITS_PER_BLOCK < g.BlockGroups() * g.BlockBitmapBlocks()
  }

  /** What block `y`'s bit must be when the tree uses the blocks of `U`. */
  ghost function WantedBit(g: Geometry, img: Image, U: iset<nat>, y: nat): nat
    requires BlockMaps(g, |img|) && HasDiskBit(g, y)
  {
    if InTable(g, y) then 1
    else if IsData(g, y) then (if y in U then 1 else 0)
    else DiskBit(g, img, y)
  }

  /** Every bit is what the loops want it to be, table blocks that they also verify
      as data included. */
  ghost predicate BitsRight(g: Geometry, img: Image, U: iset<nat>)
    requires BlockMaps(g, |img|)
  {
    forall y: nat :: HasDiskBit(g, y) ==>
      && (IsData(g, y) ==> DiskBit(g, img, y) == if y in U then 1 else 0)
      && (InTable(g, y) ==> DiskBit(g, img, y) == 1)
  }

  ghost predicate BitsFixed(g: Geometry, was: Image, now: Image, U: iset<nat>)
    requires BlockMaps(g, |was|) && |now| == |was|
  {
    forall y: nat :: HasDiskBit(g, y) ==> DiskBit(g, now, y) == WantedBit(g, was, U, y)
  }

  ghost predicate MapLoaded4(g: Geometry, img: Image, bm: seq<byte>) {
    BlockMaps(g, |img|) && Loaded(bm, img, g.blockBitmap, g.BlockBitmapBlocks(), g.BlockGroups())
  }

  lemma BufferBits(g: Geometry, img: Image, bm: seq<byte>, y: nat)
    requires MapLoaded4(g, img, bm)
    ensures HasBit(bm, y) <==> HasDiskBit(g, y)
    ensures HasDiskBit(g, y) ==> FlatBit(bm, y) == DiskBit(g, img, y)
  {
    var q := g.BlockGroups() * g.BlockBitmapBlocks();
    assert |bm| == q * BLOCK_SIZE;
    if HasDiskBit(g, y) {
      FlatIsSeen(bm, img, g.blockBitmap, g.BlockBitmapBlocks(), g.BlockGroups(), y);
      if y <= g.blocksCount { SeenIsOwn(img, g.blockBitmap, g.blocksPerGroup, g.blocksCount, y); }
    }
  }

  lemma EnoughBits(g: Geometry, img: Image, bm: seq<byte>)
    requires MapLoaded4(g, img, bm)
    ensures forall y: nat :: 1 <= y <= g.blocksCount ==> HasBit(bm, y) && HasDiskBit(g, y)
  {
    forall y: nat | 1 <= y <= g.blocksCount
      ensures HasBit(bm, y) && HasDiskBit(g, y)
    {
      Covers(g.blocksCount, g.blocksPerGroup, g.BlockBitmapBlocks(), g.BlockGroups(), y);
      BufferBits(g, img, bm, y);
    }
  }

  /** The two loops together, seen on the disk. */
  lemma LoopsFix(g: Geometry, was: Image, now: Image, bm0: seq<byte>, bm1: seq<byte>, bm2: seq<byte>, used: seq<int>,
                 U: iset<nat>)
    requires MapLoaded4(g, was, bm0) && |now| == |was| && MapLoaded4(g, now, bm2) && |used| == g.blocksCount + 1
    requires forall y :: 0 <= y < |used| ==> used[y] == if y in U then 1 else 0
    requires Checked(g, bm0, bm1, used, g.blocksCount) && TablesSet(bm1, bm2, TableSet(g, g.BlockGroups()))
    ensures BitsFixed(g, was, now, U)
  {
    forall y: nat | HasDiskBit(g, y)
      ensures DiskBit(g, now, y) == WantedBit(g, was, U, y)
    {
      BufferBits(g, was, bm0, y);
      BufferBits(g, now, bm2, y);
      assert HasBit(bm1, y);
    }
  }

  /** No difference found: nothing to fix, and the buffer is as it was loaded. */
  lemma NothingFound(g: Geometry, img: Image, bm0: seq<byte>, bm1: seq<byte>, bm2: seq<byte>, used: seq<int>,
                     U: iset<nat>)
    requires MapLoaded4(g, img, bm0) && |used| == g.blocksCount + 1
    requires forall y :: 0 <= y < |used| ==> used[y] == if y in U then 1 else 0
    requires Checked(g, bm0, bm1, used, g.blocksCount) && TablesSet(bm1, bm2, TableSet(g, g.BlockGroups()))
    ensures BitsRight(g, img, U) <==>
            !DataDiffers(g, bm0, used, g.blocksCount) && !SomeClear(bm1, TableSet(g, g.BlockGroups()))
    ensures BitsRight(g, img, U) ==> BitsFixed(g, img, img, U)
  {
    forall y: nat { BufferBits(g, img, bm0, y); }
    if BitsRight(g, img, U) {
      assert !DataDiffers(g, bm0, used, g.blocksCount);
      assert forall y: nat :: HasBit(bm0, y) ==> FlatBit(bm1, y) == FlatBit(bm0, y);
    }
    if !DataDiffers(g, bm0, used, g.blocksCount) && !SomeClear(bm1, TableSet(g, g.BlockGroups())) {
      forall y: nat | HasDiskBit(g, y)
        ensures IsData(g, y) ==> DiskBit(g, img, y) == if y in U then 1 else 0
        ensures InTable(g, y) ==> DiskBit(g, img, y) == 1
      {
        assert HasBit(bm0, y);
      }
    }
  }

  /** The walk that collects the marks. */
  method CollectUsed(d: Disk, ghost P: Places, ghost D: Dirs, ghost F: Forest) returns (used: array<int>)
    requires World(d.g, d.blocks, P, D) && Tables(d.g, |d.blocks|) && AllSound(d.g, d.blocks, P, D, d.g.blocksCount + 1)
    requires NodeSound(d.g, d.blocks, D, ROOT_INO, F, true, d.g.blocksCount + 1)
    ensures fresh(used) && used.Length == d.g.blocksCount + 1
    ensures forall y :: 0 <= y < used.Length ==>
            used[..][y] == if y in TreeUsed(d.g, d.blocks, P, D, ROOT_INO, F) then 1 else 0
  {
    hide World, AllSound, NodeSound, TreeUsed;
    used := new int[d.g.blocksCount + 1](x => 0);
    ghost var was := used[..];
    ghost var S := MarkTree(d, used, ROOT_INO, P, D, F, true, was, iset{});
    NodeUsedIs(d.g, d.blocks, P, D, ROOT_INO, F, true);
    assert S == TreeUsed(d.g, d.blocks, P, D, ROOT_INO, F);
  }

  /** pass4: afterwards every verified block's bit is set exactly when the tree uses
      the block, every inode table block's bit is set and no other bit has changed;
      something is written exactly when some bit was wrong. */
  method Pass4(d: Disk, ghost P: Places, ghost D: Dirs, ghost F: Forest)
    requires World(d.g, d.blocks, P, D) && Tables(d.g, |d.blocks|) && AllSound(d.g, d.blocks, P, D, d.g.blocksCount + 1)
    requires NodeSound(d.g, d.blocks, D, ROOT_INO, F, true, d.g.blocksCount + 1)
    requires BlockMaps(d.g, |d.blocks|)
    modifies d
    ensures |d.blocks| == |old(d.blocks)|
    ensures BitsFixed(d.g, old(d.blocks), d.blocks, TreeUsed(d.g, old(d.blocks), P, D, ROOT_INO, F))
    ensures forall b :: 0 <= b < |d.blocks| && !InRuns(d.g.blockBitmap, d.g.BlockBitmapBlocks(), b) ==>
            d.blocks[b] == old(d.blocks)[b]
    ensures BitsRight(d.g, old(d.blocks), TreeUsed(d.g, old(d.blocks), P, D, ROOT_INO, F)) ==> d.blocks == old(d.blocks)
    ensures BitsRight(d.g, old(d.blocks), TreeUsed(d.g, old(d.blocks), P, D, ROOT_INO, F)) <==>
            d.writes == old(d.writes)
  {
    hide World, AllSound, NodeSound, TreeUsed, Tables, Checked, DataDiffers, TablesSet, SomeClear, TableSet,
         BitsFixed, BitsRight;
    ghost var U := TreeUsed(d.g, d.blocks, P, D, ROOT_INO, F);
    var bitmap := LoadBitmap(d, d.g.blockBitmap, d.g.BlockBitmapBlocks(), d.g.BlockGroups());
    ghost var bm0 := bitmap[..];
    EnoughBits(d.g, d.blocks, bm0);
    var used := CollectUsed(d, P, D, F);
    var found;
    ghost var visited;
    found, visited := CheckData(d.g, bitmap, used);
    ghost var bm1 := bitmap[..];
    KeptBits(d.g, bm0, bm1, used[..]);
    found := CheckTables(d.g, bitmap, found);
    NothingFound(d.g, d.blocks, bm0, bm1, bitmap[..], used[..], U);
    if found {
      BufferLength(bm0, bm1, bitmap[..], d.g, used[..]);
      WriteBitmap(d, bitmap, d.g.blockBitmap, d.g.BlockBitmapBlocks(), d.g.BlockGroups());
      LoopsFix(d.g, old(d.blocks), d.blocks, bm0, bm1, bitmap[..], used[..], U);
    }
  }

  lemma KeptBits(g: Geometry, bm0: seq<byte>, bm1: seq<byte>, used: seq<int>)
    requires g.blocksPerGroup > 0 && |used| > g.blocksCount && Checked(g, bm0, bm1, used, g.blocksCount)
    ensures forall y: nat :: HasBit(bm0, y) ==> HasBit(bm1, y)
  {
  }

  lemma BufferLength(bm0: seq<byte>, bm1: seq<byte>, bm2: seq<byte>, g: Geometry, used: seq<int>)
    requires g.blocksPerGroup > 0 && |used| > g.blocksCount && Checked(g, bm0, bm1, used, g.blocksCount)
    requires g.BlockGroups() <= |g.inodeTable| && TablesSet(bm1, bm2, TableSet(g, g.BlockGroups()))
    ensures |bm2| == |bm0|
  {
  }
}
