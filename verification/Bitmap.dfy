/** Allocation bitmaps: the partition-wide buffers of dataBlock.c and inode.c
  against the per-group bitmaps they are loaded from. */
module Bitmap {
  import opened Bytes
  import opened DirBlock
  import opened Disk

  /** Binary digit `k` of `v`. */
  function Bit(v: nat, k: nat): (r: nat)
    ensures r <= 1
    decreases k
  {
    if k == 0 then v % 2 else Bit(v / 2, k - 1)
  }

  /** `x >> k` on a C int, arithmetic: every step halves and rounds down. */
  function ShiftRight(x: int, k: nat): int
    decreases k
  {
    if k == 0 then x else ShiftRight(x / 2, k - 1)
  }

  /** `1 << k`. */
  function OneShifted(k: nat): (r: nat)
    ensures r > 0
  {
    if k == 0 then 1 else 2 * OneShifted(k - 1)
  }

  /** `a ^ b`, digit by digit. */
  function Xor(a: nat, b: nat): nat {
    if a == 0 && b == 0 then 0 else (a + b) % 2 + 2 * Xor(a / 2, b / 2)
  }

  /** A `char` of the buffer as C's arithmetic sees it: signed. */
  function Signed(v: byte): int { if v < 128 then v else v - 256 }

  /** `(c >> k) & 1` for such a char. */
  function ShiftAndMask(v: byte, k: nat): int { ShiftRight(Signed(v), k) % 2 }

  lemma {:induction false} ShiftParity(x: int, y: nat, n: nat, k: nat)
    requires (x == y || x == y - OneShifted(n)) && k < n
    ensures ShiftRight(x, k) % 2 == Bit(y, k)
    decreases k
  {
    if k > 0 { ShiftParity(x / 2, y / 2, n - 1, k - 1); }
  }

  /** The sign does not matter: the masked shift is the char's own digit. */
  lemma ShiftMaskIsBit(v: byte, k: nat)
    requires k < 8
    ensures ShiftAndMask(v, k) == Bit(v, k)
  {
    assert OneShifted(8) == 256;
    ShiftParity(Signed(v), v, 8, k);
  }

  lemma {:induction false} XorBit(a: nat, b: nat, j: nat)
    ensures Bit(Xor(a, b), j) == (Bit(a, j) + Bit(b, j)) % 2
    decreases j
  {
    if a == 0 && b == 0 {
      ZeroBit(j);
    } else {
      XorDigits(a, b);
      if j > 0 { XorBit(a / 2, b / 2, j - 1); }
    }
  }

  lemma XorDigits(a: nat, b: nat)
    ensures Xor(a, b) % 2 == (a + b) % 2 == (a % 2 + b % 2) % 2 && Xor(a, b) / 2 == Xor(a / 2, b / 2)
  {
    hide Xor;
    XorStep(a, b);
    ParitySum(a, b);
    DigitThen((a + b) % 2, Xor(a / 2, b / 2));
  }

  lemma XorStep(a: nat, b: nat)
    ensures Xor(a, b) == (a + b) % 2 + 2 * Xor(a / 2, b / 2)
  {
    if a == 0 && b == 0 {
      assert Xor(0, 0) == 0;
    }
  }

  lemma ParitySum(a: nat, b: nat)
    ensures (a + b) % 2 == (a % 2 + b % 2) % 2
  {
    assert a == 2 * (a / 2) + a % 2 && b == 2 * (b / 2) + b % 2;
  }

  lemma DigitThen(d: nat, q: nat)
    requires d < 2
    ensures (d + 2 * q) % 2 == d && (d + 2 * q) / 2 == q
  {
  }

  lemma {:induction false} ZeroBit(j: nat)
    ensures Bit(0, j) == 0
  {
    if j > 0 { ZeroBit(j - 1); }
  }

  lemma {:induction false} XorBound(a: nat, b: nat, n: nat)
    requires a < OneShifted(n) && b < OneShifted(n)
    ensures Xor(a, b) < OneShifted(n)
    decreases n
  {
    if n > 0 { XorBound(a / 2, b / 2, n - 1); }
  }

  lemma {:induction false} PowerBit(k: nat, j: nat)
    ensures Bit(OneShifted(k), j) == if j == k then 1 else 0
    decreases k
  {
    if k > 0 {
      if j > 0 { PowerBit(k - 1, j - 1); }
    } else if j > 0 {
      ZeroBit(j - 1);
    }
  }

  lemma {:induction false} PowerGrows(k: nat, n: nat)
    requires k < n
    ensures OneShifted(k) < OneShifted(n)
    decreases n
  {
    if k < n - 1 { PowerGrows(k, n - 1); }
  }

  /** `v ^ (1 << k)`. */
  function FlipBit(v: byte, k: nat): (r: byte)
    requires k < 8
  {
    assert OneShifted(8) == 256;
    PowerGrows(k, 8);
    XorBound(v, OneShifted(k), 8);
    Xor(v, OneShifted(k))
  }

  /** Flipping bit `k` changes that bit and no other. */
  lemma FlipOneBit(v: byte, k: nat, j: nat)
    requires k < 8 && j < 8
    ensures Bit(FlipBit(v, k), j) == if j == k then 1 - Bit(v, k) else Bit(v, j)
  {
    XorBit(v, OneShifted(k), j);
    PowerBit(k, j);
  }

  /** `groups` bitmaps of `nb` blocks each, at `starts`, on a disk of `size` blocks, disjoint. */
  ghost predicate Runs(starts: seq<nat>, nb: nat, groups: nat, size: nat) {
    && nb > 0 && groups <= |starts|
    && (forall i :: 0 <= i < groups ==> starts[i] + nb <= size)
    && (forall i, j :: 0 <= i < j < groups ==> starts[i] + nb <= starts[j] || starts[j] + nb <= starts[i])
  }

  /** Bitmap block `q` of the partition, counted over all groups. */
  function BlockNo(starts: seq<nat>, nb: nat, groups: nat, q: nat): nat
    requires nb > 0 && groups <= |starts| && q < groups * nb
  {
    QuotientBelow(q, nb, groups);
    starts[q / nb] + q % nb
  }

  lemma QuotientBelow(q: nat, nb: nat, groups: nat)
    requires nb > 0 && q < groups * nb
    ensures q / nb < groups
  {
    assert q == nb * (q / nb) + q % nb;
    if q / nb >= groups { MulMono(groups, q / nb, nb); }
  }

  lemma Place(i: nat, j: nat, nb: nat)
    requires j < nb
    ensures (i * nb + j) / nb == i && (i * nb + j) % nb == j
  {
    DivUnique(i * nb + j, nb, i, j);
  }

  lemma BlockNoInRange(starts: seq<nat>, nb: nat, groups: nat, size: nat, q: nat)
    requires Runs(starts, nb, groups, size) && q < groups * nb
    ensures BlockNo(starts, nb, groups, q) < size
  {
    QuotientBelow(q, nb, groups);
  }

  lemma RunsApart(starts: seq<nat>, nb: nat, groups: nat, size: nat, i: nat, j: nat)
    requires Runs(starts, nb, groups, size) && i < groups && j < groups && i != j
    ensures starts[i] + nb <= starts[j] || starts[j] + nb <= starts[i]
  {
  }

  /** The buffer holds the bitmap blocks end to end. */
  ghost predicate Loaded(bm: seq<byte>, img: Image, starts: seq<nat>, nb: nat, groups: nat)
    requires Runs(starts, nb, groups, |img|)
  {
    && |bm| == groups * nb * BLOCK_SIZE
    && forall q :: 0 <= q < groups * nb ==> BlockLoaded(bm, img, starts, nb, groups, q)
  }

  ghost predicate BlockLoaded(bm: seq<byte>, img: Image, starts: seq<nat>, nb: nat, groups: nat, q: nat)
    requires Runs(starts, nb, groups, |img|) && q < groups * nb
  {
    BlockNoInRange(starts, nb, groups, |img|, q);
    q * BLOCK_SIZE + BLOCK_SIZE <= |bm|
    && bm[q * BLOCK_SIZE..q * BLOCK_SIZE + BLOCK_SIZE] == img[BlockNo(starts, nb, groups, q)]
  }

  /** Bit of object `x` (numbered from 1) in the buffer: get_block_alloc_bit, get_inode_alloc_bit. */
  function FlatBit(bm: seq<byte>, x: nat): (r: nat)
    requires 1 <= x && (x - 1) / 8 < |bm|
  {
    Bit(bm[(x - 1) / 8], (x - 1) % 8)
  }

  /** Bit `r` of a block. */
  function BlockBit(b: Block, r: nat): nat
    requires r < BITS_PER_BLOCK
  {
    Bit(b[r / 8], r % 8)
  }

  /** The bit the partition-wide index of the code reads. */
  function SeenBit(img: Image, starts: seq<nat>, nb: nat, groups: nat, x: nat): nat
    requires nb > 0 && groups <= |starts| && 1 <= x && (x - 1) / BITS_PER_BLOCK < groups * nb
    requires BlockNo(starts, nb, groups, (x - 1) / BITS_PER_BLOCK) < |img|
  {
    BlockBit(img[BlockNo(starts, nb, groups, (x - 1) / BITS_PER_BLOCK)], (x - 1) % BITS_PER_BLOCK)
  }

  lemma FlatIsSeen(bm: seq<byte>, img: Image, starts: seq<nat>, nb: nat, groups: nat, x: nat)
    requires Runs(starts, nb, groups, |img|) && Loaded(bm, img, starts, nb, groups)
    requires 1 <= x && (x - 1) / BITS_PER_BLOCK < groups * nb
    ensures BlockNo(starts, nb, groups, (x - 1) / BITS_PER_BLOCK) < |img|
    ensures (x - 1) / 8 < |bm| && FlatBit(bm, x) == SeenBit(img, starts, nb, groups, x)
  {
    var q, r := (x - 1) / BITS_PER_BLOCK, (x - 1) % BITS_PER_BLOCK;
    BlockNoInRange(starts, nb, groups, |img|, q);
    assert BlockLoaded(bm, img, starts, nb, groups, q);
    assert (x - 1) / 8 == q * BLOCK_SIZE + r / 8 && r / 8 < BLOCK_SIZE && (x - 1) % 8 == r % 8;
    assert bm[q * BLOCK_SIZE..q * BLOCK_SIZE + BLOCK_SIZE][r / 8] == bm[q * BLOCK_SIZE + r / 8];
  }

  /** Where the code looks for object `x`, as (disk block, bit), and where the
      object's own group keeps it. */
  function SeenAt(starts: seq<nat>, nb: nat, groups: nat, x: nat): (nat, nat)
    requires nb > 0 && groups <= |starts| && 1 <= x && (x - 1) / BITS_PER_BLOCK < groups * nb
  {
    (BlockNo(starts, nb, groups, (x - 1) / BITS_PER_BLOCK), (x - 1) % BITS_PER_BLOCK)
  }

  function GroupAt(starts: seq<nat>, per: nat, x: nat): (nat, nat)
    requires per > 0 && 1 <= x && (x - 1) / per < |starts|
  {
    var r := (x - 1) % per;
    (starts[(x - 1) / per] + r / BITS_PER_BLOCK, r % BITS_PER_BLOCK)
  }

  lemma FullGroupsAgree(starts: seq<nat>, nb: nat, groups: nat, x: nat)
    requires nb > 0 && groups <= |starts| && 1 <= x && (x - 1) / BITS_PER_BLOCK < groups * nb
    ensures var per := BITS_PER_BLOCK * nb;
            (x - 1) / per < groups && SeenAt(starts, nb, groups, x) == GroupAt(starts, per, x)
  {
    var q, s := (x - 1) / BITS_PER_BLOCK, (x - 1) % BITS_PER_BLOCK;
    var i, j := q / nb, q % nb;
    QuotientBelow(q, nb, groups);
    var per := BITS_PER_BLOCK * nb;
    var r := BITS_PER_BLOCK * j + s;
    assert x - 1 == BITS_PER_BLOCK * (nb * i + j) + s == per * i + r by {
      assert BITS_PER_BLOCK * (nb * i) == per * i;
    }
    DivUnique(x - 1, per, i, r);
    assert r / BITS_PER_BLOCK == j && r % BITS_PER_BLOCK == s;
  }

  /** The code's index for object `x` finds that object's own bit. */
  ghost predicate FindsOwn(starts: seq<nat>, per: nat, nb: nat, groups: nat, x: nat)
    requires nb > 0 && per > 0 && groups <= |starts| && 1 <= x
  {
    && (x - 1) / BITS_PER_BLOCK < groups * nb && (x - 1) / per < |starts|
    && SeenAt(starts, nb, groups, x) == GroupAt(starts, per, x)
  }

  /** The partition-wide index finds every object's own bit exactly when there is
      one group or each group fills its bitmap blocks. */
  lemma PartitionIndexIff(starts: seq<nat>, per: nat, nb: nat, groups: nat, total: nat, size: nat)
    requires Runs(starts, nb, groups, size) && per > 0 && groups >= 1 && groups * nb * BITS_PER_BLOCK >= total
    requires BITS_PER_BLOCK * (nb - 1) < per <= BITS_PER_BLOCK * nb
    requires 1 <= total && (groups - 1) * per < total <= groups * per
    ensures (forall x :: 1 <= x <= total ==> FindsOwn(starts, per, nb, groups, x))
            <==> groups == 1 || per == BITS_PER_BLOCK * nb
  {
    if groups == 1 || per == BITS_PER_BLOCK * nb {
      forall x | 1 <= x <= total
        ensures FindsOwn(starts, per, nb, groups, x)
      {
        if groups == 1 { OneGroupAgrees(starts, nb, per, x); } else { FullGroupsAgree(starts, nb, groups, x); }
      }
    } else {
      SecondGroupMissed(starts, per, nb, groups, total, size);
      assert !FindsOwn(starts, per, nb, groups, per + 1);
    }
  }

  lemma OneGroupAgrees(starts: seq<nat>, nb: nat, per: nat, x: nat)
    requires nb > 0 && |starts| >= 1 && 1 <= x <= per <= BITS_PER_BLOCK * nb
    ensures (x - 1) / BITS_PER_BLOCK < 1 * nb && (x - 1) / per == 0
    ensures SeenAt(starts, nb, 1, x) == GroupAt(starts, per, x)
  {
    var q := (x - 1) / BITS_PER_BLOCK;
    assert q < nb;
    DivUnique(q, nb, 0, q);
    DivUnique(x - 1, per, 0, x - 1);
  }

  /** The first object of the second group is looked up in the first group's bitmap. */
  lemma SecondGroupMissed(starts: seq<nat>, per: nat, nb: nat, groups: nat, total: nat, size: nat)
    requires Runs(starts, nb, groups, size) && 0 < per < BITS_PER_BLOCK * nb && groups >= 2
    requires (groups - 1) * per < total <= groups * nb * BITS_PER_BLOCK
    ensures per + 1 <= total && per / BITS_PER_BLOCK < groups * nb && per / per < |starts|
    ensures SeenAt(starts, nb, groups, per + 1) != GroupAt(starts, per, per + 1)
  {
    MulMono(1, groups - 1, per);
    var q := per / BITS_PER_BLOCK;
    assert q < nb;
    MulMono(1, groups, nb);
    DivUnique(q, nb, 0, q);
    DivUnique(per, per, 1, 0);
    assert starts[0] + nb <= starts[1] || starts[1] + nb <= starts[0];
  }

  /** The condition, for a caller to check. */
  predicate Fills(per: nat, nb: nat, groups: nat) {
    groups == 1 || per == BITS_PER_BLOCK * nb
  }

  /** Object `x`'s own bit: bit (x - 1) mod `per` of group (x - 1) div `per`. */
  function OwnBit(img: Image, starts: seq<nat>, per: nat, x: nat): nat
    requires per > 0 && 1 <= x && (x - 1) / per < |starts| && GroupAt(starts, per, x).0 < |img|
  {
    BlockBit(img[GroupAt(starts, per, x).0], GroupAt(starts, per, x).1)
  }

  /** Bitmaps of `total` objects in groups of `per`, as the program sizes them. */
  ghost predicate Maps(starts: seq<nat>, per: nat, total: nat, size: nat) {
    && per > 0
    && Runs(starts, CeilDiv(CeilDiv(per, BITS_PER_BYTE), BLOCK_SIZE), CeilDiv(total, per), size)
  }

  lemma GroupNumber(per: nat, total: nat, x: nat)
    requires per > 0 && x < total
    ensures x / per < CeilDiv(total, per)
  {
    hide CeilDiv;
    var i, c := x / per, CeilDiv(total, per);
    assert i * per <= x;
    if i >= c { MulMono(c, i, per); }
  }

  lemma BlockNumber(per: nat, r: nat)
    requires r < per
    ensures r / BITS_PER_BLOCK < CeilDiv(CeilDiv(per, BITS_PER_BYTE), BLOCK_SIZE)
  {
  }

  lemma InsideRun(starts: seq<nat>, nb: nat, groups: nat, size: nat, i: nat, j: nat)
    requires Runs(starts, nb, groups, size) && i < groups && j < nb
    ensures starts[i] + j < size && InRuns(starts, nb, starts[i] + j)
  {
    assert starts[i] <= starts[i] + j < starts[i] + nb;
  }

  /** An object's own bit is on the disk, in its group's bitmap. */
  lemma OwnInRuns(starts: seq<nat>, per: nat, total: nat, size: nat, x: nat)
    requires Maps(starts, per, total, size) && 1 <= x <= total
    ensures (x - 1) / per < |starts| && GroupAt(starts, per, x).0 < size
    ensures InRuns(starts, CeilDiv(CeilDiv(per, BITS_PER_BYTE), BLOCK_SIZE), GroupAt(starts, per, x).0)
  {
    hide *;
    RunsOf(starts, per, total, size);
    GroupNumber(per, total, x - 1);
    OwnPlace(starts, per, CeilDiv(CeilDiv(per, BITS_PER_BYTE), BLOCK_SIZE), CeilDiv(total, per), size, x);
  }

  lemma RunsOf(starts: seq<nat>, per: nat, total: nat, size: nat)
    requires Maps(starts, per, total, size)
    ensures per > 0 && BITS_PER_BYTE > 0 && BLOCK_SIZE > 0
    ensures Runs(starts, CeilDiv(CeilDiv(per, BITS_PER_BYTE), BLOCK_SIZE), CeilDiv(total, per), size)
  {
    hide CeilDiv, Runs;
  }

  lemma OwnPlace(starts: seq<nat>, per: nat, nb: nat, groups: nat, size: nat, x: nat)
    requires per > 0 && Runs(starts, nb, groups, size) && nb == CeilDiv(CeilDiv(per, BITS_PER_BYTE), BLOCK_SIZE)
    requires 1 <= x && (x - 1) / per < groups
    ensures (x - 1) / per < |starts| && GroupAt(starts, per, x).0 < size &&
            InRuns(starts, nb, GroupAt(starts, per, x).0)
  {
    hide CeilDiv, InRuns;
    var i, r := (x - 1) / per, (x - 1) % per;
    BlockNumber(per, r);
    InsideRun(starts, nb, groups, size, i, r / BITS_PER_BLOCK);
  }

  /** How groups and bitmap blocks are counted. */
  lemma GroupsCounted(per: nat, total: nat)
    requires per > 0 && total > 0
    ensures var nb, groups := CeilDiv(CeilDiv(per, BITS_PER_BYTE), BLOCK_SIZE), CeilDiv(total, per);
            && groups >= 1 && BITS_PER_BLOCK * (nb - 1) < per <= BITS_PER_BLOCK * nb
            && (groups - 1) * per < total <= groups * per
  {
    var groups := CeilDiv(total, per);
    var r := (total + per - 1) % per;
    assert total + per - 1 == per * groups + r;
    assert per * groups == groups * per;
    assert (groups - 1) * per == groups * per - per;
  }

  /** Where the geometry is as it should be, the bit the code reads is the object's own. */
  lemma SeenIsOwn(img: Image, starts: seq<nat>, per: nat, total: nat, x: nat)
    requires Maps(starts, per, total, |img|) && 1 <= x <= total
    requires Fills(per, CeilDiv(CeilDiv(per, BITS_PER_BYTE), BLOCK_SIZE), CeilDiv(total, per))
    ensures var nb, groups := CeilDiv(CeilDiv(per, BITS_PER_BYTE), BLOCK_SIZE), CeilDiv(total, per);
            && (x - 1) / BITS_PER_BLOCK < groups * nb && BlockNo(starts, nb, groups, (x - 1) / BITS_PER_BLOCK) < |img|
            && (x - 1) / per < |starts| && GroupAt(starts, per, x).0 < |img|
            && SeenBit(img, starts, nb, groups, x) == OwnBit(img, starts, per, x)
  {
    hide CeilDiv, Bit;
    var nb, groups := CeilDiv(CeilDiv(per, BITS_PER_BYTE), BLOCK_SIZE), CeilDiv(total, per);
    GroupsCounted(per, total);
    Covers(total, per, nb, groups, total);
    Covers(total, per, nb, groups, x);
    EnoughBlocks(total, nb, groups);
    BlockNoInRange(starts, nb, groups, |img|, (x - 1) / BITS_PER_BLOCK);
    OwnInRuns(starts, per, total, |img|, x);
    PartitionIndexIff(starts, per, nb, groups, total, |img|);
    assert FindsOwn(starts, per, nb, groups, x);
  }

  lemma EnoughBlocks(total: nat, nb: nat, groups: nat)
    requires 1 <= total && (total - 1) / BITS_PER_BLOCK < groups * nb
    ensures groups * nb * BITS_PER_BLOCK >= total
  {
  }

  /** get_*_bitmap_in_group into `bm` from block `base` of the buffer on. */
  method LoadGroup(d: Disk, bm: array<byte>, start: nat, base: nat, nb: nat)
    requires start + nb <= |d.blocks| && (base + nb) * BLOCK_SIZE <= bm.Length
    modifies bm
    ensures forall q :: base <= q < base + nb ==> Window(bm[..], q) == d.blocks[start + (q - base)]
    ensures forall q :: 0 <= q < base ==> Window(bm[..], q) == Window(old(bm[..]), q)
  {
    var i := 0;
    while i < nb
      invariant 0 <= i <= nb
      invariant forall q :: base <= q < base + i ==> Window(bm[..], q) == d.blocks[start + (q - base)]
      invariant forall q :: 0 <= q < base ==> Window(bm[..], q) == Window(old(bm[..]), q)
    {
      ghost var was := bm[..];
      d.ReadBlock(start + i, bm, (base + i) * BLOCK_SIZE);
      WindowsAfter(was, bm[..], base + i, d.blocks[start + i]);
      i := i + 1;
    }
  }

  /** Filling block `p` of a buffer leaves the earlier ones alone. */
  lemma WindowsAfter(was: seq<byte>, now: seq<byte>, p: nat, b: Block)
    requires |now| == |was| && (p + 1) * BLOCK_SIZE <= |was|
    requires forall k :: p * BLOCK_SIZE <= k < p * BLOCK_SIZE + BLOCK_SIZE ==> now[k] == b[k - p * BLOCK_SIZE]
    requires forall k :: 0 <= k < p * BLOCK_SIZE ==> now[k] == was[k]
    ensures Window(now, p) == b
    ensures forall q :: 0 <= q < p ==> Window(now, q) == Window(was, q)
  {
  }

  /** Block `q` of a buffer. */
  ghost function Window(s: seq<byte>, q: nat): seq<byte> {
    if q * BLOCK_SIZE + BLOCK_SIZE <= |s| then s[q * BLOCK_SIZE..q * BLOCK_SIZE + BLOCK_SIZE] else []
  }

  /** get_block_bitmap_in_partition, get_inode_bitmap_in_partition. */
  method LoadBitmap(d: Disk, starts: seq<nat>, nb: nat, groups: nat) returns (bm: array<byte>)
    requires Runs(starts, nb, groups, |d.blocks|)
    ensures fresh(bm) && Loaded(bm[..], d.blocks, starts, nb, groups)
  {
    hide LoadedTo, Loaded, Runs, Window, BlockLoaded;
    bm := new byte[groups * nb * BLOCK_SIZE];
    var i := 0;
    StartLoaded(bm[..], d.blocks, starts, nb, groups);
    while i < groups
      invariant 0 <= i <= groups
      invariant fresh(bm) && |bm[..]| == groups * nb * BLOCK_SIZE
      invariant LoadedTo(bm[..], d.blocks, starts, nb, groups, i * nb)
    {
      GroupFits(starts, nb, groups, |d.blocks|, i);
      ghost var was := bm[..];
      LoadGroup(d, bm, starts[i], i * nb, nb);
      GroupLoaded(was, bm[..], d.blocks, starts, nb, groups, i);
      i := i + 1;
    }
    AllLoaded(bm[..], d.blocks, starts, nb, groups);
  }

  /** The first `m` bitmap blocks are in the buffer. */
  ghost predicate LoadedTo(bm: seq<byte>, img: Image, starts: seq<nat>, nb: nat, groups: nat, m: nat) {
    Runs(starts, nb, groups, |img|) && forall q :: 0 <= q < m ==>
      q < groups * nb && BlockLoaded(bm, img, starts, nb, groups, q)
  }

  lemma StartLoaded(bm: seq<byte>, img: Image, starts: seq<nat>, nb: nat, groups: nat)
    requires Runs(starts, nb, groups, |img|)
    ensures LoadedTo(bm, img, starts, nb, groups, 0)
  {
  }

  lemma GroupFits(starts: seq<nat>, nb: nat, groups: nat, size: nat, i: nat)
    requires Runs(starts, nb, groups, size) && i < groups
    ensures i < |starts| && starts[i] + nb <= size && i * nb + nb == (i + 1) * nb <= groups * nb
  {
    MulMono(i + 1, groups, nb);
  }

  lemma AllLoaded(bm: seq<byte>, img: Image, starts: seq<nat>, nb: nat, groups: nat)
    requires LoadedTo(bm, img, starts, nb, groups, groups * nb) && |bm| == groups * nb * BLOCK_SIZE
    ensures Loaded(bm, img, starts, nb, groups)
  {
  }

  lemma GroupLoaded(was: seq<byte>, now: seq<byte>, img: Image, starts: seq<nat>, nb: nat, groups: nat, i: nat)
    requires LoadedTo(was, img, starts, nb, groups, i * nb) && i < groups && |now| == |was|
    requires i < |starts| && starts[i] + nb <= |img| && i * nb + nb == (i + 1) * nb <= groups * nb
    requires forall q :: i * nb <= q < i * nb + nb ==> Window(now, q) == img[starts[i] + (q - i * nb)]
    requires forall q :: 0 <= q < i * nb ==> Window(now, q) == Window(was, q)
    ensures LoadedTo(now, img, starts, nb, groups, (i + 1) * nb)
  {
    hide BlockLoaded, Window, BlockNo;
    forall q | 0 <= q < (i + 1) * nb
      ensures q < groups * nb && BlockLoaded(now, img, starts, nb, groups, q)
    {
      if q < i * nb {
        StillLoaded(was, now, img, starts, nb, groups, q);
      } else {
        NowLoaded(now, img, starts, nb, groups, i, q - i * nb);
      }
    }
  }

  lemma StillLoaded(was: seq<byte>, now: seq<byte>, img: Image, starts: seq<nat>, nb: nat, groups: nat, q: nat)
    requires Runs(starts, nb, groups, |img|) && q < groups * nb && BlockLoaded(was, img, starts, nb, groups, q)
    requires |now| == |was| && Window(now, q) == Window(was, q)
    ensures BlockLoaded(now, img, starts, nb, groups, q)
  {
  }

  lemma NowLoaded(bm: seq<byte>, img: Image, starts: seq<nat>, nb: nat, groups: nat, i: nat, j: nat)
    requires Runs(starts, nb, groups, |img|) && i < groups && j < nb && i * nb + j < groups * nb
    requires Window(bm, i * nb + j) == img[starts[i] + j]
    ensures BlockLoaded(bm, img, starts, nb, groups, i * nb + j)
  {
    Place(i, j, nb);
  }

  /** `b` lies in a run of `len` blocks that starts at one of `starts`. */
  ghost predicate InRuns(starts: seq<nat>, len: nat, b: nat) {
    exists i :: 0 <= i < |starts| && starts[i] <= b < starts[i] + len
  }

  /** Bitmap blocks that agree hold the same bits. */
  lemma OwnKept(a: Image, b: Image, starts: seq<nat>, per: nat, total: nat, x: nat)
    requires |a| == |b| && Maps(starts, per, total, |a|) && 1 <= x <= total
    requires forall k :: 0 <= k < |a| && InRuns(starts, CeilDiv(CeilDiv(per, BITS_PER_BYTE), BLOCK_SIZE), k) ==>
             a[k] == b[k]
    ensures (x - 1) / per < |starts| && GroupAt(starts, per, x).0 < |a|
    ensures OwnBit(a, starts, per, x) == OwnBit(b, starts, per, x)
  {
    OwnInRuns(starts, per, total, |a|, x);
  }

  /** write_block_bitmap_in_group. */
  method WriteGroup(d: Disk, bm: array<byte>, start: nat, base: nat, nb: nat)
    requires start + nb <= |d.blocks| && (base + nb) * BLOCK_SIZE <= bm.Length
    modifies d
    ensures |d.blocks| == |old(d.blocks)| && |d.writes| == |old(d.writes)| + nb
    ensures forall q :: base <= q < base + nb ==> d.blocks[start + (q - base)] == Window(bm[..], q)
    ensures forall b :: 0 <= b < |d.blocks| && !(start <= b < start + nb) ==> d.blocks[b] == old(d.blocks)[b]
  {
    var i := 0;
    while i < nb
      invariant 0 <= i <= nb && |d.blocks| == |old(d.blocks)| && |d.writes| == |old(d.writes)| + i
      invariant forall q :: base <= q < base + i ==> d.blocks[start + (q - base)] == Window(bm[..], q)
      invariant forall b :: 0 <= b < |d.blocks| && !(start <= b < start + i) ==> d.blocks[b] == old(d.blocks)[b]
    {
      d.WriteBlock(start + i, bm, (base + i) * BLOCK_SIZE);
      assert d.blocks[start + i] == Window(bm[..], base + i) by {
        assert (base + i) * BLOCK_SIZE + BLOCK_SIZE <= bm.Length;
      }
      i := i + 1;
    }
  }

  /** Bitmap blocks `0..upto` hold the buffer, and nothing outside the runs has changed. */
  ghost predicate Stored(bm: seq<byte>, was: Image, now: Image, starts: seq<nat>, nb: nat, groups: nat, upto: nat)
    requires Runs(starts, nb, groups, |now|)
  {
    && |now| == |was| && |bm| == groups * nb * BLOCK_SIZE && upto <= groups * nb
    && (forall q :: 0 <= q < upto ==> BlockLoaded(bm, now, starts, nb, groups, q))
    && (forall b :: 0 <= b < |now| && !InRuns(starts, nb, b) ==> now[b] == was[b])
  }

  lemma StoredStep(bm: seq<byte>, was: Image, mid: Image, now: Image, starts: seq<nat>, nb: nat, groups: nat, i: nat)
    requires i < groups && |mid| == |now| && Runs(starts, nb, groups, |mid|)
    requires Stored(bm, was, mid, starts, nb, groups, i * nb)
    requires (i + 1) * nb <= groups * nb
    requires forall q :: i * nb <= q < i * nb + nb ==> now[starts[i] + (q - i * nb)] == Window(bm, q)
    requires forall b :: 0 <= b < |now| && !(starts[i] <= b < starts[i] + nb) ==> now[b] == mid[b]
    ensures Stored(bm, was, now, starts, nb, groups, (i + 1) * nb)
  {
    hide BlockLoaded, Window, BlockNo;
    forall q | 0 <= q < (i + 1) * nb
      ensures BlockLoaded(bm, now, starts, nb, groups, q)
    {
      if q < i * nb {
        OldWindow(bm, mid, now, starts, nb, groups, i, q);
      } else {
        NewWindow(bm, now, starts, nb, groups, i, q);
      }
    }
    RunHasBlock(starts, nb, i);
  }

  lemma RunHasBlock(starts: seq<nat>, nb: nat, i: nat)
    requires i < |starts|
    ensures forall b :: starts[i] <= b < starts[i] + nb ==> InRuns(starts, nb, b)
  {
  }

  lemma OldWindow(bm: seq<byte>, mid: Image, now: Image, starts: seq<nat>, nb: nat, groups: nat, i: nat, q: nat)
    requires i < groups && |mid| == |now| && Runs(starts, nb, groups, |mid|) && q < i * nb <= groups * nb
    requires BlockLoaded(bm, mid, starts, nb, groups, q)
    requires forall b :: 0 <= b < |now| && !(starts[i] <= b < starts[i] + nb) ==> now[b] == mid[b]
    ensures BlockLoaded(bm, now, starts, nb, groups, q)
  {
    BlockNoInRange(starts, nb, groups, |now|, q);
    QuotientBelow(q, nb, i);
    RunsApart(starts, nb, groups, |now|, q / nb, i);
  }

  lemma NewWindow(bm: seq<byte>, now: Image, starts: seq<nat>, nb: nat, groups: nat, i: nat, q: nat)
    requires i < groups && Runs(starts, nb, groups, |now|) && i * nb <= q < i * nb + nb <= groups * nb
    requires |bm| == groups * nb * BLOCK_SIZE && now[starts[i] + (q - i * nb)] == Window(bm, q)
    ensures BlockLoaded(bm, now, starts, nb, groups, q)
  {
    Place(i, q - i * nb, nb);
    WindowInside(bm, q, groups * nb);
  }

  lemma WindowInside(bm: seq<byte>, q: nat, total: nat)
    requires |bm| == total * BLOCK_SIZE && q < total
    ensures q * BLOCK_SIZE + BLOCK_SIZE <= |bm|
    ensures Window(bm, q) == bm[q * BLOCK_SIZE..q * BLOCK_SIZE + BLOCK_SIZE]
  {
  }

  /** write_block_bitmap_in_partition: load, edit, write back, load again sees the edit. */
  method WriteBitmap(d: Disk, bm: array<byte>, starts: seq<nat>, nb: nat, groups: nat)
    requires Runs(starts, nb, groups, |d.blocks|) && bm.Length == groups * nb * BLOCK_SIZE
    modifies d
    ensures |d.blocks| == |old(d.blocks)| && Loaded(bm[..], d.blocks, starts, nb, groups)
    ensures forall b :: 0 <= b < |d.blocks| && !InRuns(starts, nb, b) ==> d.blocks[b] == old(d.blocks)[b]
    ensures groups > 0 ==> |d.writes| > |old(d.writes)|
  {
    var i := 0;
    while i < groups
      invariant 0 <= i <= groups && |d.blocks| == |old(d.blocks)| && |d.writes| >= |old(d.writes)| + i
      invariant Stored(bm[..], old(d.blocks), d.blocks, starts, nb, groups, i * nb)
    {
      MulMono(i + 1, groups, nb);
      ghost var mid := d.blocks;
      WriteGroup(d, bm, starts[i], i * nb, nb);
      StoredStep(bm[..], old(d.blocks), mid, d.blocks, starts, nb, groups, i);
      i := i + 1;
    }
  }

  /** get_block_alloc_bit and get_inode_alloc_bit. */
  method GetBit(bm: array<byte>, x: nat) returns (bit: nat)
    requires 1 <= x && (x - 1) / 8 < bm.Length
    ensures bit == FlatBit(bm[..], x)
  {
    var index, offset := (x - 1) / 8, (x - 1) % 8;
    ShiftMaskIsBit(bm[index], offset);
    bit := ShiftAndMask(bm[index], offset);
  }

  /** The buffer has a bit for every object. */
  lemma Covers(total: nat, per: nat, nb: nat, groups: nat, x: nat)
    requires per > 0 && nb == CeilDiv(CeilDiv(per, BITS_PER_BYTE), BLOCK_SIZE) && groups == CeilDiv(total, per)
    requires 1 <= x <= total
    ensures nb > 0 && (x - 1) / BITS_PER_BLOCK < groups * nb && (x - 1) / 8 < groups * nb * BLOCK_SIZE
  {
    assert per <= nb * BITS_PER_BLOCK;
    MulMono(per, nb * BITS_PER_BLOCK, groups);
    assert groups * per >= total;
    assert (nb * BITS_PER_BLOCK) * groups == (groups * nb) * BITS_PER_BLOCK;
  }

  /** fix_block_bitmap_in_partition: flips object `x`'s bit and no other. */
  method FixBit(bm: array<byte>, x: nat)
    requires 1 <= x && (x - 1) / 8 < bm.Length
    modifies bm
    ensures FlatBit(bm[..], x) == 1 - old(FlatBit(bm[..], x))
    ensures forall y :: 1 <= y && y != x && (y - 1) / 8 < bm.Length ==> FlatBit(bm[..], y) == old(FlatBit(bm[..], y))
  {
    ghost var was := bm[..];
    var index, offset := (x - 1) / 8, (x - 1) % 8;
    bm[index] := FlipBit(bm[index], offset);
    forall y | 1 <= y && (y - 1) / 8 < bm.Length
      ensures FlatBit(bm[..], y) == if y == x then 1 - FlatBit(was, x) else FlatBit(was, y)
    {
      if (y - 1) / 8 == index {
        FlipOneBit(was[index], offset, (y - 1) % 8);
        assert y == x <==> (y - 1) % 8 == offset;
      }
    }
  }
}
