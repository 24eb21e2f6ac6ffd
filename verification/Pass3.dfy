/** pass3: link counts. */
module Pass3 {
  import opened Bytes
  import opened Disk
  import opened Inode
  import opened Tree
  import opened Layout
  import opened Walk
  import opened Rescue

  /** The sixteen bits that write_inode stores for a `char` counter that has been
      incremented `n` times: the counter is sign-extended to 32 bits first. */
  function StoredLinks(n: nat): (r: nat)
    ensures r < U16_LIMIT
  {
    Char(n) % U16_LIMIT
  }

  /** When the stored count is the true one. */
  lemma StoredExact(n: nat)
    ensures StoredLinks(n) == n <==> n <= 127 || U16_LIMIT - 128 <= n < U16_LIMIT
  {
  }

  /** When the stored count compares equal to the counter on a second run. */
  lemma StoredStable(n: nat)
    ensures StoredLinks(n) == Char(n) <==> n % 256 < 128
  {
  }

  /** Inode `n`'s record after pass3. */
  function Relinked(s: seq<byte>, n: nat): seq<byte>
    requires |s| == INODE_SIZE
  {
    PutLe(s, 26, StoredLinks(n), 2)
  }

  /** Inodes below `i` have been dealt with, the others not; nothing but table
      blocks has changed. */
  ghost predicate Midway(g: Geometry, was: Image, now: Image, refs: seq<nat>, i: nat)
    requires Tables(g, |was|) && |was| == |now| && |refs| == g.inodesCount + 1
  {
    && (forall n :: 1 <= n <= g.inodesCount ==>
          InodeBytes(g, now, n) == if n < i then Relinked(InodeBytes(g, was, n), refs[n]) else InodeBytes(g, was, n))
    && (forall b :: 0 <= b < |now| && !IsTableBlock(g, b) ==> now[b] == was[b])
  }

  lemma RelinkedSame(s: seq<byte>, n: nat)
    requires |s| == INODE_SIZE && DecodeInode(s).links == StoredLinks(n)
    ensures Relinked(s, n) == s
  {
    PutU16(s, 26, StoredLinks(n));
    assert U16(s, 26) == StoredLinks(n);
    assert s[26] == StoredLinks(n) % 256 && s[27] == StoredLinks(n) / 256;
  }

  lemma EqualIsStored(links: nat, n: nat)
    requires links < U16_LIMIT && links == Char(n)
    ensures links == StoredLinks(n)
  {
  }

  lemma MidwayKeep(g: Geometry, was: Image, now: Image, refs: seq<nat>, i: nat)
    requires Tables(g, |was|) && |was| == |now| && |refs| == g.inodesCount + 1 && 1 <= i <= g.inodesCount
    requires Midway(g, was, now, refs, i) && InodeAt(g, now, i).links == Char(refs[i])
    ensures Midway(g, was, now, refs, i + 1)
  {
    EqualIsStored(InodeAt(g, now, i).links, refs[i]);
    RelinkedSame(InodeBytes(g, was, i), refs[i]);
  }

  lemma MidwayWrite(g: Geometry, was: Image, mid: Image, refs: seq<nat>, i: nat)
    requires Tables(g, |was|) && |was| == |mid| && |refs| == g.inodesCount + 1 && 1 <= i <= g.inodesCount
    requires Midway(g, was, mid, refs, i)
    ensures Midway(g, was, PutLinks(g, mid, i, StoredLinks(refs[i])), refs, i + 1)
  {
    hide InodeBytes, PutLe;
    var now := PutLinks(g, mid, i, StoredLinks(refs[i]));
    PutLinksHere(g, mid, i, StoredLinks(refs[i]));
    forall n | 1 <= n <= g.inodesCount
      ensures InodeBytes(g, now, n) ==
              if n < i + 1 then Relinked(InodeBytes(g, was, n), refs[n]) else InodeBytes(g, was, n)
    {
      if n != i { PutLinksElsewhere(g, mid, i, StoredLinks(refs[i]), n); }
    }
    TableBlockIsTable(g, i);
  }

  /** Nothing to correct. */
  ghost predicate LinksRight(g: Geometry, img: Image, refs: seq<nat>)
    requires Tables(g, |img|) && |refs| == g.inodesCount + 1
  {
    forall n :: 1 <= n <= g.inodesCount ==> InodeAt(g, img, n).links == Char(refs[n])
  }

  /** pass3's loop: every inode whose count differs from its counter is rewritten. */
  method CorrectLinks(d: Disk, counter: array<int>, ghost refs: seq<nat>)
    requires Tables(d.g, |d.blocks|) && counter.Length == d.g.inodesCount + 1 && Counts(counter, refs)
    modifies d
    ensures |d.blocks| == |old(d.blocks)| && |refs| == d.g.inodesCount + 1
    ensures Midway(d.g, old(d.blocks), d.blocks, refs, d.g.inodesCount + 1)
    ensures LinksRight(d.g, old(d.blocks), refs) ==> d.blocks == old(d.blocks)
    ensures LinksRight(d.g, old(d.blocks), refs) <==> d.writes == old(d.writes)
  {
    hide Midway, PutLinks, InodeBytes, InodeAt, StoredLinks, Char;
    MidwayStart(d.g, d.blocks, refs);
    var i := 1;
    while i <= d.g.inodesCount
      invariant 1 <= i <= d.g.inodesCount + 1 && |d.blocks| == |old(d.blocks)|
      invariant Midway(d.g, old(d.blocks), d.blocks, refs, i)
      invariant |d.writes| >= |old(d.writes)|
      invariant d.writes == old(d.writes) ==> d.blocks == old(d.blocks)
      invariant (forall n :: 1 <= n < i ==> InodeAt(d.g, old(d.blocks), n).links == Char(refs[n])) <==>
                d.writes == old(d.writes)
    {
      var inode := ReadInode(d, i);
      if inode.links != counter[i] {
        MidwayWrite(d.g, old(d.blocks), d.blocks, refs, i);
        StoredIs(d.g, d.blocks, i, refs[i]);
        WriteInode(d, i, counter[i] % U32_LIMIT);
      } else {
        MidwayKeep(d.g, old(d.blocks), d.blocks, refs, i);
      }
      i := i + 1;
    }
  }

  lemma MidwayStart(g: Geometry, img: Image, refs: seq<nat>)
    requires Tables(g, |img|) && |refs| == g.inodesCount + 1
    ensures Midway(g, img, img, refs, 1)
  {
  }

  /** The `char` argument becomes an unsigned 32-bit one, of which two bytes are stored. */
  lemma StoredIs(g: Geometry, img: Image, i: nat, n: nat)
    requires Tables(g, |img|) && g.HasInode(i)
    ensures PutLinks(g, img, i, Char(n) % U32_LIMIT) == PutLinks(g, img, i, StoredLinks(n))
  {
    var s, o := img[TableBlock(g, i)], TableOffset(g, i) + 26;
    var v := Char(n) % U32_LIMIT;
    StoredLow(n);
    hide PutLe, StoredLinks, Char;
    PutU16(s, o, v);
    PutU16(s, o, StoredLinks(n));
    LowBytes(v);
  }

  lemma StoredLow(n: nat)
    ensures StoredLinks(n) == Char(n) % U32_LIMIT % U16_LIMIT
  {
  }

  lemma LowBytes(v: nat)
    ensures v % 256 == v % U16_LIMIT % 256 && v / 256 % 256 == v % U16_LIMIT / 256 % 256
  {
    var q, r := v / U16_LIMIT, v % U16_LIMIT;
    assert v == U16_LIMIT * q + r && r == 256 * (r / 256) + r % 256;
    DivUnique(v, 256, 256 * q + r / 256, r % 256);
    DivUnique(256 * q + r / 256, 256, q, r / 256);
  }

  /** An image whose tables differ only in link counts holds the same tree. */
  lemma WorldRelinked(g: Geometry, was: Image, now: Image, P: Places, D: Dirs, refs: seq<nat>)
    requires World(g, was, P, D) && |was| == |now| && |refs| == g.inodesCount + 1
    requires Midway(g, was, now, refs, g.inodesCount + 1)
    ensures World(g, now, P, D)
    ensures forall n :: 1 <= n <= g.inodesCount ==>
            InodeAt(g, now, n) == InodeAt(g, was, n).(links := StoredLinks(refs[n]))
  {
    hide InodeBytes, PutLe, StoredLinks;
    forall n | 1 <= n <= g.inodesCount
      ensures InodeAt(g, now, n) == InodeAt(g, was, n).(links := StoredLinks(refs[n]))
    {
      DecodePutLinks(InodeBytes(g, was, n), StoredLinks(refs[n]));
    }
    forall n, i | n in P && 0 <= i < |P[n]|
      ensures P[n][i] < |now| && now[P[n][i]] == was[P[n][i]] && !IsMeta(g, P[n][i])
    {
    }
  }

  /** pass3: every inode's link count becomes the number of entries of the tree
      that name it, as a wrapped `char`; no other byte of the disk changes. */
  method Pass3(d: Disk, ghost P: Places, ghost D: Dirs, ghost F: Forest) returns (ghost refs: seq<nat>)
    requires World(d.g, d.blocks, P, D) && Tables(d.g, |d.blocks|)
    requires ROOT_INO in D && Unfolds(D, Kids(D, ROOT_INO), F) && InRange(D, d.g.inodesCount + 1)
    modifies d
    ensures |d.blocks| == |old(d.blocks)| && |refs| == d.g.inodesCount + 1
    ensures forall x :: 0 <= x < |refs| ==> refs[x] == Refs(D, Whole(F), x)
    ensures Midway(d.g, old(d.blocks), d.blocks, refs, d.g.inodesCount + 1) && World(d.g, d.blocks, P, D)
    ensures LinksRight(d.g, old(d.blocks), refs) ==> d.blocks == old(d.blocks)
    ensures LinksRight(d.g, old(d.blocks), refs) <==> d.writes == old(d.writes)
  {
    hide World, Midway, InodeAt, LinksRight;
    var counter := new int[d.g.inodesCount + 1](x => 0);
    ghost var zero := seq(d.g.inodesCount + 1, x => 0);
    refs := Traverse(d, counter, ROOT_INO, P, D, F, zero);
    CorrectLinks(d, counter, refs);
    WorldRelinked(d.g, old(d.blocks), d.blocks, P, D, refs);
  }
}
