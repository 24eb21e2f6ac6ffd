/** add_to_lost_found: where a rescued inode's entry goes, and what the scan does
  to a block whose chain stopped early. */
module LostFound {
  import opened Bytes
  import opened DirBlock
  import opened Disk
  import opened Inode
  import opened Tree
  import opened Dots
  import opened Layout
  import opened Names

  /** "lost+found" */
  const LOST_FOUND: seq<byte> := [108, 111, 115, 116, 43, 102, 111, 117, 110, 100]

  datatype Option<T> = None | Some(value: T)

  /** search_dir_entry: the first entry whose name compares equal. */
  function Find(es: seq<Entry>, name: seq<byte>): Option<nat> {
    if es == [] then None
    else if CStr(es[0].name) == name then Some(es[0].ino)
    else Find(es[1..], name)
  }

  /** `entry.name_len` after a block has been scanned: unchanged by an empty chain. */
  function StaleLen(es: seq<Entry>, junk: nat): nat {
    if es == [] then junk else |es[|es| - 1].name|
  }

  /** Whether the chain reached the block's end. */
  ghost predicate Complete(es: seq<Entry>) { es != [] && Span(es) == BLOCK_SIZE }

  /** `offset` after `offset -= len`: the last entry's start when the chain was
      complete; one past the zero entry when `len` was -1. */
  ghost function SpliceStart(es: seq<Entry>): nat {
    if Complete(es) then Span(es[..|es| - 1]) else Span(es) + 1
  }

  /** The strict fit test. */
  ghost predicate Fits(es: seq<Entry>, junk: nat, e: Entry) {
    SpliceStart(es) + Pad4(PREFIX_LEN + StaleLen(es, junk)) + e.recLen < BLOCK_SIZE
  }

  /** The block the loop settles on, from block `j` on; `|bs|` when none fits. */
  ghost function Slot(bs: seq<seq<Entry>>, j: nat, junk: nat, e: Entry): (r: nat)
    requires j <= |bs|
    ensures j <= r <= |bs|
    decreases |bs| - j
  {
    if j == |bs| || Fits(bs[j], junk, e) then j else Slot(bs, j + 1, StaleLen(bs[j], junk), e)
  }

  /** Records that hold their own names. */
  ghost predicate Sound(es: seq<Entry>) {
    forall k :: 0 <= k < |es| ==> |es[k].name| <= 255 && PREFIX_LEN + |es[k].name| <= es[k].recLen
  }

  /** A splice is meaningful here: the chain is complete and the last record can
      be cut to its padded length. */
  ghost predicate Spliceable(es: seq<Entry>) {
    Complete(es) && CutOf(es[|es| - 1]) <= es[|es| - 1].recLen
  }

  ghost function SpliceOr(es: seq<Entry>, e: Entry): seq<Entry> {
    if Spliceable(es) then Splice(es, e) else es
  }

  /** The directory after the loop.  When the settled-on block's chain had stopped
      at a zero inode the new bytes land behind that stop and are never decoded. */
  ghost function Inserted(bs: seq<seq<Entry>>, junk: nat, e: Entry): seq<seq<Entry>> {
    var j := Slot(bs, 0, junk, e);
    if j < |bs| then bs[j := SpliceOr(bs[j], e)] else bs
  }

  /** The inode's entry becomes visible. */
  ghost predicate Lands(bs: seq<seq<Entry>>, junk: nat, e: Entry) {
    var j := Slot(bs, 0, junk, e);
    j < |bs| && Spliceable(bs[j])
  }

  /** The uninitialised struct is overwritten before it matters once the
      directory's first block holds an entry. */
  lemma JunkUnused(bs: seq<seq<Entry>>, j: nat, k: nat, e: Entry)
    requires |bs| > 0 && bs[0] != []
    ensures Inserted(bs, j, e) == Inserted(bs, k, e)
  {
    assert StaleLen(bs[0], j) == StaleLen(bs[0], k);
    assert Fits(bs[0], j, e) == Fits(bs[0], k, e);
    assert Slot(bs, 0, j, e) == if Fits(bs[0], j, e) then 0 else Slot(bs, 1, StaleLen(bs[0], j), e);
  }

  /** `entry.name_len` after block `j` has been scanned: that of the last entry met so far,
      or what the uninitialised struct held. */
  function LenAt(bs: seq<seq<Entry>>, j: nat, junk: nat): nat
    requires j < |bs|
  {
    if bs[j] != [] then |bs[j][|bs[j]| - 1].name| else if j == 0 then junk else LenAt(bs, j - 1, junk)
  }

  /** Block `j` has room for `e` behind its last entry, cut to its header and name rounded
      up to four bytes; in a block whose chain stopped early, behind the stop. */
  ghost predicate RoomAt(bs: seq<seq<Entry>>, j: nat, junk: nat, e: Entry)
    requires j < |bs|
  {
    && var es := bs[j];
    && var last := if es != [] && Span(es) == 1024 then Span(es[..|es| - 1]) else Span(es) + 1;
    last + (8 + LenAt(bs, j, junk) + 3) / 4 * 4 + e.recLen < 1024
  }

  /** A block's entries with `e` behind the last one, which gives up what it does not need. */
  function WithEntry(es: seq<Entry>, e: Entry): seq<Entry>
    requires Cuts(es)
  {
    var last := es[|es| - 1];
    var cut := (8 + |last.name| + 3) / 4 * 4;
    es[..|es| - 1] + [last.(recLen := cut), e.(recLen := last.recLen - cut)]
  }

  lemma PadIs(len: nat)
    ensures Pad4(PREFIX_LEN + len) == (8 + len + 3) / 4 * 4
  {
  }

  lemma RoomIsFits(bs: seq<seq<Entry>>, j: nat, junk: nat, e: Entry)
    requires j < |bs|
    ensures RoomAt(bs, j, junk, e) <==> Fits(bs[j], if j == 0 then junk else LenAt(bs, j - 1, junk), e)
  {
    PadIs(LenAt(bs, j, junk));
  }

  /** The loop tries every block in turn. */
  lemma {:induction false} SlotIsFirst(bs: seq<seq<Entry>>, j: nat, junk: nat, e: Entry)
    requires j <= |bs|
    ensures var k := Slot(bs, j, if j == 0 then junk else LenAt(bs, j - 1, junk), e);
            && (k < |bs| ==> RoomAt(bs, k, junk, e))
            && (forall i :: j <= i < k ==> !RoomAt(bs, i, junk, e))
    decreases |bs| - j
  {
    hide RoomAt, Fits;
    if j < |bs| {
      RoomIsFits(bs, j, junk, e);
      SlotIsFirst(bs, j + 1, junk, e);
    }
  }

  /** Room behind a complete chain means that the last entry can be cut. */
  lemma RoomCuts(bs: seq<seq<Entry>>, k: nat, junk: nat, e: Entry)
    requires k < |bs| && RoomAt(bs, k, junk, e) && Complete(bs[k])
    ensures Cuts(bs[k])
    ensures Spliceable(bs[k]) && Splice(bs[k], e) == WithEntry(bs[k], e)
  {
    var es := bs[k];
    var n := |es| - 1;
    assert es == es[..n] + [es[n]];
    SpanCat(es[..n], [es[n]]);
    assert Span([es[n]]) == es[n].recLen + Span([es[n]][1..]);
    PadIs(|es[n].name|);
  }

  /** Block `k` is the first with room. */
  ghost predicate FirstRoom(bs: seq<seq<Entry>>, k: nat, junk: nat, e: Entry) {
    k < |bs| && RoomAt(bs, k, junk, e) && forall j :: 0 <= j < k ==> !RoomAt(bs, j, junk, e)
  }

  /** What the last record of `es` needs is no more than it has. */
  predicate Cuts(es: seq<Entry>) {
    es != [] && (8 + |es[|es| - 1].name| + 3) / 4 * 4 <= es[|es| - 1].recLen
  }

  /** The first block with room takes the entry, if its chain is complete; in a block whose
      chain stopped early the entry is not to be seen.  Without room anywhere nothing is
      written. */
  lemma FirstFit(bs: seq<seq<Entry>>, junk: nat, e: Entry)
    ensures forall k: nat :: FirstRoom(bs, k, junk, e) && Complete(bs[k]) ==>
              Lands(bs, junk, e) && Cuts(bs[k]) && Inserted(bs, junk, e) == bs[k := WithEntry(bs[k], e)]
    ensures forall k: nat :: FirstRoom(bs, k, junk, e) && !Complete(bs[k]) ==>
              !Lands(bs, junk, e) && Inserted(bs, junk, e) == bs
    ensures (forall k :: 0 <= k < |bs| ==> !RoomAt(bs, k, junk, e)) ==>
              !Lands(bs, junk, e) && Inserted(bs, junk, e) == bs
  {
    hide RoomAt, Fits;
    SlotIsFirst(bs, 0, junk, e);
    var s := Slot(bs, 0, junk, e);
    if s < |bs| && Complete(bs[s]) { RoomCuts(bs, s, junk, e); }
  }

  /** Where all chains are complete, an entry shows exactly when some block has room behind
      the cut last entry, and it is in the first such block. */
  lemma CompleteFit(bs: seq<seq<Entry>>, junk: nat, e: Entry)
    requires forall k :: 0 <= k < |bs| ==> bs[k] != [] && Span(bs[k]) == 1024
    ensures Lands(bs, junk, e) <==> exists k :: 0 <= k < |bs| && TailRoom(bs[k], e)
    ensures forall k: nat :: FirstTail(bs, k, e) ==>
                               Cuts(bs[k]) && Inserted(bs, junk, e) == bs[k := WithEntry(bs[k], e)]
  {
    hide *;
    forall k | 0 <= k < |bs|
      ensures (RoomAt(bs, k, junk, e) <==> TailRoom(bs[k], e)) && Complete(bs[k])
    {
      TailIsRoom(bs, k, junk, e);
    }
    forall k: nat | FirstTail(bs, k, e)
      ensures FirstRoom(bs, k, junk, e) && k < |bs|
    {
      FirstTailIs(bs, k, junk, e);
    }
    FirstFit(bs, junk, e);
    SomeFirst(bs, junk, e);
  }

  lemma TailIsRoom(bs: seq<seq<Entry>>, k: nat, junk: nat, e: Entry)
    requires k < |bs| && bs[k] != [] && Span(bs[k]) == 1024
    ensures (RoomAt(bs, k, junk, e) <==> TailRoom(bs[k], e)) && Complete(bs[k])
  {
  }

  lemma FirstTailIs(bs: seq<seq<Entry>>, k: nat, junk: nat, e: Entry)
    requires forall i :: 0 <= i < |bs| ==> bs[i] != [] && (RoomAt(bs, i, junk, e) <==> TailRoom(bs[i], e))
    requires FirstTail(bs, k, e)
    ensures FirstRoom(bs, k, junk, e) && k < |bs|
  {
    hide RoomAt, TailRoom;
  }

  lemma SomeFirst(bs: seq<seq<Entry>>, junk: nat, e: Entry)
    ensures (exists k :: 0 <= k < |bs| && RoomAt(bs, k, junk, e)) ==> exists k: nat :: FirstRoom(bs, k, junk, e)
    ensures forall k: nat :: FirstRoom(bs, k, junk, e) ==> k < |bs| && RoomAt(bs, k, junk, e)
  {
    hide RoomAt;
    SlotIsFirst(bs, 0, junk, e);
    if exists k :: 0 <= k < |bs| && RoomAt(bs, k, junk, e) {
      assert FirstRoom(bs, Slot(bs, 0, junk, e), junk, e);
    }
  }

  ghost predicate FirstTail(bs: seq<seq<Entry>>, k: nat, e: Entry)
    requires forall i :: 0 <= i < |bs| ==> bs[i] != []
  {
    k < |bs| && TailRoom(bs[k], e) && forall j :: 0 <= j < k ==> !TailRoom(bs[j], e)
  }

  ghost predicate TailRoom(es: seq<Entry>, e: Entry)
    requires es != []
  {
    Span(es[..|es| - 1]) + (8 + |es[|es| - 1].name| + 3) / 4 * 4 + e.recLen < 1024
  }

  lemma {:induction false} SoundDecode(b: Block, o: nat)
    requires Chain(b, o)
    ensures Sound(Decode(b, o)) && o + Span(Decode(b, o)) <= BLOCK_SIZE
    ensures forall k :: 0 <= k < |Decode(b, o)| ==> Decode(b, o)[k].ino != 0
    decreases BLOCK_SIZE - o
  {
    if o < BLOCK_SIZE && U32(b, o) != 0 {
      var es := Decode(b, o);
      SoundDecode(b, o + U16(b, o + 4));
      assert es[1..] == Decode(b, o + U16(b, o + 4));
      forall k | 0 <= k < |es|
        ensures |es[k].name| <= 255 && PREFIX_LEN + |es[k].name| <= es[k].recLen && es[k].ino != 0
      {
        if k > 0 { assert es[k] == es[1..][k - 1]; }
      }
    }
  }

  /** Where the chain stops: at the block's end, or at a zero inode. */
  lemma StopsAt(b: Block, es: seq<Entry>)
    requires BlockFrom(b, 0, es)
    ensures Span(es) <= BLOCK_SIZE && At(b, 0, |es|) == Span(es)
    ensures Span(es) < BLOCK_SIZE ==> Span(es) + 4 <= BLOCK_SIZE && U32(b, Span(es)) == 0
    ensures es != [] ==> Span(es[..|es| - 1]) == At(b, 0, |es| - 1)
    ensures es != [] ==> Span(es[..|es| - 1]) + es[|es| - 1].recLen == Span(es)
  {
    SoundDecode(b, 0);
    AtIsSpan(b, 0, |es|);
    assert es[..|es|] == es;
    DecodeSuffix(b, 0, |es|);
    if es != [] {
      AtSucc(b, 0, |es| - 1);
      AtIsSpan(b, 0, |es| - 1);
    }
  }

  /** The bytes written when the settled-on block's chain was complete. */
  lemma SpliceLands(b: Block, c: Block, es: seq<Entry>, junk: nat, e: Entry)
    requires BlockFrom(b, 0, es) && Complete(es) && Fits(es, junk, e)
    requires |e.name| <= 255 && e.fileType < 256 && 0 < e.ino < U32_LIMIT && PREFIX_LEN + |e.name| <= e.recLen
    requires c == SpliceBytes(b, SpliceStart(es), CutOf(es[|es| - 1]), e)
    ensures Spliceable(es) && BlockFrom(c, 0, Splice(es, e))
  {
    hide Chain, Decode, At, SpliceBytes, Spliced, Sound;
    var k := |es| - 1;
    StopsAt(b, es);
    SoundDecode(b, 0);
    var at, cut := At(b, 0, k), CutOf(es[k]);
    assert cut <= es[k].recLen;
    BytesAreSpliced(b, c, at, cut, e);
    var e' := e.(recLen := BLOCK_SIZE - (at + cut));
    SpliceDecodes(b, c, 0, k, e');
    assert Splice(es, e') == Splice(es, e);
  }

  /** When the chain had stopped at a zero inode the edit leaves the decoded
      block as it was: the new entry is lost. */
  lemma SpliceLost(b: Block, c: Block, es: seq<Entry>, at: nat, cut: nat, e: Entry)
    requires BlockFrom(b, 0, es) && Span(es) < BLOCK_SIZE && at == Span(es) + 1
    requires |e.name| <= 255 && e.fileType < 256 && PREFIX_LEN <= cut
    requires at + cut + PREFIX_LEN + |e.name| + 1 <= BLOCK_SIZE && c == SpliceBytes(b, at, cut, e)
    ensures BlockFrom(c, 0, es)
  {
    StopsAt(b, es);
    var z := Span(es);
    assert U32(c, z) == U32(b, z);
    DecodePrefix(b, c, 0, |es|);
    DecodeSuffix(b, 0, |es|);
    assert es[..|es|] + [] == es;
  }

  /** The insertion shows exactly when the block it settles on was complete. */
  lemma LandsIffComplete(b: Block, c: Block, es: seq<Entry>, junk: nat, e: Entry)
    requires BlockFrom(b, 0, es) && Fits(es, junk, e)
    requires |e.name| <= 255 && e.fileType < 256 && 0 < e.ino < U32_LIMIT && PREFIX_LEN + |e.name| <= e.recLen
    requires c == SpliceBytes(b, SpliceStart(es), Pad4(PREFIX_LEN + StaleLen(es, junk)), e)
    ensures Chain(c, 0)
    ensures Complete(es) <==> |Decode(c, 0)| == |es| + 1
    ensures if Complete(es) then Spliceable(es) && Decode(c, 0) == Splice(es, e) else Decode(c, 0) == es
  {
    hide Chain, Decode, At, SpliceBytes;
    StopsAt(b, es);
    if Complete(es) {
      SpliceLands(b, c, es, junk, e);
    } else {
      if es == [] { assert Span(es) == 0; }
      SpliceLost(b, c, es, Span(es) + 1, Pad4(PREFIX_LEN + StaleLen(es, junk)), e);
    }
  }

  /** search_dir_entry on one block (it returns after the first). */
  method SearchDirEntry(dirBlock: array<byte>, name: seq<byte>, ghost es: seq<Entry>) returns (found: Option<nat>)
    requires dirBlock.Length == BLOCK_SIZE && BlockFrom(dirBlock[..], 0, es)
    ensures found == Find(es, name)
  {
    var offset := 0;
    var entry := Entry(0, 0, 0, []);
    ghost var rest := es;
    while offset < BLOCK_SIZE
      invariant 0 <= offset <= BLOCK_SIZE && BlockFrom(dirBlock[..], offset, rest)
      invariant Find(rest, name) == Find(es, name)
      decreases BLOCK_SIZE - offset
    {
      NextRecord(dirBlock[..], offset, rest);
      var len;
      len, entry := ReadDirEntry(dirBlock, offset, entry);
      if len < 0 { break; }
      if CStr(entry.name) == name { return Some(entry.ino); }
      offset := offset + len;
      rest := rest[1..];
    }
    found := None;
  }

  /** The scan for the last entry, and `offset -= len` after it. */
  method ScanBlock(dirBlock: array<byte>, prev: Entry, ghost es: seq<Entry>) returns (offset: nat, entry: Entry)
    requires dirBlock.Length == BLOCK_SIZE && BlockFrom(dirBlock[..], 0, es)
    ensures offset == SpliceStart(es) && |entry.name| == StaleLen(es, |prev.name|)
  {
    entry := prev;
    var at: int := 0;
    var len: int := 0;
    ghost var rest := es;
    ghost var k := 0;
    assert es[0..] == es;
    while at < BLOCK_SIZE
      invariant k <= |es| && rest == es[k..] && 0 <= at <= BLOCK_SIZE && at == Span(es[..k])
      invariant BlockFrom(dirBlock[..], at, rest)
      invariant |entry.name| == StaleLen(es[..k], |prev.name|)
      invariant k > 0 ==> len == es[k - 1].recLen
      decreases BLOCK_SIZE - at
    {
      NextRecord(dirBlock[..], at, rest);
      len, entry := ReadDirEntry(dirBlock, at, entry);
      if len < 0 { break; }
      at := at + len;
      ScanStep(es, k);
      rest := rest[1..];
      k := k + 1;
    }
    ScanEnd(dirBlock[..], es, k);
    offset := at - len;
  }

  lemma ScanStep(es: seq<Entry>, k: nat)
    requires k < |es|
    ensures Span(es[..k + 1]) == Span(es[..k]) + es[k].recLen
    ensures es[k..][0] == es[k] && es[k..][1..] == es[k + 1..]
    ensures es[..k + 1][k] == es[k]
  {
    assert es[..k + 1] == es[..k] + [es[k]];
    SpanCat(es[..k], [es[k]]);
    assert Span([es[k]]) == es[k].recLen + Span([]);
  }

  lemma ScanEnd(b: Block, es: seq<Entry>, k: nat)
    requires BlockFrom(b, 0, es) && k <= |es|
    ensures es[k..] == [] ==> es[..k] == es
    ensures k == |es| && es != [] ==> Span(es[..k - 1]) + es[k - 1].recLen == Span(es)
    ensures Span(es) <= BLOCK_SIZE
  {
    StopsAt(b, es);
  }

  lemma PutEntryIs(b: Block, b2: seq<byte>, c: seq<byte>, o: nat, e: Entry)
    requires |e.name| <= 255 && o + PREFIX_LEN + |e.name| + 1 <= BLOCK_SIZE && e.fileType < 256 && |c| == BLOCK_SIZE
    requires b2 == PutLe(PutLe(b, o, e.ino, 4), o + 4, e.recLen, 2)
    requires forall i :: 0 <= i < BLOCK_SIZE && !(o + 6 <= i < o + 9 + |e.name|) ==> c[i] == b2[i]
    requires c[o + 6] == |e.name| && c[o + 7] == e.fileType && c[o + 8 + |e.name|] == 0
    requires forall i :: o + 8 <= i < o + 8 + |e.name| ==> c[i] == e.name[i - o - 8]
    ensures c == PutEntry(b, o, e)
  {
    hide PutLe;
    var b3 := b2[o + 6 := |e.name|][o + 7 := e.fileType];
    assert c == b3[..o + 8] + e.name + [0] + b3[o + 9 + |e.name|..];
  }

  /** write_new_entry: the record takes the rest of the block. */
  method WriteNewEntry(d: Disk, e: Entry, dirBlock: array<byte>, blockId: nat, at: nat)
    requires dirBlock.Length == BLOCK_SIZE && blockId < |d.blocks|
    requires |e.name| <= 255 && e.fileType < 256 && at + PREFIX_LEN + |e.name| + 1 <= BLOCK_SIZE
    modifies d, dirBlock
    ensures dirBlock[..] == PutEntry(old(dirBlock[..]), at, e.(recLen := BLOCK_SIZE - at))
    ensures d.blocks == old(d.blocks)[blockId := dirBlock[..]] && d.writes == old(d.writes) + [blockId]
  {
    hide PutLe, PutEntry;
    ghost var b: Block := dirBlock[..];
    WriteNumber(dirBlock, at, e.ino, 4);
    WriteNumber(dirBlock, at + 4, BLOCK_SIZE - at, 2);
    ghost var b2 := dirBlock[..];
    dirBlock[at + 6] := |e.name|;
    dirBlock[at + 7] := e.fileType;
    // strncpy(..., name_len + 1): the name and its NUL
    forall k | 0 <= k <= |e.name| {
      dirBlock[at + 8 + k] := if k < |e.name| then e.name[k] else 0;
    }
    PutEntryIs(b, b2, dirBlock[..], at, e.(recLen := BLOCK_SIZE - at));
    d.WriteBlock(blockId, dirBlock, 0);
    assert dirBlock[0..0 + BLOCK_SIZE] == dirBlock[..];
  }

  /** Block `id` has its record at `offset` cut to `cut` bytes and `e` behind it. */
  ghost predicate Edited(was: Image, now: Image, id: nat, offset: nat, cut: nat, e: Entry) {
    && id < |was| && |e.name| <= 255 && e.fileType < 256 && 6 <= cut
    && offset + cut + PREFIX_LEN + |e.name| + 1 <= BLOCK_SIZE
    && now == was[id := SpliceBytes(was[id], offset, cut, e)]
  }

  /** The bytes that putting `e` into the directory with blocks `ps` leaves: the edit in the
      block that the loop settles on, whether the entry is to be seen there or not. */
  ghost predicate EntryPut(was: Image, now: Image, ps: seq<nat>, bs: seq<seq<Entry>>, junk: nat, e: Entry) {
    var k := Slot(bs, 0, junk, e);
    if k < |bs| then
      k < |ps| && Edited(was, now, ps[k], SpliceStart(bs[k]), Pad4(PREFIX_LEN + LenAt(bs, k, junk)), e)
    else now == was
  }

  /** And then lost+found's number over bytes 12 to 15 of block `b`, if it is on the disk. */
  ghost predicate EntryPutThen(was: Image, now: Image, ps: seq<nat>, bs: seq<seq<Entry>>, junk: nat, e: Entry,
                               b: nat, lf: nat)
  {
    exists mid: Image :: EntryPut(was, mid, ps, bs, junk, e) && now == Rewritten(mid, b, lf)
  }

  function Rewritten(img: Image, b: nat, lf: nat): (r: Image)
    ensures |r| == |img|
  {
    if b < |img| then img[b := PutLe(img[b], FIRST_ENTRY_LEN, lf, 4)] else img
  }

  /** The edit of one block, as the loop of add_to_lost_found makes it. */
  method SpliceInto(d: Disk, dirBlock: array<byte>, blockId: nat, offset: nat, cut: nat, e: Entry,
                    ghost P: Places, ghost D: Dirs, ghost lf: nat, ghost i: nat, ghost junk: nat)
    returns (ghost E: Dirs)
    requires World(d.g, d.blocks, P, D) && lf in D && i < |D[lf]| && lf in P && i < |P[lf]|
    requires dirBlock.Length == BLOCK_SIZE && blockId == P[lf][i] && blockId < |d.blocks| &&
             dirBlock[..] == d.blocks[blockId]
    requires BlockFrom(dirBlock[..], 0, D[lf][i]) && Fits(D[lf][i], junk, e)
    requires offset == SpliceStart(D[lf][i]) && cut == Pad4(PREFIX_LEN + StaleLen(D[lf][i], junk))
    requires |e.name| <= 255 && e.fileType < 256 && 0 < e.ino < U32_LIMIT && PREFIX_LEN + |e.name| <= e.recLen
    modifies d, dirBlock
    ensures E == D[lf := D[lf][i := SpliceOr(D[lf][i], e)]]
    ensures World(d.g, d.blocks, P, E) && OnlyDirsDiffer(P, old(d.blocks), d.blocks)
    ensures Edited(old(d.blocks), d.blocks, blockId, offset, cut, e) && d.writes == old(d.writes) + [blockId]
  {
    hide World, OnlyDirsDiffer, BlockFrom, PutLe, PutEntry, SpliceOr, SpliceStart, StaleLen, Fits;
    FitsTest(D[lf][i], junk, e);
    ghost var es := D[lf][i];
    ghost var fs := SpliceOr(es, e);
    E := D[lf := D[lf][i := fs]];
    ghost var b: Block := dirBlock[..];
    WriteNumber(dirBlock, offset + 4, cut, 2);
    WriteNewEntry(d, e, dirBlock, blockId, offset + cut);
    ghost var c: Block := dirBlock[..];
    SplicedBlock(b, c, es, junk, e);
    BlockRewritten(d.g, old(d.blocks), d.blocks, P, D, lf, i, fs);
  }

  lemma SplicedBlock(b: Block, c: Block, es: seq<Entry>, junk: nat, e: Entry)
    requires BlockFrom(b, 0, es) && Fits(es, junk, e)
    requires |e.name| <= 255 && e.fileType < 256 && 0 < e.ino < U32_LIMIT && PREFIX_LEN + |e.name| <= e.recLen
    requires c == SpliceBytes(b, SpliceStart(es), Pad4(PREFIX_LEN + StaleLen(es, junk)), e)
    ensures BlockFrom(c, 0, SpliceOr(es, e))
  {
    LandsIffComplete(b, c, es, junk, e);
  }

  /** The insertion loop of add_to_lost_found.  `junk` is the caller's
      uninitialised entry struct. */
  method InsertEntry(d: Disk, lf: nat, e: Entry, junk: Entry, ghost P: Places, ghost D: Dirs)
    returns (ghost E: Dirs)
    requires World(d.g, d.blocks, P, D) && lf in D && d.g.HasInode(lf)
    requires Tables(d.g, |d.blocks|)
    requires |e.name| <= 255 && e.fileType < 256 && 0 < e.ino < U32_LIMIT && PREFIX_LEN + |e.name| <= e.recLen
    modifies d
    ensures E == D[lf := Inserted(D[lf], |junk.name|, e)]
    ensures World(d.g, d.blocks, P, E) && OnlyDirsDiffer(P, old(d.blocks), d.blocks)
    ensures lf in P && EntryPut(old(d.blocks), d.blocks, P[lf], D[lf], |junk.name|, e)
  {
    hide World, OnlyDirsDiffer, BlockFrom, Fits, SpliceOr, SpliceStart, Edited;
    var inode := ReadInode(d, lf);
    var entry := junk;
    ghost var bs := D[lf];
    OnlyDirsRefl(P, d.blocks);
    var dirBlock := new byte[BLOCK_SIZE];
    E := D;
    var i := 0;
    WalkReads(d.g, d.blocks, P, D, lf, 0);
    while i < N_BLOCKS
      invariant 0 <= i <= |bs| && E == D && d.blocks == old(d.blocks)
      invariant Slot(bs, i, |entry.name|, e) == Slot(bs, 0, |junk.name|, e)
      invariant |entry.name| == if i == 0 then |junk.name| else LenAt(bs, i - 1, |junk.name|)
    {
      WalkReads(d.g, d.blocks, P, D, lf, i);
      var blockId := inode.block[i];
      if blockId == 0 { break; }
      d.ReadBlock(blockId, dirBlock, 0);
      ghost var stale := |entry.name|;
      var offset;
      offset, entry := ScanBlock(dirBlock, entry, bs[i]);
      var cut := Pad4(PREFIX_LEN + |entry.name|);
      FitsTest(bs[i], stale, e);
      if offset + cut + e.recLen < BLOCK_SIZE {
        E := SpliceInto(d, dirBlock, blockId, offset, cut, e, P, D, lf, i, stale);
        assert Slot(bs, 0, |junk.name|, e) == i;
        return;
      }
      i := i + 1;
    }
    assert D[lf := D[lf]] == D;
  }

  lemma FitsTest(es: seq<Entry>, junk: nat, e: Entry)
    ensures Fits(es, junk, e) <==> SpliceStart(es) + Pad4(PREFIX_LEN + StaleLen(es, junk)) + e.recLen < BLOCK_SIZE
  {
  }

  /** The directories after inode `n` has been put into `lf`. */
  ghost function Rescued(D: Dirs, lf: nat, n: nat, junk: nat, e: Entry): Dirs
    requires lf in D && (n in D ==> Rewritable(D[n])) && n != lf
  {
    var D1 := D[lf := Inserted(D[lf], junk, e)];
    if n in D then SetIno(D1, n, 1, lf) else D1
  }

  /** The bytes that the `..` rewrite aims at, 12 to 15, are the second entry's
      inode: the first record is 12 bytes long. */
  predicate Rewritable(bs: seq<seq<Entry>>) {
    |bs| > 0 && |bs[0]| >= 2 && bs[0][0].recLen == FIRST_ENTRY_LEN
  }

  const FIRST_ENTRY_LEN: nat := 12

  lemma SecondRecordAt(b: Block, es: seq<Entry>)
    requires BlockFrom(b, 0, es) && |es| >= 2
    ensures At(b, 0, 1) == es[0].recLen
  {
    AtSucc(b, 0, 0);
  }

  /** The four bytes written at offset 12 make the second record, wherever it begins, name
      lost+found exactly when the first one is 12 bytes long, unless it did already.
      Records begin at multiples of four bytes. */
  lemma RewriteLandsIff(b: Block, c: Block, es: seq<Entry>, lf: nat)
    requires BlockFrom(b, 0, es) && |es| >= 2 && es[0].recLen % 4 == 0
    requires 0 < lf < U32_LIMIT && c == PutLe(b, FIRST_ENTRY_LEN, lf, 4)
    ensures es[0].recLen + 4 <= BLOCK_SIZE && U32(b, es[0].recLen) == es[1].ino
    ensures U32(c, es[0].recLen) == lf <==> es[0].recLen == FIRST_ENTRY_LEN || es[1].ino == lf
  {
    hide PutLe, Chain;
    PutU32(b, FIRST_ENTRY_LEN, lf);
    NextRecord(b, 0, es);
    NextRecord(b, es[0].recLen, es[1..]);
  }

  /** A block that is neither directory nor metadata may hold anything. */
  lemma OtherRewritten(g: Geometry, a: Image, b: Image, P: Places, D: Dirs, k: nat)
    requires World(g, a, P, D) && |b| == |a| && k < |a|
    requires !IsDirBlock(P, k) && !IsMeta(g, k)
    requires forall j :: 0 <= j < |a| && j != k ==> b[j] == a[j]
    ensures World(g, b, P, D)
  {
    forall n | n in P
      ensures g.HasInode(n) && Walks(InodeAt(g, b, n).block, P[n])
    {
      TableBlockIsTable(g, n);
      SameInode(g, a, b, n);
    }
    forall n, i | n in P && 0 <= i < |P[n]|
      ensures P[n][i] < |b| && BlockFrom(b[P[n][i]], 0, D[n][i])
    {
      DirBlockIsDir(P, n, i);
    }
  }

  /** Images that agree outside the directory blocks and `X`. */
  ghost predicate OnlyDirsOr(P: Places, X: set<nat>, a: Image, b: Image) {
    |a| == |b| && forall k :: 0 <= k < |a| && !IsDirBlock(P, k) && k !in X ==> a[k] == b[k]
  }

  /** The first block of inode `n`. */
  ghost function FirstBlock(g: Geometry, img: Image, n: nat): nat
    requires Tables(g, |img|) && g.HasInode(n)
  {
    InodeAt(g, img, n).block[0]
  }

  /** Inode `n`'s first block is safe to write when `n` is no directory: if it is on the
      disk at all, it holds neither directory entries nor metadata. */
  ghost predicate LooseBlock(g: Geometry, img: Image, P: Places, n: nat)
    requires Tables(g, |img|) && g.HasInode(n)
  {
    var b := FirstBlock(g, img, n);
    b < |img| ==> !IsDirBlock(P, b) && !IsMeta(g, b)
  }

  /** The block outside the directories that rescuing `n` writes. */
  ghost function LooseSet(g: Geometry, img: Image, D: Dirs, n: nat): set<nat>
    requires Tables(g, |img|) && g.HasInode(n)
  {
    if n in D then {} else {FirstBlock(g, img, n)}
  }

  /** Block `b` with lost+found's inode number over bytes 12 to 15. */
  ghost predicate Clobbered(was: Image, now: Image, b: nat, lf: Option<nat>) {
    lf.Some? ==> b < |was| && |now| == |was| && now[b] == PutLe(was[b], FIRST_ENTRY_LEN, lf.value, 4)
  }

  /** The rewrite leaves a rescued file's first block as it was exactly when bytes 12 to
      15 hold lost+found's inode number already; a file has no `..` there. */
  lemma FileKeptIff(b: Block, lf: nat)
    requires 0 < lf < U32_LIMIT
    ensures PutLe(b, FIRST_ENTRY_LEN, lf, 4) == b <==> U32(b, FIRST_ENTRY_LEN) == lf
  {
    PutU32(b, FIRST_ENTRY_LEN, lf);
    PutSame(b, FIRST_ENTRY_LEN);
  }

  /** The last step of add_to_lost_found: four bytes at offset 12 of the inode's
      first block, whatever the inode is.  The program exits if that block is not on
      the disk. */
  method RewriteParent(d: Disk, n: nat, lf: nat, ghost P: Places, ghost D: Dirs)
    returns (exited: bool, ghost E: Dirs)
    requires World(d.g, d.blocks, P, D) && Tables(d.g, |d.blocks|) && d.g.HasInode(n) && 0 < lf < U32_LIMIT
    requires n in D ==> Rewritable(D[n])
    requires n !in D ==> LooseBlock(d.g, d.blocks, P, n)
    modifies d
    ensures E == (if n in D then SetIno(D, n, 1, lf) else D) && World(d.g, d.blocks, P, E)
    ensures exited <==> FirstBlock(d.g, old(d.blocks), n) >= |old(d.blocks)|
    ensures exited ==> n !in D && d.blocks == old(d.blocks) && d.writes == old(d.writes)
    ensures OnlyDirsOr(P, {FirstBlock(d.g, old(d.blocks), n)}, old(d.blocks), d.blocks)
    ensures n in D ==> OnlyDirsDiffer(P, old(d.blocks), d.blocks)
    ensures var b := FirstBlock(d.g, old(d.blocks), n);
            !exited ==> d.blocks == old(d.blocks)[b := PutLe(old(d.blocks)[b], FIRST_ENTRY_LEN, lf, 4)]
  {
    hide World, Decode, Chain, At, PutLe, Tables;
    var inode := ReadInode(d, n);
    var blockId := inode.block[0];
    var dirBlock := new byte[BLOCK_SIZE];
    if n in D { WalkReads(d.g, d.blocks, P, D, n, 0); }
    if blockId >= |d.blocks| { return true, D; }
    d.ReadBlock(blockId, dirBlock, 0);
    ghost var b: Block := dirBlock[..];
    WriteNumber(dirBlock, FIRST_ENTRY_LEN, lf, 4);
    d.WriteBlock(blockId, dirBlock, 0);
    assert dirBlock[0..0 + BLOCK_SIZE] == dirBlock[..];
    exited := false;
    if n in D {
      E := SetIno(D, n, 1, lf);
      SecondRecordAt(b, D[n][0]);
      WrittenIno(b, dirBlock[..], D[n][0], 1, lf);
      BlockRewritten(d.g, old(d.blocks), d.blocks, P, D, n, 0, D[n][0][1 := D[n][0][1].(ino := lf)]);
    } else {
      E := D;
      OtherRewritten(d.g, old(d.blocks), d.blocks, P, D, blockId);
    }
  }

  /** What add_to_lost_found comes to: -1 without a lost+found, nothing, or the end of
      the program. */
  datatype Status = NotFound | Done | Exit

  /** add_to_lost_found: -1, and nothing written, when the root has no lost+found. */
  method AddToLostFound(d: Disk, n: nat, junk: Entry, ghost P: Places, ghost D: Dirs)
    returns (status: Status, ghost E: Dirs)
    requires World(d.g, d.blocks, P, D) && Tables(d.g, |d.blocks|) && d.g.HasInode(n) && d.g.HasInode(ROOT_INO)
    requires d.g.inodesCount < U32_LIMIT && ROOT_INO in D && D[ROOT_INO] != []
    requires Find(D[ROOT_INO][0], LOST_FOUND).Some? ==>
               var lf := Find(D[ROOT_INO][0], LOST_FOUND).value; lf in D && lf != n && d.g.HasInode(lf)
    requires n in D ==> Rewritable(D[n])
    requires n !in D ==> LooseBlock(d.g, d.blocks, P, n)
    modifies d
    ensures status.NotFound? <==> Find(D[ROOT_INO][0], LOST_FOUND).None?
    ensures status.NotFound? ==> d.blocks == old(d.blocks) && E == D
    ensures status.Exit? <==>
              Find(D[ROOT_INO][0], LOST_FOUND).Some? && n !in D &&
              FirstBlock(d.g, old(d.blocks), n) >= |old(d.blocks)|
    ensures !status.NotFound? ==>
              E == Rescued(D, Find(D[ROOT_INO][0], LOST_FOUND).value, n, |junk.name|,
                           NewEntry(n, InodeAt(d.g, old(d.blocks), n).IsDir()))
    ensures World(d.g, d.blocks, P, E)
    ensures !status.NotFound? ==>
              var lf := Find(D[ROOT_INO][0], LOST_FOUND).value;
              lf in P && EntryPutThen(old(d.blocks), d.blocks, P[lf], D[lf], |junk.name|,
                                      NewEntry(n, InodeAt(d.g, old(d.blocks), n).IsDir()),
                                      FirstBlock(d.g, old(d.blocks), n), lf)
    ensures OnlyDirsOr(P, LooseSet(d.g, old(d.blocks), D, n), old(d.blocks), d.blocks)
    ensures status.Done? && n !in D ==>
              Clobbered(old(d.blocks), d.blocks, FirstBlock(d.g, old(d.blocks), n), Find(D[ROOT_INO][0], LOST_FOUND))
  {
    hide World, Decode, Chain, Inserted, PutLe, OnlyDirsOr, OnlyDirsDiffer, Clobbered, InodeAt, FirstBlock, Tables,
         EntryPut;
    OrRefl(P, LooseSet(d.g, d.blocks, D, n), d.blocks);
    E := D;
    WalkReads(d.g, d.blocks, P, D, ROOT_INO, 0);
    var root := ReadInode(d, ROOT_INO);
    var dirBlock := new byte[BLOCK_SIZE];
    d.ReadBlock(root.block[0], dirBlock, 0);
    var found := SearchDirEntry(dirBlock, LOST_FOUND, D[ROOT_INO][0]);
    if found.None? { return NotFound, D; }
    var lf := found.value;
    var inode := ReadInode(d, n);
    var e := CreateNewEntry(n, inode.IsDir());
    NameShape(n);
    E := InsertEntry(d, lf, e, junk, P, D);
    ghost var mid := d.blocks;
    InodeUnmoved(d.g, old(d.blocks), mid, P, D, n);
    var exited;
    ghost var E';
    exited, E' := RewriteParent(d, n, lf, P, E);
    if n in D { FirstOnDisk(d.g, old(d.blocks), P, D, n); }
    TwoWrites(d.g, old(d.blocks), mid, d.blocks, P, D, n, lf, exited);
    E := E';
    status := if exited then Exit else Done;
  }

  lemma OrRefl(P: Places, X: set<nat>, a: Image)
    ensures OnlyDirsOr(P, X, a, a)
  {
  }

  /** The insertion and the rewrite together. */
  lemma TwoWrites(g: Geometry, a: Image, mid: Image, b: Image, P: Places, D: Dirs, n: nat, lf: nat, exited: bool)
    requires Tables(g, |a|) && |mid| == |a| && g.HasInode(n) && InodeAt(g, mid, n) == InodeAt(g, a, n)
    requires OnlyDirsDiffer(P, a, mid) && OnlyDirsOr(P, {FirstBlock(g, mid, n)}, mid, b)
    requires n in D ==> OnlyDirsDiffer(P, mid, b)
    requires n !in D ==> LooseBlock(g, mid, P, n)
    requires exited <==> FirstBlock(g, mid, n) >= |mid|
    requires !exited ==>
               b == mid[FirstBlock(g, mid, n) := PutLe(mid[FirstBlock(g, mid, n)], FIRST_ENTRY_LEN, lf, 4)]
    ensures FirstBlock(g, mid, n) == FirstBlock(g, a, n)
    ensures OnlyDirsOr(P, LooseSet(g, a, D, n), a, b)
    ensures !exited && n !in D ==> Clobbered(a, b, FirstBlock(g, a, n), Some(lf))
  {
    hide InodeAt, Tables, PutLe, IsDirBlock, IsMeta;
  }

  /** A directory's first block is on the disk. */
  lemma FirstOnDisk(g: Geometry, img: Image, P: Places, D: Dirs, n: nat)
    requires World(g, img, P, D) && Tables(g, |img|) && g.HasInode(n) && n in D && Rewritable(D[n])
    ensures FirstBlock(g, img, n) < |img|
  {
    WalkReads(g, img, P, D, n, 0);
  }

  lemma InodeUnmoved(g: Geometry, a: Image, b: Image, P: Places, D: Dirs, n: nat)
    requires World(g, a, P, D) && OnlyDirsDiffer(P, a, b) && g.HasInode(n)
    ensures |b| == |a| && Tables(g, |a|) && InodeAt(g, b, n) == InodeAt(g, a, n)
    ensures FirstBlock(g, b, n) == FirstBlock(g, a, n) && (LooseBlock(g, b, P, n) <==> LooseBlock(g, a, P, n))
  {
    hide InodeAt;
    InodesKept(g, a, b, P, n);
  }
}
