/** partitionEntry.c: reading partition entries, and the walk through an extended
  partition.  Sector numbers are 32-bit and wrap, as `unsigned int` does. */
module Partition {
  import opened Bytes

  const SECTOR_SIZE: nat := 512
  const DOS_EXTENDED: byte := 5
  const FIRST_ENTRY: nat := 446
  const ENTRY_SIZE: nat := 16

  type Sector = s: seq<byte> | |s| == SECTOR_SIZE witness seq(SECTOR_SIZE, i => 0)
  type Device = seq<Sector>

  datatype PartitionEntry = PartitionEntry(kind: byte, start: nat, length: nat)
  {
    /** The sector after the last one, as the program computes it. */
    function End(): (n: nat)
      ensures n < U32_LIMIT
    {
      (start + length) % U32_LIMIT
    }
  }

  /** The entry at `offset` of a sector, read from sector `start`. */
  function EntryOf(s: seq<byte>, start: nat, offset: nat): (e: PartitionEntry)
    requires offset + ENTRY_SIZE <= |s|
    ensures e.start < U32_LIMIT && e.length < U32_LIMIT
  {
    PartitionEntry(s[offset + 4], (start + U32(s, offset + 8)) % U32_LIMIT, U32(s, offset + 12))
  }

  /** read_partition_entry.  The two parse lengths are `offset + 12` and
      `offset + 16`, so bytes far behind the entry are read, and shifted out. */
  method ReadPartitionEntry(section: array<byte>, start: nat, offset: nat) returns (entry: PartitionEntry)
    requires 2 * offset + 28 <= section.Length
    ensures entry == EntryOf(section[..], start, offset)
  {
    var rel := ParseBytes(section, offset + 8, offset + 12);
    var length := ParseBytes(section, offset + 12, offset + 16);
    LongParseIsU32(section[..], offset + 8, offset + 12);
    LongParseIsU32(section[..], offset + 12, offset + 16);
    entry := PartitionEntry(section[offset + 4], (start + rel) % U32_LIMIT, length);
  }

  /** What reading a partition's entry comes to; `Exit` is the program ending because
      a sector is not on the device. */
  datatype Outcome = Valid(entry: PartitionEntry) | Invalid | Exit

  /** read_ebr between two looks at a sector: the rest of the range, the number left
      to count down to 4, and the entry read last. */
  datatype Walk = At(start: nat, end: nat, num: nat, entry: PartitionEntry) | Done(result: Outcome)

  function Step(dev: Device, w: Walk): Walk {
    if w.Done? then w
    else if w.num == 4 then Done(Valid(w.entry))
    else if w.start >= w.end then Done(Invalid)
    else if w.start >= |dev| then Done(Exit)
    else
      var e := EntryOf(dev[w.start], w.start, FIRST_ENTRY);
      if e.End() > w.end then Done(Invalid)
      else if e.kind == DOS_EXTENDED then At(e.start, e.End(), w.num, e)
      else At(e.End(), w.end, if w.num > 0 then w.num - 1 else 0, e)
  }

  function Steps(dev: Device, w: Walk, k: nat): Walk
    decreases k
  {
    if k == 0 then w else Steps(dev, Step(dev, w), k - 1)
  }

  /** Where read_ebr begins, below the entry `base`. */
  function Enter(base: PartitionEntry, num: nat): (w: Walk) {
    At(base.start, base.End(), num, base)
  }

  ghost predicate Halts(dev: Device, w: Walk) {
    exists k: nat :: Steps(dev, w, k).Done?
  }

  lemma {:induction false} StaysDone(dev: Device, w: Walk, k: nat)
    requires w.Done?
    ensures Steps(dev, w, k) == w
    decreases k
  {
    if k > 0 { StaysDone(dev, w, k - 1); }
  }

  lemma {:induction false} StepsAdd(dev: Device, w: Walk, j: nat, k: nat)
    ensures Steps(dev, w, j + k) == Steps(dev, Steps(dev, w, j), k)
    decreases j
  {
    if j > 0 { StepsAdd(dev, Step(dev, w), j - 1, k); }
  }

  /** A walk ends in one way only. */
  lemma OneEnd(dev: Device, w: Walk, j: nat, k: nat)
    requires Steps(dev, w, j).Done? && Steps(dev, w, k).Done?
    ensures Steps(dev, w, j) == Steps(dev, w, k)
  {
    if j <= k {
      StepsAdd(dev, w, j, k - j);
      StaysDone(dev, Steps(dev, w, j), k - j);
    } else {
      StepsAdd(dev, w, k, j - k);
      StaysDone(dev, Steps(dev, w, k), j - k);
    }
  }

  /** How a walk that halts ends. */
  ghost function Result(dev: Device, w: Walk): (r: Outcome)
    requires Halts(dev, w)
  {
    var k: nat :| Steps(dev, w, k).Done?;
    Steps(dev, w, k).result
  }

  lemma ResultIs(dev: Device, w: Walk, k: nat)
    requires Steps(dev, w, k).Done?
    ensures Halts(dev, w) && Result(dev, w) == Steps(dev, w, k).result
  {
    var j: nat :| Steps(dev, w, j).Done? && Result(dev, w) == Steps(dev, w, j).result;
    OneEnd(dev, w, j, k);
  }

  /** A buffer that starts with the sector holds the sector's entry. */
  lemma SectorEntry(buf: seq<byte>, s: Sector, start: nat)
    requires |buf| >= SECTOR_SIZE && buf[..SECTOR_SIZE] == s && start < U32_LIMIT
    ensures EntryOf(buf, start, FIRST_ENTRY) == EntryOf(s, start, FIRST_ENTRY)
  {
    assert forall k :: 0 <= k < SECTOR_SIZE ==> buf[k] == s[k];
  }

  /** read_ebr.  `behind` is the memory that follows the sector buffer. */
  method ReadEbr(dev: Device, base: PartitionEntry, partitionNum: nat, behind: seq<byte>, ghost fuel: nat)
    returns (r: Outcome)
    requires partitionNum > 4 && base.start < U32_LIMIT && |behind| == SECTOR_SIZE
    requires Steps(dev, Enter(base, partitionNum), fuel).Done?
    ensures Steps(dev, Enter(base, partitionNum), fuel) == Done(r)
    decreases fuel
  {
    var start: nat, end: nat, num: nat := base.start, base.End(), partitionNum;
    var entry := base;
    ghost var left: nat := fuel;
    var section := new byte[2 * SECTOR_SIZE](i => 0);
    while num != 4
      invariant 4 <= num && start < U32_LIMIT && left <= fuel
      invariant Steps(dev, At(start, end, num, entry), left) == Steps(dev, Enter(base, partitionNum), fuel)
      decreases num
    {
      if start >= end { StaysDone(dev, Done(Invalid), left - 1); return Invalid; }
      if start >= |dev| { StaysDone(dev, Done(Exit), left - 1); return Exit; }
      FillSection(section, dev[start], behind);
      SectorEntry(section[..], dev[start], start);
      entry := ReadPartitionEntry(section, start, FIRST_ENTRY);
      if entry.End() > end { StaysDone(dev, Done(Invalid), left - 1); return Invalid; }
      left := left - 1;
      if entry.kind == DOS_EXTENDED {
        r := ReadEbr(dev, entry, num, behind, left);
        return;
      }
      num := num - 1;
      start := entry.End();
    }
    StaysDone(dev, Done(Valid(entry)), left - 1);
    return Valid(entry);
  }

  /** read_sectors into the start of the buffer. */
  method FillSection(section: array<byte>, s: Sector, behind: seq<byte>)
    requires section.Length == 2 * SECTOR_SIZE && |behind| == SECTOR_SIZE
    modifies section
    ensures section[..] == s + behind && section[..SECTOR_SIZE] == s
  {
    forall k | 0 <= k < 2 * SECTOR_SIZE {
      section[k] := (s + behind)[k];
    }
    assert section[..] == s + behind;
    assert (s + behind)[..SECTOR_SIZE] == s;
  }

  /** The walk is about to read the sector it stands at. */
  predicate Reads(dev: Device, w: Walk) {
    w.At? && w.num != 4 && w.start < w.end && w.start < |dev|
  }

  ghost predicate EntryFits(s: Sector, k: nat) {
    k + U32(s, FIRST_ENTRY + 8) + U32(s, FIRST_ENTRY + 12) < U32_LIMIT
  }

  /** No entry that the walk reads makes a sector number wrap. */
  ghost predicate NoWrap(dev: Device, w: Walk) {
    forall k: nat :: Reads(dev, Steps(dev, w, k)) ==> EntryFits(dev[Steps(dev, w, k).start], Steps(dev, w, k).start)
  }

  lemma NoWrapHere(dev: Device, w: Walk)
    requires NoWrap(dev, w)
    ensures Reads(dev, w) ==> EntryFits(dev[w.start], w.start)
    ensures NoWrap(dev, Step(dev, w))
  {
    assert Steps(dev, w, 0) == w;
    forall k: nat | Reads(dev, Steps(dev, Step(dev, w), k))
      ensures EntryFits(dev[Steps(dev, Step(dev, w), k).start], Steps(dev, Step(dev, w), k).start)
    {
      assert Steps(dev, w, k + 1) == Steps(dev, Step(dev, w), k);
    }
  }

  lemma {:induction false} NoWrapLater(dev: Device, w: Walk, k: nat)
    requires NoWrap(dev, w)
    ensures NoWrap(dev, Steps(dev, w, k))
    decreases k
  {
    if k > 0 {
      NoWrapHere(dev, w);
      NoWrapLater(dev, Step(dev, w), k - 1);
    }
  }

  lemma StepStays(dev: Device, w: Walk)
    requires NoWrap(dev, w) && w.At? && Step(dev, w).At?
    ensures w.start <= Step(dev, w).start && Step(dev, w).end <= w.end && NoWrap(dev, Step(dev, w))
    ensures w.start <= Step(dev, w).entry.start
    ensures Step(dev, w).entry.start + Step(dev, w).entry.length <= w.end
    ensures Step(dev, w).entry.kind != DOS_EXTENDED ==>
              Step(dev, w).start == Step(dev, w).entry.start + Step(dev, w).entry.length
  {
    NoWrapHere(dev, w);
    StepEntry(dev[w.start], w.start);
  }

  lemma StepEntry(s: Sector, k: nat)
    requires EntryFits(s, k)
    ensures var e := EntryOf(s, k, FIRST_ENTRY);
            e.start >= k && e.start + e.length < U32_LIMIT && e.End() == e.start + e.length
  {
  }

  /** A valid result lies in the range that was left, however deeply extended
      entries are nested. */
  lemma {:induction false} ResultInside(dev: Device, w: Walk, k: nat)
    requires NoWrap(dev, w) && w.At? && w.num > 4 && Steps(dev, w, k).Done? && Steps(dev, w, k).result.Valid?
    ensures w.start <= Steps(dev, w, k).result.entry.start
    ensures Steps(dev, w, k).result.entry.start + Steps(dev, w, k).result.entry.length <= w.end
    decreases k
  {
    var w1 := Step(dev, w);
    if w1.Done? {
      StaysDone(dev, w1, k - 1);
    } else {
      StepStays(dev, w);
      if w1.num > 4 {
        ResultInside(dev, w1, k - 1);
      } else {
        StaysDone(dev, Step(dev, w1), k - 2);
      }
    }
  }

  /** Every valid result lies inside the outermost extended range. */
  lemma InsideOutermost(dev: Device, base: PartitionEntry, num: nat)
    requires NoWrap(dev, Enter(base, num)) && num > 4 && Halts(dev, Enter(base, num))
    requires Result(dev, Enter(base, num)).Valid?
    ensures var e := Result(dev, Enter(base, num)).entry;
            base.start <= e.start && e.start + e.length <= base.End() <= base.start + base.length
  {
    var k: nat :| Steps(dev, Enter(base, num), k).Done?;
    ResultIs(dev, Enter(base, num), k);
    ResultInside(dev, Enter(base, num), k);
  }

  /** Walks for different numbers take the same way until the smaller number is found. */
  lemma {:induction false} ResultsOrdered(dev: Device, v: Walk, w: Walk, j: nat, k: nat)
    requires NoWrap(dev, w) && v.At? && w.At? && v.start == w.start && v.end == w.end && 4 < v.num < w.num
    requires Steps(dev, v, j).Done? && Steps(dev, v, j).result.Valid?
    requires Steps(dev, w, k).Done? && Steps(dev, w, k).result.Valid?
    ensures var e, f := Steps(dev, v, j).result.entry, Steps(dev, w, k).result.entry;
            e.start + e.length <= f.start
    decreases j
  {
    var v1, w1 := Step(dev, v), Step(dev, w);
    NoWrapHere(dev, w);
    if v1.Done? {
      StaysDone(dev, v1, j - 1);
    } else if v1.num > 4 {
      ResultsOrdered(dev, v1, w1, j - 1, k - 1);
    } else {
      StepEntry(dev[w.start], w.start);
      StaysDone(dev, Step(dev, v1), j - 2);
      ResultInside(dev, w1, k - 1);
    }
  }

  /** Partitions with different numbers never overlap: the later one starts at or
      after the earlier one's end. */
  lemma NoOverlap(dev: Device, base: PartitionEntry, p: nat, q: nat)
    requires NoWrap(dev, Enter(base, q)) && 4 < p < q
    requires Halts(dev, Enter(base, p)) && Halts(dev, Enter(base, q))
    requires Result(dev, Enter(base, p)).Valid? && Result(dev, Enter(base, q)).Valid?
    ensures var e, f := Result(dev, Enter(base, p)).entry, Result(dev, Enter(base, q)).entry;
            e.start + e.length <= f.start
  {
    var j: nat :| Steps(dev, Enter(base, p), j).Done?;
    var k: nat :| Steps(dev, Enter(base, q), k).Done?;
    ResultIs(dev, Enter(base, p), j);
    ResultIs(dev, Enter(base, q), k);
    ResultsOrdered(dev, Enter(base, p), Enter(base, q), j, k);
  }

  /** At a non-empty extended entry that names the very sector it is read from. */
  predicate NamesItself(dev: Device, w: Walk) {
    && w.At? && w.num != 4 && w.start < w.end && w.start < |dev|
    && var e := EntryOf(dev[w.start], w.start, FIRST_ENTRY);
       e.End() <= w.end && e.kind == DOS_EXTENDED && e.start == w.start && 0 < e.length
  }

  lemma {:induction false} StuckForever(dev: Device, w: Walk, k: nat)
    requires NoWrap(dev, w) && NamesItself(dev, w)
    ensures NamesItself(dev, Steps(dev, w, k))
    decreases k
  {
    if k > 0 {
      NoWrapHere(dev, w);
      StuckForever(dev, Step(dev, w), k - 1);
    }
  }

  /** The walk meets no such entry. */
  ghost predicate MovesOn(dev: Device, w: Walk) {
    forall k: nat :: !NamesItself(dev, Steps(dev, w, k))
  }

  /** Nothing left to read, or fewer numbers to count, or a shorter range. */
  lemma {:induction false} MeasureFalls(dev: Device, w: Walk)
    requires NoWrap(dev, w) && w.At? && 4 <= w.num && MovesOn(dev, w)
    ensures Halts(dev, w)
    decreases w.num, if w.start < w.end then w.end - w.start else 0
  {
    var w1 := Step(dev, w);
    assert !NamesItself(dev, Steps(dev, w, 0));
    if w1.Done? {
      assert Steps(dev, w1, 0).Done?;
      assert Steps(dev, w, 1) == Steps(dev, w1, 0);
    } else {
      StepStays(dev, w);
      forall k: nat
        ensures !NamesItself(dev, Steps(dev, w1, k))
      {
        assert Steps(dev, w, k + 1) == Steps(dev, w1, k);
      }
      MeasureFalls(dev, w1);
      var k: nat :| Steps(dev, w1, k).Done?;
      assert Steps(dev, w, k + 1) == Steps(dev, w1, k);
    }
  }

  lemma HaltedNeverStuck(dev: Device, w: Walk, j: nat, k: nat)
    requires NoWrap(dev, w) && Steps(dev, w, j).Done?
    ensures !NamesItself(dev, Steps(dev, w, k))
  {
    if NamesItself(dev, Steps(dev, w, k)) {
      StepsAdd(dev, w, k, j);
      StepsAdd(dev, w, j, k);
      NoWrapLater(dev, w, k);
      StuckForever(dev, Steps(dev, w, k), j);
      StaysDone(dev, Steps(dev, w, j), k);
    }
  }

  /** read_ebr ends exactly when its walk meets no extended entry naming the sector
      it is read from. */
  lemma HaltsIff(dev: Device, w: Walk)
    requires NoWrap(dev, w) && w.At? && 4 <= w.num
    ensures Halts(dev, w) <==> MovesOn(dev, w)
  {
    if Halts(dev, w) {
      var j: nat :| Steps(dev, w, j).Done?;
      forall k: nat
        ensures !NamesItself(dev, Steps(dev, w, k))
      {
        HaltedNeverStuck(dev, w, j, k);
      }
    } else if MovesOn(dev, w) {
      MeasureFalls(dev, w);
    }
  }

  /** Enough to end: every extended entry that the walk reads starts behind its own sector. */
  lemma ForwardHalts(dev: Device, w: Walk)
    requires NoWrap(dev, w) && w.At? && 4 <= w.num
    requires forall k: nat :: Reads(dev, Steps(dev, w, k)) ==> Forward(dev[Steps(dev, w, k).start])
    ensures Halts(dev, w)
  {
    forall k: nat
      ensures !NamesItself(dev, Steps(dev, w, k))
    {
      NoWrapLater(dev, w, k);
      NoWrapHere(dev, Steps(dev, w, k));
    }
    HaltsIff(dev, w);
  }

  /** An extended entry lies behind the sector naming it. */
  predicate Forward(s: Sector) {
    s[FIRST_ENTRY + 4] == DOS_EXTENDED ==> U32(s, FIRST_ENTRY + 8) > 0
  }

  function MbrEntry(mbr: Sector, i: nat): (e: PartitionEntry)
    requires 1 <= i <= 4
  {
    EntryOf(mbr, 0, FIRST_ENTRY + ENTRY_SIZE * (i - 1))
  }

  /** The first extended primary partition, or 5. */
  function FirstExtended(mbr: Sector, i: nat): (r: nat)
    requires 1 <= i <= 5
    ensures i <= r <= 5
    ensures r < 5 ==> MbrEntry(mbr, r).kind == DOS_EXTENDED
    ensures forall j :: i <= j < r ==> MbrEntry(mbr, j).kind != DOS_EXTENDED
    decreases 5 - i
  {
    if i == 5 || MbrEntry(mbr, i).kind == DOS_EXTENDED then i else FirstExtended(mbr, i + 1)
  }

  /** read_mbr. */
  method ReadMbr(section: array<byte>, mbr: Sector, i: nat) returns (e: PartitionEntry)
    requires section.Length == 2 * SECTOR_SIZE && section[..SECTOR_SIZE] == mbr && 1 <= i <= 4
    ensures e == MbrEntry(mbr, i)
  {
    e := ReadPartitionEntry(section, 0, FIRST_ENTRY + ENTRY_SIZE * (i - 1));
    assert forall k :: 0 <= k < SECTOR_SIZE ==> section[k] == mbr[k];
  }

  /** What read_partition_info leaves in the global entry. */
  ghost function InfoOf(dev: Device, num: nat): (r: Outcome)
    requires 1 <= num && (|dev| > 0 ==> InfoHalts(dev, num))
  {
    if |dev| == 0 then Exit
    else if num <= 4 then Valid(MbrEntry(dev[0], num))
    else
      var i := FirstExtended(dev[0], 1);
      if i > 4 then Invalid else Result(dev, Enter(MbrEntry(dev[0], i), num))
  }

  ghost predicate InfoHalts(dev: Device, num: nat)
    requires |dev| > 0
  {
    num > 4 && FirstExtended(dev[0], 1) <= 4 ==> Halts(dev, Enter(MbrEntry(dev[0], FirstExtended(dev[0], 1)), num))
  }

  /** read_partition_info. */
  method ReadPartitionInfo(dev: Device, num: nat, behind: seq<byte>) returns (r: Outcome)
    requires 1 <= num && |behind| == SECTOR_SIZE && (|dev| > 0 ==> InfoHalts(dev, num))
    ensures r == InfoOf(dev, num)
  {
    if |dev| == 0 { return Exit; }
    var section := new byte[2 * SECTOR_SIZE](i => 0);
    FillSection(section, dev[0], behind);
    if num <= 4 {
      var e := ReadMbr(section, dev[0], num);
      return Valid(e);
    }
    var i := 1;
    var base := PartitionEntry(0, 0, 0);
    while i <= 4
      invariant 1 <= i <= 5 && FirstExtended(dev[0], i) == FirstExtended(dev[0], 1)
      invariant section[..SECTOR_SIZE] == dev[0]
    {
      base := ReadMbr(section, dev[0], i);
      if base.kind == DOS_EXTENDED { break; }
      i := i + 1;
    }
    if i > 4 { return Invalid; }
    ghost var fuel: nat :| Steps(dev, Enter(base, num), fuel).Done?;
    ResultIs(dev, Enter(base, num), fuel);
    r := ReadEbr(dev, base, num, behind, fuel);
  }
}
