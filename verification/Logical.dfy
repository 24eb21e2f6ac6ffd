/** Which logical partitions an extended partition holds, written down on the sectors
  themselves, and that read_ebr finds exactly those. */
module Logical {
  import opened Bytes
  import opened Partition

  /** Sectors `start` to `end` - 1 are still to be looked at. */
  datatype Range = Range(start: nat, end: nat)

  /** Sector `s` of 512 bytes, number `at`, holds entry `e`: the type at byte 450, the start relative
      to the sector at 454 and the length at 458, sector numbers having 32 bits. */
  predicate Holds(s: Sector, at: nat, e: PartitionEntry) {
    |s| == 512 && e.kind == s[450] && e.start == (at + U32(s, 454)) % 0x1_0000_0000 && e.length == U32(s, 458)
  }

  /** The sector behind an entry's last one. */
  function Behind(e: PartitionEntry): nat { (e.start + e.length) % 0x1_0000_0000 }

  /** The first sector of the range holds `e`, and `e` ends inside the range or with it. */
  predicate Found(dev: Device, r: Range, e: PartitionEntry) {
    r.start < r.end && r.start < |dev| && Holds(dev[r.start], r.start, e) && Behind(e) <= r.end
  }

  /** Inside an extended entry (type 5) its own range is next, after any other entry the
      rest of the range. */
  function After(r: Range, e: PartitionEntry): Range {
    if e.kind == 5 then Range(e.start, Behind(e)) else Range(Behind(e), r.end)
  }

  /** The entries `es` found one after the other, in the ranges `rs`. */
  ghost predicate Trail(dev: Device, rs: seq<Range>, es: seq<PartitionEntry>) {
    && |rs| == |es| + 1
    && forall i :: 0 <= i < |es| ==> Found(dev, rs[i], es[i]) && rs[i + 1] == After(rs[i], es[i])
  }

  /** The logical partitions among them: those that are not extended. */
  function Logicals(es: seq<PartitionEntry>): (ls: seq<PartitionEntry>)
    ensures |ls| <= |es|
  {
    if es == [] then [] else (if es[0].kind == 5 then [] else [es[0]]) + Logicals(es[1..])
  }

  /** No entry is found in the range: it is empty, or its first sector is not on the
      device, or the entry there reaches beyond the range. */
  ghost predicate NothingAt(dev: Device, r: Range, how: Outcome) {
    if r.start < r.end && r.start >= |dev| then how == Exit
    else how == Invalid && forall e :: !Found(dev, r, e)
  }

  function EntryIn(s: Sector, at: nat): (e: PartitionEntry)
    ensures Holds(s, at, e)
  {
    PartitionEntry(s[450], (at + U32(s, 454)) % 0x1_0000_0000, U32(s, 458))
  }

  lemma StepResult(dev: Device, w: Walk, how: Outcome)
    requires Halts(dev, Step(dev, w)) && Result(dev, Step(dev, w)) == how
    ensures Halts(dev, w) && Result(dev, w) == how
  {
    var k: nat :| Steps(dev, Step(dev, w), k).Done?;
    ResultIs(dev, Step(dev, w), k);
    assert Steps(dev, w, k + 1) == Steps(dev, Step(dev, w), k);
    ResultIs(dev, w, k + 1);
  }

  lemma DoneResult(dev: Device, how: Outcome)
    ensures Halts(dev, Done(how)) && Result(dev, Done(how)) == how
  {
    assert Steps(dev, Done(how), 0) == Done(how);
    ResultIs(dev, Done(how), 0);
  }

  /** One entry on a trail is one step of the walk. */
  lemma FoundStep(dev: Device, r: Range, e: PartitionEntry, num: nat, last: PartitionEntry)
    requires Found(dev, r, e) && num > 4
    ensures Step(dev, At(r.start, r.end, num, last))
            == At(After(r, e).start, After(r, e).end, if e.kind == 5 then num else num - 1, e)
  {
    assert EntryOf(dev[r.start], r.start, FIRST_ENTRY) == e;
  }

  lemma NothingStep(dev: Device, r: Range, how: Outcome, num: nat, last: PartitionEntry)
    requires NothingAt(dev, r, how) && num > 4
    ensures Step(dev, At(r.start, r.end, num, last)) == Done(how)
  {
    if r.start < r.end && r.start < |dev| { assert !Found(dev, r, EntryIn(dev[r.start], r.start)); }
  }

  lemma LogicalsHead(es: seq<PartitionEntry>)
    requires es != []
    ensures Logicals(es) == if es[0].kind == 5 then Logicals(es[1..]) else [es[0]] + Logicals(es[1..])
  {
  }

  lemma TrailTail(dev: Device, rs: seq<Range>, es: seq<PartitionEntry>)
    requires Trail(dev, rs, es) && es != []
    ensures Trail(dev, rs[1..], es[1..]) && Found(dev, rs[0], es[0]) && rs[1] == After(rs[0], es[0])
  {
    hide Found, After;
    assert rs[0 + 1] == After(rs[0], es[0]);
    forall i | 0 <= i < |es[1..]|
      ensures Found(dev, rs[1..][i], es[1..][i]) && rs[1..][i + 1] == After(rs[1..][i], es[1..][i])
    {
      assert Found(dev, rs[i + 1], es[i + 1]) && rs[i + 1 + 1] == After(rs[i + 1], es[i + 1]);
    }
  }

  /** A walk along a trail finds the trail's logical partitions in order, and where the
      trail can go no further it finds no more. */
  lemma {:induction false} TrailResult(dev: Device, rs: seq<Range>, es: seq<PartitionEntry>, num: nat,
                                       last: PartitionEntry, how: Outcome)
    requires Trail(dev, rs, es) && num > 4
    ensures var w, ls := At(rs[0].start, rs[0].end, num, last), Logicals(es);
            && (num - 5 < |ls| ==> Halts(dev, w) && Result(dev, w) == Valid(ls[num - 5]))
            && (num - 5 >= |ls| && NothingAt(dev, rs[|es|], how) ==> Halts(dev, w) && Result(dev, w) == how)
    decreases |es|
  {
    hide Found, NothingAt, Halts, Result, Steps, Step;
    var w := At(rs[0].start, rs[0].end, num, last);
    if es == [] {
      if NothingAt(dev, rs[0], how) {
        NothingStep(dev, rs[0], how, num, last);
        DoneResult(dev, how);
        StepResult(dev, w, how);
      }
    } else {
      var e := es[0];
      TrailTail(dev, rs, es);
      LogicalsHead(es);
      FoundStep(dev, rs[0], e, num, last);
      if e.kind != 5 && num == 5 {
        LastStep(dev, Step(dev, w), e);
        StepResult(dev, w, Valid(e));
      } else {
        TrailResult(dev, rs[1..], es[1..], if e.kind == 5 then num else num - 1, e, how);
        if Halts(dev, Step(dev, w)) { StepResult(dev, w, Result(dev, Step(dev, w))); }
      }
    }
  }

  lemma LastStep(dev: Device, w: Walk, e: PartitionEntry)
    requires w.At? && w.num == 4 && w.entry == e
    ensures Halts(dev, w) && Result(dev, w) == Valid(e)
  {
    DoneResult(dev, Valid(e));
    StepResult(dev, w, Valid(e));
  }

  /** Whatever a walk that ends comes to, a trail leads there. */
  lemma {:induction false} ResultTrail(dev: Device, w: Walk, k: nat)
    returns (rs: seq<Range>, es: seq<PartitionEntry>)
    requires w.At? && w.num > 4 && Steps(dev, w, k).Done?
    ensures Trail(dev, rs, es) && |rs| == |es| + 1 && rs[0] == Range(w.start, w.end)
    ensures var how, ls := Steps(dev, w, k).result, Logicals(es);
            if how.Valid? then w.num - 5 < |ls| && ls[w.num - 5] == how.entry
            else w.num - 5 >= |ls| && NothingAt(dev, rs[|es|], how)
    decreases k
  {
    hide Found, After, NothingAt, Holds, EntryIn, Step, Trail, Logicals;
    var r, w1 := Range(w.start, w.end), Step(dev, w);
    if w1.Done? {
      StaysDone(dev, w1, k - 1);
      rs, es := [r], [];
      NothingThere(dev, r, w);
      EmptyTrail(dev, r);
    } else {
      FoundThere(dev, r, w);
      var e := EntryIn(dev[r.start], r.start);
      FoundStep(dev, r, e, w.num, w.entry);
      if w1.num == 4 {
        FourDone(dev, w1);
        StaysDone(dev, Step(dev, w1), k - 2);
        rs, es := [r] + [After(r, e)], [e] + [];
        EmptyTrail(dev, After(r, e));
        TrailGrows(dev, r, e, [After(r, e)], []);
        LogicalsHead(es);
        assert es[1..] == [];
      } else {
        var qs, fs := ResultTrail(dev, w1, k - 1);
        rs, es := [r] + qs, [e] + fs;
        TrailGrows(dev, r, e, qs, fs);
        assert es[1..] == fs && rs[|es|] == qs[|fs|];
        LogicalsHead(es);
      }
    }
  }

  lemma EmptyTrail(dev: Device, r: Range)
    ensures Trail(dev, [r], []) && Logicals([]) == []
  {
  }

  lemma FourDone(dev: Device, w: Walk)
    requires w.At? && w.num == 4
    ensures Step(dev, w) == Done(Valid(w.entry))
  {
  }

  lemma NothingThere(dev: Device, r: Range, w: Walk)
    requires w.At? && w.num > 4 && r == Range(w.start, w.end) && Step(dev, w).Done?
    ensures NothingAt(dev, r, Step(dev, w).result) && !Step(dev, w).result.Valid?
  {
    forall e | Found(dev, r, e)
      ensures false
    {
      FoundStep(dev, r, e, w.num, w.entry);
    }
  }

  lemma FoundThere(dev: Device, r: Range, w: Walk)
    requires w.At? && w.num > 4 && r == Range(w.start, w.end) && Step(dev, w).At?
    ensures r.start < |dev| && Found(dev, r, EntryIn(dev[r.start], r.start))
  {
    assert EntryOf(dev[r.start], r.start, FIRST_ENTRY) == EntryIn(dev[r.start], r.start);
  }

  lemma TrailGrows(dev: Device, r: Range, e: PartitionEntry, qs: seq<Range>, fs: seq<PartitionEntry>)
    requires Trail(dev, qs, fs) && Found(dev, r, e) && qs[0] == After(r, e)
    ensures Trail(dev, [r] + qs, [e] + fs)
  {
    hide Found, After;
    var rs, es := [r] + qs, [e] + fs;
    forall i | 0 <= i < |es|
      ensures Found(dev, rs[i], es[i]) && rs[i + 1] == After(rs[i], es[i])
    {
      if i > 0 {
        assert Found(dev, qs[i - 1], fs[i - 1]) && qs[i - 1 + 1] == After(qs[i - 1], fs[i - 1]);
      }
    }
  }

  /** A trail from the extended entry `base`. */
  ghost predicate TrailFrom(dev: Device, base: PartitionEntry, rs: seq<Range>, es: seq<PartitionEntry>) {
    Trail(dev, rs, es) && rs[0] == Range(base.start, Behind(base))
  }

  /** read_ebr comes to logical partition `num`, counted from 5, exactly when there is
      one: the trail's non-extended entry number num - 5. */
  lemma LogicalFoundIff(dev: Device, base: PartitionEntry, num: nat, e: PartitionEntry)
    requires num > 4
    ensures (Halts(dev, Enter(base, num)) && Result(dev, Enter(base, num)) == Valid(e)) <==>
            exists rs, es :: TrailFrom(dev, base, rs, es) && num - 5 < |Logicals(es)| && Logicals(es)[num - 5] == e
  {
    hide Trail, Logicals, Halts, Result, Step;
    EnterRange(base, num);
    if Halts(dev, Enter(base, num)) && Result(dev, Enter(base, num)) == Valid(e) {
      var k := HaltsAfter(dev, Enter(base, num));
      ResultIs(dev, Enter(base, num), k);
      var rs, es := ResultTrail(dev, Enter(base, num), k);
      assert TrailFrom(dev, base, rs, es);
    }
    forall rs, es | TrailFrom(dev, base, rs, es) && num - 5 < |Logicals(es)| && Logicals(es)[num - 5] == e
      ensures Halts(dev, Enter(base, num)) && Result(dev, Enter(base, num)) == Valid(e)
    {
      TrailResult(dev, rs, es, num, base, Invalid);
    }
  }

  lemma EnterRange(base: PartitionEntry, num: nat)
    ensures Enter(base, num) == At(base.start, Behind(base), num, base)
  {
  }

  lemma HaltsAfter(dev: Device, w: Walk) returns (k: nat)
    requires Halts(dev, w)
    ensures Steps(dev, w, k).Done?
  {
    k :| Steps(dev, w, k).Done?;
  }

  /** A trail from `base` that can go no further and has too few logical partitions. */
  ghost predicate EndsShort(dev: Device, base: PartitionEntry, num: nat, rs: seq<Range>, es: seq<PartitionEntry>,
                            how: Outcome)
  {
    TrailFrom(dev, base, rs, es) && num - 5 >= |Logicals(es)| && NothingAt(dev, rs[|es|], how)
  }

  /** It comes to an invalid entry, or the program exits, exactly when the whole trail has
      too few logical partitions and goes no further for that reason. */
  lemma LogicalMissingIff(dev: Device, base: PartitionEntry, num: nat, how: Outcome)
    requires num > 4 && !how.Valid?
    ensures (Halts(dev, Enter(base, num)) && Result(dev, Enter(base, num)) == how) <==>
            exists rs, es :: EndsShort(dev, base, num, rs, es, how)
  {
    hide Trail, Logicals, Halts, Result, Step, NothingAt;
    EnterRange(base, num);
    if Halts(dev, Enter(base, num)) && Result(dev, Enter(base, num)) == how {
      var k := HaltsAfter(dev, Enter(base, num));
      ResultIs(dev, Enter(base, num), k);
      var rs, es := ResultTrail(dev, Enter(base, num), k);
      assert EndsShort(dev, base, num, rs, es, how);
    }
    forall rs, es | EndsShort(dev, base, num, rs, es, how)
      ensures Halts(dev, Enter(base, num)) && Result(dev, Enter(base, num)) == how
    {
      TrailResult(dev, rs, es, num, base, how);
    }
  }

  /** Entry `i` of the boot sector: the type at byte 434 + 16 * i, start and length four
      and eight bytes behind it. */
  predicate Primary(mbr: Sector, i: nat, e: PartitionEntry)
    requires 1 <= i <= 4
  {
    e.kind == mbr[434 + 16 * i] && e.start == U32(mbr, 438 + 16 * i) && e.length == U32(mbr, 442 + 16 * i)
  }

  /** read_partition_info on the bytes of the boot sector: entries 1 to 4 are there;
      higher numbers are looked for below the first entry of type 5. */
  lemma InfoOnBytes(dev: Device, num: nat)
    requires 1 <= num && (|dev| > 0 ==> InfoHalts(dev, num))
    ensures |dev| == 0 ==> InfoOf(dev, num) == Exit
    ensures |dev| > 0 && num <= 4 ==> InfoOf(dev, num).Valid? && Primary(dev[0], num, InfoOf(dev, num).entry)
    ensures |dev| > 0 && num > 4 && (forall i :: 1 <= i <= 4 ==> dev[0][434 + 16 * i] != 5) ==>
              InfoOf(dev, num) == Invalid
    ensures forall i, base :: |dev| > 0 && num > 4 && 1 <= i <= 4 && FirstOfType5(dev[0], i) && Primary(dev[0], i, base)
              ==> Halts(dev, Enter(base, num)) && InfoOf(dev, num) == Result(dev, Enter(base, num))
  {
    hide Halts, Result;
    if |dev| > 0 {
      forall i | 1 <= i <= 4
        ensures Primary(dev[0], i, MbrEntry(dev[0], i))
      {
      }
      FirstFive(dev[0]);
      forall i, base | num > 4 && 1 <= i <= 4 && FirstOfType5(dev[0], i) && Primary(dev[0], i, base)
        ensures Halts(dev, Enter(base, num)) && InfoOf(dev, num) == Result(dev, Enter(base, num))
      {
        assert base == MbrEntry(dev[0], i);
      }
    }
  }

  predicate FirstOfType5(mbr: Sector, i: nat)
    requires 1 <= i <= 4
  {
    mbr[434 + 16 * i] == 5 && forall j :: 1 <= j < i ==> mbr[434 + 16 * j] != 5
  }

  lemma FirstFive(mbr: Sector)
    ensures forall i :: 1 <= i <= 4 && FirstOfType5(mbr, i) ==> FirstExtended(mbr, 1) == i
    ensures (forall i :: 1 <= i <= 4 ==> mbr[434 + 16 * i] != 5) ==> FirstExtended(mbr, 1) == 5
  {
    var r := FirstExtended(mbr, 1);
    assert forall j :: 1 <= j <= 4 ==> MbrEntry(mbr, j).kind == mbr[434 + 16 * j];
    if r < 5 { assert mbr[434 + 16 * r] == 5; }
  }
}
