/** Directory blocks: dir.c's record chains, and the in-place edits that
  correct.c makes to them.

  A block is decoded the way the scan loops of correct.c and dir.c read it:
  record by record, stopping at the block's end or at a zero inode. */
module DirBlock {
  import opened Bytes

  const BLOCK_SIZE: nat := 1024
  const DIR_TYPE: nat := 2
  const REG_TYPE: nat := 1
  const PREFIX_LEN: nat := 8

  type Block = b: seq<byte> | |b| == BLOCK_SIZE witness seq(BLOCK_SIZE, i => 0)

  /** struct ext2_dir_entry_2; `name_len` is the length of `name`. */
  datatype Entry = Entry(ino: nat, recLen: nat, fileType: nat, name: seq<byte>) {
    predicate IsDir() { fileType == DIR_TYPE }
  }

  /** A record at `o` whose header and name lie inside its own `rec_len`, and
      whose `rec_len` stays inside the block. */
  predicate Record(b: Block, o: nat) {
    && o + PREFIX_LEN <= BLOCK_SIZE
    && PREFIX_LEN + b[o + 6] as nat <= U16(b, o + 4)
    && o + U16(b, o + 4) <= BLOCK_SIZE
  }

  /** The chain from `o` either tiles the rest of the block or stops at a zero inode. */
  ghost predicate Chain(b: Block, o: nat)
    decreases BLOCK_SIZE - o
  {
    o == BLOCK_SIZE ||
    (o + 4 <= BLOCK_SIZE &&
     (U32(b, o) == 0 || (Record(b, o) && Chain(b, o + U16(b, o + 4)))))
  }

  function EntryAt(b: Block, o: nat): (e: Entry)
    requires Record(b, o)
    ensures |e.name| <= 255 && PREFIX_LEN + |e.name| <= e.recLen && o + e.recLen <= BLOCK_SIZE
  {
    Entry(U32(b, o), U16(b, o + 4), b[o + 7], b[o + 8..o + 8 + b[o + 6] as nat])
  }

  ghost function Decode(b: Block, o: nat): (es: seq<Entry>)
    requires Chain(b, o)
    decreases BLOCK_SIZE - o
  {
    if o == BLOCK_SIZE || U32(b, o) == 0 then []
    else [EntryAt(b, o)] + Decode(b, o + U16(b, o + 4))
  }

  /** The bytes that a list of records covers. */
  ghost function Span(es: seq<Entry>): nat {
    if es == [] then 0 else es[0].recLen + Span(es[1..])
  }

  /** The byte position of the `k`-th record after `o`. */
  ghost function At(b: Block, o: nat, k: nat): (p: nat)
    requires Chain(b, o) && k <= |Decode(b, o)|
    ensures o <= p <= BLOCK_SIZE && Chain(b, p)
    decreases k
  {
    if k == 0 then o else At(b, o + U16(b, o + 4), k - 1)
  }

  lemma {:induction false} SpanCat(a: seq<Entry>, b: seq<Entry>)
    ensures Span(a + b) == Span(a) + Span(b)
  {
    if a == [] {
      assert a + b == b;
    } else {
      SpanCat(a[1..], b);
      assert (a + b)[1..] == a[1..] + b;
    }
  }

  lemma {:induction false} AtIsSpan(b: Block, o: nat, k: nat)
    requires Chain(b, o) && k <= |Decode(b, o)|
    ensures At(b, o, k) == o + Span(Decode(b, o)[..k])
    decreases k
  {
    if k > 0 {
      var es := Decode(b, o);
      AtIsSpan(b, o + U16(b, o + 4), k - 1);
      assert es[..k][1..] == es[1..][..k - 1];
    }
  }

  /** A chain reads nothing before its start. */
  lemma {:induction false} DecodeFrame(b: Block, c: Block, o: nat)
    requires o <= BLOCK_SIZE && Chain(b, o) && b[o..] == c[o..]
    ensures Chain(c, o) && Decode(c, o) == Decode(b, o)
    decreases BLOCK_SIZE - o
  {
    assert forall i :: o <= i < BLOCK_SIZE ==> b[i] == b[o..][i - o] == c[o..][i - o] == c[i];
    if o < BLOCK_SIZE && U32(b, o) != 0 {
      assert EntryAt(b, o) == EntryAt(c, o);
      var n := o + U16(b, o + 4);
      assert b[n..] == c[n..];
      DecodeFrame(b, c, n);
    }
  }

  /** The records from `o` on decode to `es`. */
  ghost predicate BlockFrom(b: Block, o: nat, es: seq<Entry>) {
    o <= BLOCK_SIZE && Chain(b, o) && Decode(b, o) == es
  }

  /** What read_dir_entry_in_block finds at the head of a chain. */
  lemma NextRecord(b: Block, o: nat, es: seq<Entry>)
    requires BlockFrom(b, o, es) && o < BLOCK_SIZE
    ensures U32(b, o) == 0 ==> es == []
    ensures U32(b, o) != 0 ==> Record(b, o) && es != [] && es[0] == EntryAt(b, o)
                               && BlockFrom(b, o + es[0].recLen, es[1..])
  {
  }

  /** Equal bytes, equal record. */
  lemma SameRecord(b: Block, c: Block, o: nat)
    requires Record(b, o)
    requires forall i :: o <= i < o + U16(b, o + 4) ==> c[i] == b[i]
    ensures Record(c, o) && EntryAt(c, o) == EntryAt(b, o)
  {
    assert c[o + 8..o + 8 + b[o + 6] as nat] == b[o + 8..o + 8 + b[o + 6] as nat];
  }

  /** `c` is `b` with the four bytes at `p` holding `v`. */
  ghost predicate Patched(b: Block, c: Block, p: nat, v: nat) {
    && p + 4 <= BLOCK_SIZE
    && U32(c, p) == v
    && forall i :: 0 <= i < BLOCK_SIZE && !(p <= i < p + 4) ==> c[i] == b[i]
  }

  lemma PutIsPatch(b: Block, c: Block, p: nat, v: nat)
    requires p + 4 <= BLOCK_SIZE && v < U32_LIMIT && c == PutLe(b, p, v, 4)
    ensures Patched(b, c, p, v)
  {
    PutU32(b, p, v);
  }

  lemma PatchRecord(b: Block, c: Block, o: nat, v: nat)
    requires Record(b, o) && Patched(b, c, o, v)
    ensures Record(c, o) && EntryAt(c, o) == EntryAt(b, o).(ino := v)
  {
    assert c[o + 8..o + 8 + b[o + 6] as nat] == b[o + 8..o + 8 + b[o + 6] as nat];
  }

  /** Decoding from record `k` on gives the entries from `k` on. */
  lemma {:induction false} DecodeSuffix(b: Block, o: nat, k: nat)
    requires Chain(b, o) && k <= |Decode(b, o)|
    ensures Decode(b, At(b, o, k)) == Decode(b, o)[k..]
    decreases k
  {
    if k > 0 {
      var es, n := Decode(b, o), o + U16(b, o + 4);
      DecodeSuffix(b, n, k - 1);
      assert es[k..] == Decode(b, n)[k - 1..];
    }
  }

  /** If the bytes before record `k` are kept and `c` decodes from there on, then
      `c` decodes to the old entries before `k` followed by what is found there. */
  lemma {:induction false} DecodePrefix(b: Block, c: Block, o: nat, k: nat)
    requires Chain(b, o) && k <= |Decode(b, o)|
    requires Chain(c, At(b, o, k))
    requires forall i :: o <= i < At(b, o, k) ==> c[i] == b[i]
    ensures Chain(c, o)
    ensures Decode(c, o) == Decode(b, o)[..k] + Decode(c, At(b, o, k))
    decreases k
  {
    hide U32, U16, EntryAt;
    if k > 0 {
      var n := o + U16(b, o + 4);
      assert At(b, o, k) == At(b, n, k - 1);
      DecodePrefix(b, c, n, k - 1);
      KeepFirst(b, c, o);
      ConsTake(Decode(b, o)[0], Decode(b, n), Decode(c, At(b, o, k)), k - 1);
    }
  }

  lemma ConsTake<T>(x: T, es: seq<T>, t: seq<T>, k: nat)
    requires k <= |es|
    ensures ([x] + es)[..k + 1] + t == [x] + (es[..k] + t)
  {
  }

  lemma KeepFirst(b: Block, c: Block, o: nat)
    requires Chain(b, o) && Decode(b, o) != []
    requires forall i :: o <= i < o + U16(b, o + 4) ==> c[i] == b[i]
    requires Chain(c, o + U16(b, o + 4))
    ensures Chain(c, o)
    ensures Decode(c, o) == [Decode(b, o)[0]] + Decode(c, o + U16(b, o + 4))
  {
    SameRecord(b, c, o);
  }

  lemma PatchedBefore(b: Block, c: Block, p: nat, v: nat)
    requires Patched(b, c, p, v)
    ensures forall i :: 0 <= i < p && i < BLOCK_SIZE ==> c[i] == b[i]
  {
  }

  lemma SetAt<T>(es: seq<T>, k: nat, x: T)
    requires k < |es|
    ensures es[k := x] == es[..k] + ([x] + es[k + 1..])
  {
  }

  /** pass1_corrector's edit, and the `..` rewrite of add_to_lost_found: writing
      four bytes at record `k` replaces that entry's inode and nothing else. */
  lemma PatchIno(b: Block, c: Block, o: nat, k: nat, v: nat)
    requires Chain(b, o) && k < |Decode(b, o)| && v > 0
    requires Patched(b, c, At(b, o, k), v)
    ensures Chain(c, o) && Decode(c, o) == Decode(b, o)[k := Decode(b, o)[k].(ino := v)]
  {
    hide Chain, Decode, At, Patched;
    var es, p := Decode(b, o), At(b, o, k);
    DecodeSuffix(b, o, k);
    PatchFirst(b, c, p, v);
    PatchedBefore(b, c, p, v);
    assert es[k..][0] == es[k] && es[k..][1..] == es[k + 1..];
    DecodePrefix(b, c, o, k);
    SetAt(es, k, es[k].(ino := v));
  }

  lemma {:induction false} AtSucc(b: Block, o: nat, k: nat)
    requires Chain(b, o) && k < |Decode(b, o)|
    ensures At(b, o, k + 1) == At(b, o, k) + Decode(b, o)[k].recLen
    decreases k
  {
    if k > 0 { AtSucc(b, o + U16(b, o + 4), k - 1); }
  }

  /** Patching record `k` moves no record up to the one after it. */
  lemma {:induction false} PatchAt(b: Block, c: Block, o: nat, k: nat, v: nat)
    requires Chain(b, o) && k < |Decode(b, o)| && v > 0 && Patched(b, c, At(b, o, k), v)
    requires Chain(c, o) && |Decode(c, o)| == |Decode(b, o)|
    ensures At(c, o, k) == At(b, o, k) && At(c, o, k + 1) == At(b, o, k + 1)
    decreases k
  {
    if k > 0 {
      SameRecord(b, c, o);
      PatchAt(b, c, o + U16(b, o + 4), k - 1, v);
    } else {
      PatchRecord(b, c, o, v);
    }
  }

  lemma RecordFits(b: Block, es: seq<Entry>, k: nat)
    requires BlockFrom(b, 0, es) && k < |es|
    ensures At(b, 0, k) + PREFIX_LEN <= BLOCK_SIZE
  {
    DecodeSuffix(b, 0, k);
  }

  /** write_number_into_block at record `k`, on the decoded block. */
  lemma WrittenIno(b: Block, c: Block, es: seq<Entry>, k: nat, v: nat)
    requires BlockFrom(b, 0, es) && k < |es| && 0 < v < U32_LIMIT
    requires At(b, 0, k) + 4 <= BLOCK_SIZE && c == PutLe(b, At(b, 0, k), v, 4)
    ensures BlockFrom(c, 0, es[k := es[k].(ino := v)]) && At(c, 0, k) == At(b, 0, k)
  {
    PutIsPatch(b, c, At(b, 0, k), v);
    PatchIno(b, c, 0, k, v);
    PatchAt(b, c, 0, k, v);
  }

  lemma PatchFirst(b: Block, c: Block, p: nat, v: nat)
    requires Chain(b, p) && Decode(b, p) != [] && v > 0 && Patched(b, c, p, v)
    ensures Chain(c, p) && Decode(c, p) == [Decode(b, p)[0].(ino := v)] + Decode(b, p)[1..]
  {
    PatchRecord(b, c, p, v);
    var n := p + U16(b, p + 4);
    assert c[n..] == b[n..];
    DecodeFrame(b, c, n);
  }

  /** write_new_entry's bytes: header, name and a closing NUL. */
  function PutEntry(b: Block, o: nat, e: Entry): (c: Block)
    requires |e.name| <= 255 && o + PREFIX_LEN + |e.name| + 1 <= BLOCK_SIZE && e.fileType < 256
    ensures forall i :: 0 <= i < BLOCK_SIZE && !(o <= i < o + PREFIX_LEN + |e.name| + 1) ==> c[i] == b[i]
  {
    var b1 := PutLe(b, o, e.ino, 4);
    var b2 := PutLe(b1, o + 4, e.recLen, 2);
    var b3 := b2[o + 6 := |e.name|][o + 7 := e.fileType];
    b3[..o + 8] + e.name + [0] + b3[o + 9 + |e.name|..]
  }

  lemma PutEntryDecodes(b: Block, c: Block, o: nat, e: Entry)
    requires |e.name| <= 255 && o + PREFIX_LEN + |e.name| + 1 <= BLOCK_SIZE && e.fileType < 256
    requires 0 < e.ino < U32_LIMIT && o + e.recLen == BLOCK_SIZE && PREFIX_LEN + |e.name| <= e.recLen
    requires c == PutEntry(b, o, e)
    ensures Record(c, o) && EntryAt(c, o) == e
    ensures Chain(c, o) && Decode(c, o) == [e]
  {
    var b1 := PutLe(b, o, e.ino, 4);
    var b2 := PutLe(b1, o + 4, e.recLen, 2);
    PutU32(b, o, e.ino);
    PutU16(b1, o + 4, e.recLen);
    HeaderBytes(b2, c, o, e);
    assert Chain(c, BLOCK_SIZE) && Decode(c, BLOCK_SIZE) == [];
  }

  lemma HeaderBytes(b2: Block, c: Block, o: nat, e: Entry)
    requires |e.name| <= 255 && o + PREFIX_LEN + |e.name| + 1 <= BLOCK_SIZE && e.fileType < 256
    requires var b3 := b2[o + 6 := |e.name|][o + 7 := e.fileType];
             c == b3[..o + 8] + e.name + [0] + b3[o + 9 + |e.name|..]
    ensures U32(c, o) == U32(b2, o) && U16(c, o + 4) == U16(b2, o + 4)
    ensures c[o + 6] == |e.name| && c[o + 7] == e.fileType
    ensures c[o + 8..o + 8 + |e.name|] == e.name
  {
  }

  /** The bytes add_to_lost_found leaves in a block: the record at `o` is cut to
      `cut` bytes and the new entry takes the rest of the block. */
  function SpliceBytes(b: Block, o: nat, cut: nat, e: Entry): (c: Block)
    requires |e.name| <= 255 && e.fileType < 256
    requires 6 <= cut && o + cut + PREFIX_LEN + |e.name| + 1 <= BLOCK_SIZE
    ensures forall i :: 0 <= i < BLOCK_SIZE && i != o + 4 && i != o + 5 && i < o + cut ==> c[i] == b[i]
  {
    PutEntry(PutLe(b, o + 4, cut, 2), o + cut, e.(recLen := BLOCK_SIZE - (o + cut)))
  }

  /** What the last record of a list really needs. */
  function CutOf(e: Entry): nat { Pad4(PREFIX_LEN + |e.name|) }

  /** The same edit on a decoded, complete chain. */
  ghost function Splice(es: seq<Entry>, e: Entry): seq<Entry>
    requires es != [] && CutOf(es[|es| - 1]) <= es[|es| - 1].recLen
  {
    es[..|es| - 1] + CutThen(es[|es| - 1], e)
  }

  ghost function CutThen(last: Entry, e: Entry): seq<Entry>
    requires CutOf(last) <= last.recLen
  {
    [last.(recLen := CutOf(last)), e.(recLen := last.recLen - CutOf(last))]
  }

  /** `c` is `b` with the record at `at` cut to `cut` bytes and `e` after it. */
  ghost predicate Spliced(b: Block, c: Block, at: nat, cut: nat, e: Entry) {
    && at + 6 <= at + cut <= BLOCK_SIZE
    && U16(c, at + 4) == cut
    && Chain(c, at + cut) && Decode(c, at + cut) == [e]
    && forall i :: 0 <= i < at + cut && i != at + 4 && i != at + 5 ==> c[i] == b[i]
  }

  lemma BytesAreSpliced(b: Block, c: Block, at: nat, cut: nat, e: Entry)
    requires |e.name| <= 255 && e.fileType < 256 && 0 < e.ino < U32_LIMIT
    requires PREFIX_LEN <= cut && at + cut + PREFIX_LEN + |e.name| + 1 <= BLOCK_SIZE
    requires c == SpliceBytes(b, at, cut, e)
    ensures Spliced(b, c, at, cut, e.(recLen := BLOCK_SIZE - (at + cut)))
  {
    var b1: Block := PutLe(b, at + 4, cut, 2);
    CutField(b, b1, at, cut);
    PutEntryDecodes(b1, c, at + cut, e.(recLen := BLOCK_SIZE - (at + cut)));
  }

  lemma CutField(b: Block, b1: Block, at: nat, cut: nat)
    requires at + cut <= BLOCK_SIZE && PREFIX_LEN <= cut && b1 == PutLe(b, at + 4, cut, 2)
    ensures U16(b1, at + 4) == cut
  {
    PutU16(b, at + 4, cut);
  }

  lemma SpliceLast(b: Block, c: Block, o: nat, e: Entry)
    requires Record(b, o) && U32(b, o) != 0
    requires CutOf(EntryAt(b, o)) + e.recLen == U16(b, o + 4)
    requires Spliced(b, c, o, CutOf(EntryAt(b, o)), e)
    ensures Chain(c, o) && Decode(c, o) == CutThen(EntryAt(b, o), e)
  {
    var last := EntryAt(b, o);
    assert U32(c, o) == U32(b, o) && c[o + 6] == b[o + 6] && c[o + 7] == b[o + 7];
    assert c[o + 8..o + 8 + |last.name|] == last.name;
    assert EntryAt(c, o) == last.(recLen := CutOf(last));
  }

  /** Decoding after the splice: old entries, the last one cut to its padded
      length, then the new entry; the chain again tiles the block. */
  lemma SpliceDecodes(b: Block, c: Block, o: nat, k: nat, e: Entry)
    requires Chain(b, o) && |Decode(b, o)| == k + 1
    requires Spliced(b, c, At(b, o, k), CutOf(Decode(b, o)[k]), e)
    requires e.recLen == Decode(b, o)[k].recLen - CutOf(Decode(b, o)[k])
    ensures Chain(c, o) && Decode(c, o) == Splice(Decode(b, o), e)
  {
    var es, at := Decode(b, o), At(b, o, k);
    DecodeSuffix(b, o, k);
    assert es[k..][0] == es[k];
    assert EntryAt(b, at) == es[k];
    SpliceLast(b, c, at, e);
    DecodePrefix(b, c, o, k);
  }

  /** A C string ends at its first NUL. */
  function CStr(name: seq<byte>): (s: seq<byte>)
  {
    if name == [] || name[0] == 0 then [] else [name[0]] + CStr(name[1..])
  }

  /** read_dir_entry_in_block: on a zero inode only that field of the caller's
      struct is written, so `prev`'s other fields survive. */
  method ReadDirEntry(buf: array<byte>, o: nat, prev: Entry) returns (len: int, e: Entry)
    requires buf.Length == BLOCK_SIZE && o < BLOCK_SIZE && Chain(buf[..], o)
    ensures U32(buf[..], o) == 0 ==> len == -1 && e == prev.(ino := 0)
    ensures U32(buf[..], o) != 0 ==> Record(buf[..], o) && e == EntryAt(buf[..], o) && len == e.recLen
  {
    FieldsOf(buf[..], o);
    var ino := ParseBytes(buf, o, 4);
    if ino == 0 { return -1, prev.(ino := 0); }
    var recLen := ParseBytes(buf, o + 4, 2);
    var nameLen := ParseBytes(buf, o + 6, 1);
    var fileType := ParseBytes(buf, o + 7, 1);
    e := Entry(ino, recLen, fileType, buf[o + 8..o + 8 + nameLen]);
    len := recLen;
  }

  lemma FieldsOf(b: Block, o: nat)
    ensures o + 4 <= BLOCK_SIZE ==> Le(b, o, 4) % U32_LIMIT == U32(b, o)
    ensures o + 8 <= BLOCK_SIZE ==> Le(b, o + 4, 2) % U32_LIMIT == U16(b, o + 4)
    ensures o + 8 <= BLOCK_SIZE ==> Le(b, o + 6, 1) % U32_LIMIT == b[o + 6]
    ensures o + 8 <= BLOCK_SIZE ==> Le(b, o + 7, 1) % U32_LIMIT == b[o + 7]
  {
    hide Le, U16, U32;
    FieldWidths(b, o);
    FieldWidths(b, o + 4);
    FieldWidths(b, o + 6);
    FieldWidths(b, o + 7);
  }
}
