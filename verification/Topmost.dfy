/** Which inodes pass2 puts into lost+found: of an orphan tree the top alone. */
module Topmost {
  import opened Bytes
  import opened DirBlock
  import opened Disk
  import opened Tree
  import opened Dots
  import opened LostFound
  import opened Graft
  import opened Rescue
  import opened Rounds
  import opened Orphans
  import opened LinkCounts
  import opened Listed

  ghost function Tops(O: Forest): set<nat> {
    if O.Nil? then {} else {O.ino} + Tops(O.rest)
  }

  /** The orphan trees whose tops come before `k`. */
  ghost function Earlier(O: Forest, k: nat): Forest {
    if O.Nil? || O.ino >= k then Nil else Dir(O.ino, O.kids, Earlier(O.rest, k))
  }

  lemma {:induction false} RefsSplit(D: Dirs, O: Forest, k: nat, x: nat)
    ensures Refs(D, O, x) == Refs(D, Earlier(O, k), x) + Refs(D, Later(O, k), x)
  {
    if O.Dir? && O.ino < k { RefsSplit(D, O.rest, k, x); }
  }

  /** No directory of the tree, nor of an earlier orphan tree, has an entry naming `i`. */
  ghost predicate Unnamed(D: Dirs, F: Forest, O: Forest, i: nat) {
    forall n :: n in Nodes(Whole(F)) || n in Nodes(Earlier(O, i)) ==> Mentions(All(D, n), i) == 0
  }

  lemma UnnamedCounts(D: Dirs, F: Forest, O: Forest, i: nat)
    ensures Unnamed(D, F, O, i) <==> Refs(D, Whole(F), i) == 0 && Refs(D, Earlier(O, i), i) == 0
  {
    RefsPositive(D, Whole(F), i);
    RefsPositive(D, Earlier(O, i), i);
  }

  /** Each inode at most once, in ascending order. */
  lemma {:induction false} ListAscends(c: Case, k: nat, a: nat, b: nat)
    requires a < b < |ToRescue(c, k)|
    ensures ToRescue(c, k)[a] < ToRescue(c, k)[b]
    decreases c.n + 1 - k
  {
    var rest := ToRescue(c, k + 1);
    if Missing(c, k) {
      if a == 0 {
        assert rest[b - 1] in rest;
        OnTheList(c, k + 1, rest[b - 1]);
      } else {
        ListAscends(c, k + 1, a - 1, b - 1);
      }
    } else {
      ListAscends(c, k + 1, a, b);
    }
  }

  /** An inode gets an entry in lost+found exactly when it is allocated with a
      non-zero link count and named neither in the tree nor in an orphan tree whose
      top comes before it. */
  lemma RescuedIff(c: Case, i: nat)
    requires Ready2(c) && 1 <= i <= c.n
    ensures i in ToRescue(c, 1) <==> i in c.live && Unnamed(c.D0, c.F0, c.O0, i)
  {
    hide *;
    OnTheList(c, 1, i);
    UnnamedCounts(c.D0, c.F0, c.O0, i);
    var H, O := ProgressAt(c, i);
    var s := RoundAt(c, i);
    TestIsMissing(c, i, s.D, H, O, s.cnt);
    LaterCounts(c, i, s.D, H, O, s.cnt);
    RefsSplit(c.D0, c.O0, i, i);
  }

  /** What the counter holds before round `i`: the names in the tree and in the orphan
      trees that are gone. */
  lemma LaterCounts(c: Case, i: nat, D: Dirs, F: Forest, O: Forest, cnt: seq<nat>)
    requires Ready2(c) && Progress(c, i, D, F, O, cnt) && i <= c.n
    ensures |cnt| == c.n + 1 && cnt[i] + Refs(c.D0, Later(c.O0, i), i) ==
            Refs(c.D0, Whole(c.F0), i) + Refs(c.D0, c.O0, i)
  {
    hide Shape, HasRoom, InsertAll, StaleHarmless, Sorted, TopsLive, Covered, Accounted, Bounded, Missing, ToRescue,
         RoundAt;
    RootRefs(c.D0, c.F0, c.O0, i);
    forall n | n in Nodes(O)
      ensures All(D, n) == All(c.D0, n)
    {
    }
    RefsFrame(c.D0, D, O, i);
  }

  lemma RootRefs(D: Dirs, F: Forest, O: Forest, x: nat)
    ensures Refs(D, Whole(F), x) + Refs(D, O, x) == Refs(D, Dir(ROOT_INO, F, O), x)
  {
    assert Refs(D, Nil, x) == 0;
  }

  lemma {:induction false} TopIsNode(O: Forest, i: nat)
    requires i in Tops(O)
    ensures i in Nodes(O)
  {
    if i != O.ino { TopIsNode(O.rest, i); }
  }

  /** Some top's second entry names `x`. */
  ghost predicate StaleNames(D: Dirs, O: Forest, x: nat) {
    O.Dir? && ((O.ino in D && HeadRight(D[O.ino], O.ino, x)) || StaleNames(D, O.rest, x))
  }

  /** Orphan trees name exactly their own directories and what the tops' stale `..` name. */
  lemma {:induction false} ForestNames(D: Dirs, O: Forest, dirs: set<nat>, files: set<nat>, x: nat)
    requires Grown(D, O) && Distinct(O) && OrphanDots(D, O) && Typed(D, dirs, files) && AllHeaded(D) && x in dirs
    ensures Refs(D, O, x) > 0 <==> x in Nodes(O) || StaleNames(D, O, x)
  {
    hide Typed, AllHeaded;
    if O.Dir? {
      HeadedTyped(D, O.ino, dirs, files);
      MentionsAll(D, O.ino, x);
      DirCounts(D, O.ino, Kids(D, O.ino), O.kids, dirs, files, x);
      ForestNames(D, O.rest, dirs, files, x);
    }
  }

  lemma {:induction false} EarlierKeeps(D: Dirs, O: Forest, k: nat)
    requires Grown(D, O) && Distinct(O) && OrphanDots(D, O)
    ensures Grown(D, Earlier(O, k)) && Distinct(Earlier(O, k)) && OrphanDots(D, Earlier(O, k))
    ensures Nodes(Earlier(O, k)) <= Nodes(O)
  {
    if O.Dir? && O.ino < k { EarlierKeeps(D, O.rest, k); }
  }

  lemma {:induction false} TopNotEarlier(O: Forest, i: nat)
    requires Distinct(O) && i in Tops(O)
    ensures i in Nodes(O) && i !in Nodes(Earlier(O, i))
  {
    TopIsNode(O, i);
    if O.ino < i { TopNotEarlier(O.rest, i); }
  }

  lemma {:induction false} InnerIsEarlier(O: Forest, lo: nat, live: set<nat>, i: nat)
    requires Sorted(O, lo, live) && i in Nodes(O) && i !in Tops(O) && i in live
    ensures i in Nodes(Earlier(O, i))
  {
    if i !in Nodes(O.kids) {
      SortedNode(O.rest, O.ino + 1, live, i);
      InnerIsEarlier(O.rest, O.ino + 1, live, i);
    }
  }

  lemma {:induction false} HarmlessEarlier(D: Dirs, F: Forest, O: Forest, live: set<nat>, i: nat)
    requires StaleHarmless(D, F, O, live) && !Named(D, F, i) && i in live
    ensures !StaleNames(D, Earlier(O, i), i)
  {
    hide Named;
    if O.Dir? && O.ino < i { HarmlessEarlier(D, F, O.rest, live, i); }
  }

  /** Where numbers grow down each orphan tree and stale `..` are harmless, exactly the
      orphan tops of the live directories get an entry: one for every maximal
      unreferenced subtree, none for a directory inside one. */
  lemma DirectoryRescuedIffTop(c: Case, i: nat)
    requires Ready2(c) && i in c.live && i in c.dirs && 1 <= i <= c.n
    ensures i in ToRescue(c, 1) <==> i in Tops(c.O0)
  {
    hide *;
    RescuedIff(c, i);
    UnnamedCounts(c.D0, c.F0, c.O0, i);
    ReadyForest(c);
    EarlierKeeps(c.D0, c.O0, i);
    ForestNames(c.D0, Earlier(c.O0, i), c.dirs, c.files, i);
    TreeNamesIff(c, i);
    NamedIs(c.D0, c.F0, i);
    WholeNodes(c.F0, i);
    if i in Tops(c.O0) {
      TopNotEarlier(c.O0, i);
      TopOutside(c.F0, c.O0, i);
      HarmlessEarlier(c.D0, c.F0, c.O0, c.live, i);
    } else if i !in Nodes(Whole(c.F0)) {
      NowhereElse(c, i);
      InnerIsEarlier(c.O0, 1, c.live, i);
    }
  }

  lemma ReadyForest(c: Case)
    requires Ready2(c)
    ensures TreeReady(c) && Sorted(c.O0, 1, c.live) && StaleHarmless(c.D0, c.F0, c.O0, c.live)
    ensures Grown(c.D0, c.O0) && Distinct(c.O0) && OrphanDots(c.D0, c.O0) && Typed(c.D0, c.dirs, c.files) &&
            AllHeaded(c.D0)
    ensures Distinct(Dir(ROOT_INO, c.F0, c.O0))
  {
    hide HasRoom, Missing, ToRescue, Refs, Sorted, StaleHarmless;
    ReadyFacts(c);
    DistinctRoot(c.F0, c.O0);
  }

  lemma TopOutside(F: Forest, O: Forest, i: nat)
    requires Distinct(Dir(ROOT_INO, F, O)) && i in Nodes(O)
    ensures i !in Nodes(Whole(F))
  {
    DistinctRoot(F, O);
    WholeNodes(F, i);
  }

  lemma NowhereElse(c: Case, i: nat)
    requires Ready2(c) && i in c.live && i in c.dirs && 1 <= i && i !in Nodes(Whole(c.F0))
    ensures i in Nodes(c.O0)
  {
    hide Shape, HasRoom, Missing, ToRescue, Refs, Sorted, StaleHarmless;
  }

  lemma NamedIs(D: Dirs, F: Forest, i: nat)
    ensures Named(D, F, i) <==> Refs(D, Whole(F), i) > 0
  {
  }

  /** What an entry says, apart from its record length. */
  type Key = (nat, nat, seq<byte>)

  function KeyOf(e: Entry): Key { (e.ino, e.fileType, e.name) }

  function KeyList(es: seq<Entry>): (r: seq<Key>)
    ensures |r| == |es| && forall k :: 0 <= k < |es| ==> r[k] == KeyOf(es[k])
  {
    seq(|es|, k requires 0 <= k < |es| => KeyOf(es[k]))
  }

  lemma GrewKeys(a: seq<Entry>, b: seq<Entry>, e: Entry)
    requires Grew(a, b, e)
    ensures multiset(KeyList(b)) == multiset(KeyList(a)) + multiset{KeyOf(e)}
  {
    var p: nat :| GrewAt(a, b, e, p);
    var x := KeyList(a);
    assert KeyList(b) == x[..p] + [KeyOf(e)] + x[p..];
    assert x == x[..p] + x[p..];
  }

  /** The entries made for the inodes `ks`. */
  function NewKeys(c: Case, ks: seq<nat>): (r: seq<Key>) {
    if ks == [] then [] else [KeyOf(EntryFor(c, ks[0]))] + NewKeys(c, ks[1..])
  }

  lemma {:induction false} InsertedKeys(c: Case, bs: seq<seq<Entry>>, ks: seq<nat>)
    requires HasRoom(c, bs, ks) && Headed(bs)
    ensures multiset(KeyList(Flat(InsertAll(c, bs, ks)))) == multiset(KeyList(Flat(bs))) + multiset(NewKeys(c, ks))
    decreases |ks|
  {
    hide KeyList, Headed, Lands, Inserted;
    if ks != [] {
      var e := EntryFor(c, ks[0]);
      var cs := Inserted(bs, 0, e);
      HeadedTwo(bs);
      InsertedGrew(bs, 0, e);
      GrewKeys(Flat(bs), Flat(cs), e);
      InsertedKeys(c, cs, ks[1..]);
    }
  }

  lemma HeadedTwo(bs: seq<seq<Entry>>)
    requires Headed(bs)
    ensures |bs| > 0 && |bs[0]| >= 2
  {
  }

  /** lost+found keeps every entry it had and gains one for each rescued inode, with
      that inode's number, type and decimal name. */
  lemma LostFoundGains(c: Case, E: Dirs, H: Forest)
    requires Ready2(c) && AllRescued(c, E, H)
    ensures multiset(KeyList(All(E, c.lf))) == multiset(KeyList(All(c.D0, c.lf))) + multiset(NewKeys(c, ToRescue(c, 1)))
  {
    assert Headed(c.D0[c.lf]);
    InsertedKeys(c, c.D0[c.lf], ToRescue(c, 1));
  }
}
