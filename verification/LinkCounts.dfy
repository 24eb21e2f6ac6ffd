/** What the link counts of a tree with right dots add up to. */
module LinkCounts {
  import opened DirBlock
  import opened Disk
  import opened Tree
  import opened Dots
  import opened Walk
  import opened Rescue

  /** The subdirectories of `n`. */
  function Subdirs(es: seq<Entry>): (n: nat) {
    if es == [] then 0 else (if es[0].IsDir() then 1 else 0) + Subdirs(es[1..])
  }

  /** A headed directory's entries are its two dots and the rest. */
  lemma MentionsAll(D: Dirs, n: nat, x: nat)
    requires n in D && Headed(D[n])
    ensures Mentions(All(D, n), x)
            == (if D[n][0][0].ino == x then 1 else 0) + (if D[n][0][1].ino == x then 1 else 0) + Mentions(Kids(D, n), x)
  {
    var es := D[n][0];
    var t := Flat(D[n][1..]);
    NamesCat(es, t, x);
    NamesCat(es[2..], t, x);
    assert es[1..][0] == es[1] && es[1..][1..] == es[2..];
  }

  /** Counting in the list `es` of directory `p` and in the trees it unfolds to:
      each directory there is named once by its parent, once by itself and once by
      each subdirectory, and `p` once by each subdirectory. */
  lemma {:induction false} DirCounts(D: Dirs, p: nat, es: seq<Entry>, f: Forest, dirs: set<nat>, files: set<nat>,
                                     x: nat)
    requires Unfolds(D, es, f) && Distinct(f) && DotsRight(D, p, f) && AllHeaded(D)
    requires Typed(D, dirs, files) && ListTyped(es, dirs, files) && p !in Nodes(f) && x in dirs
    ensures Mentions(es, x) + Refs(D, f, x)
            == (if x in Nodes(f) then 2 + Subdirs(Kids(D, x)) else 0) + (if x == p then Subdirs(es) else 0)
    decreases f, |es|
  {
    hide Typed, AllHeaded;
    if es != [] {
      assert ListTyped(es[1..], dirs, files);
      if es[0].IsDir() {
        var n := f.ino;
        assert Headed(D[n]) && ListTyped(Kids(D, n), dirs, files) by { HeadedTyped(D, n, dirs, files); }
        MentionsAll(D, n, x);
        DirCounts(D, n, Kids(D, n), f.kids, dirs, files, x);
        DirCounts(D, p, es[1..], f.rest, dirs, files, x);
      } else {
        DirCounts(D, p, es[1..], f, dirs, files, x);
      }
    }
  }

  lemma HeadedTyped(D: Dirs, n: nat, dirs: set<nat>, files: set<nat>)
    requires AllHeaded(D) && Typed(D, dirs, files) && n in D
    ensures Headed(D[n]) && ListTyped(Kids(D, n), dirs, files)
  {
  }

  /** A directory's count is two more than its number of subdirectories, the root
      included: what it has no parent entry for, its own `..` makes up. */
  lemma DirectoryLinks(D: Dirs, F: Forest, dirs: set<nat>, files: set<nat>, x: nat)
    requires ROOT_INO in D && Unfolds(D, Kids(D, ROOT_INO), F) && Distinct(Whole(F)) && DotsRight(D, ROOT_INO, Whole(F))
    requires AllHeaded(D) && Typed(D, dirs, files) && D.Keys <= dirs && x in Nodes(Whole(F))
    ensures Refs(D, Whole(F), x) == 2 + Subdirs(Kids(D, x))
  {
    assert Nodes(Whole(F)) == {ROOT_INO} + Nodes(F) + Nodes(Nil);
    UnfoldsKeys(D, Kids(D, ROOT_INO), F);
    HeadedTyped(D, ROOT_INO, dirs, files);
    MentionsAll(D, ROOT_INO, x);
    DirCounts(D, ROOT_INO, Kids(D, ROOT_INO), F, dirs, files, x);
    assert Refs(D, Whole(F), x) == Mentions(All(D, ROOT_INO), x) + Refs(D, F, x) + Refs(D, Nil, x);
  }

  /** How many entries below the dots name `x`. */
  ghost function NamesBelow(D: Dirs, f: Forest, x: nat): (n: nat) {
    if f.Nil? then 0 else Mentions(Kids(D, f.ino), x) + NamesBelow(D, f.kids, x) + NamesBelow(D, f.rest, x)
  }

  lemma {:induction false} DotsNameNodes(D: Dirs, p: nat, f: Forest, x: nat)
    requires DotsRight(D, p, f) && AllHeaded(D) && x != p && x !in Nodes(f)
    ensures Refs(D, f, x) == NamesBelow(D, f, x)
    decreases f
  {
    if f.Dir? {
      MentionsAll(D, f.ino, x);
      DotsNameNodes(D, f.ino, f.kids, x);
      DotsNameNodes(D, p, f.rest, x);
    }
  }

  /** What is no directory of the tree is counted once per name. */
  lemma FileLinks(D: Dirs, F: Forest, x: nat)
    requires DotsRight(D, ROOT_INO, Whole(F)) && AllHeaded(D) && x !in Nodes(Whole(F))
    ensures Refs(D, Whole(F), x) == NamesBelow(D, Whole(F), x)
  {
    assert ROOT_INO in Nodes(Whole(F));
    DotsNameNodes(D, ROOT_INO, Whole(F), x);
  }

  /** All entries of the directories of `f`. */
  ghost function Entries(D: Dirs, f: Forest): (n: nat) {
    if f.Nil? then 0 else |All(D, f.ino)| + Entries(D, f.kids) + Entries(D, f.rest)
  }

  /** The counts of all inodes below `limit`. */
  ghost function SumRefs(D: Dirs, f: Forest, limit: nat): (n: nat) {
    if limit == 0 then 0 else SumRefs(D, f, limit - 1) + Refs(D, f, limit - 1)
  }

  function SumMentions(es: seq<Entry>, limit: nat): (n: nat) {
    if limit == 0 then 0 else SumMentions(es, limit - 1) + Mentions(es, limit - 1)
  }

  lemma {:induction false} SumHead(es: seq<Entry>, limit: nat)
    requires es != []
    ensures SumMentions(es, limit) == (if es[0].ino < limit then 1 else 0) + SumMentions(es[1..], limit)
  {
    if limit > 0 { SumHead(es, limit - 1); }
  }

  lemma {:induction false} SumNone(limit: nat)
    ensures SumMentions([], limit) == 0
  {
    if limit > 0 { SumNone(limit - 1); }
  }

  lemma {:induction false} EachOnce(es: seq<Entry>, limit: nat)
    requires ListInRange(es, limit)
    ensures SumMentions(es, limit) == |es|
  {
    if es == [] {
      SumNone(limit);
    } else {
      SumHead(es, limit);
      EachOnce(es[1..], limit);
    }
  }

  lemma {:induction false} SumSplit(D: Dirs, f: Forest, limit: nat)
    requires f.Dir?
    ensures SumRefs(D, f, limit) == SumMentions(All(D, f.ino), limit) + SumRefs(D, f.kids, limit) +
            SumRefs(D, f.rest, limit)
  {
    if limit > 0 { SumSplit(D, f, limit - 1); }
  }

  lemma {:induction false} SumNil(D: Dirs, limit: nat)
    ensures SumRefs(D, Nil, limit) == 0
  {
    if limit > 0 { SumNil(D, limit - 1); }
  }

  lemma {:induction false} FlatInRange(bs: seq<seq<Entry>>, limit: nat)
    requires forall i :: 0 <= i < |bs| ==> ListInRange(bs[i], limit)
    ensures ListInRange(Flat(bs), limit)
  {
    if bs != [] { FlatInRange(bs[1..], limit); }
  }

  /** The counts of all inodes add up to the number of entries in the tree. */
  lemma {:induction false} CountsAddUp(D: Dirs, f: Forest, limit: nat)
    requires InRange(D, limit)
    ensures SumRefs(D, f, limit) == Entries(D, f)
    decreases f
  {
    if f.Nil? {
      SumNil(D, limit);
    } else {
      SumSplit(D, f, limit);
      if f.ino in D { FlatInRange(D[f.ino], limit); }
      EachOnce(All(D, f.ino), limit);
      CountsAddUp(D, f.kids, limit);
      CountsAddUp(D, f.rest, limit);
    }
  }

  /** Where in a list `x` is named. */
  ghost function Positions(es: seq<Entry>, x: nat): set<nat> {
    set k: nat | k < |es| && es[k].ino == x
  }

  /** Where in the directories of `f` it is named: directory and position. */
  ghost function WhereNamed(D: Dirs, f: Forest, x: nat): set<(nat, nat)> {
    set n, k | n in Nodes(f) && k in Positions(All(D, n), x) :: (n, k)
  }

  ghost function Shifted(s: set<nat>): set<nat> {
    set k | k in s :: k + 1
  }

  lemma {:induction false} ShiftedSize(s: set<nat>)
    ensures |Shifted(s)| == |s|
  {
    if s != {} {
      var k :| k in s;
      var t := s - {k};
      ShiftedSize(t);
      forall j
        ensures j in Shifted(s) <==> j in Shifted(t) || j == k + 1
      {
        if j in Shifted(s) {
          var i :| i in s && j == i + 1;
          assert i == k || i in t;
        }
      }
      assert Shifted(s) == Shifted(t) + {k + 1};
    } else {
      assert Shifted(s) == {};
    }
  }

  lemma {:induction false} PositionsSize(es: seq<Entry>, x: nat)
    ensures |Positions(es, x)| == Mentions(es, x)
  {
    if es == [] {
      assert Positions(es, x) == {};
    } else {
      var s := Positions(es[1..], x);
      PositionsSize(es[1..], x);
      ShiftedSize(s);
      forall k: nat
        ensures k in Positions(es, x) <==> k in Shifted(s) || (k == 0 && es[0].ino == x)
      {
        if k > 0 && k in Positions(es, x) { assert k - 1 in s; }
      }
      assert Positions(es, x) == Shifted(s) + if es[0].ino == x then {0} else {};
    }
  }

  ghost function Tagged(n: nat, s: set<nat>): set<(nat, nat)> {
    set k | k in s :: (n, k)
  }

  lemma {:induction false} TaggedSize(n: nat, s: set<nat>)
    ensures |Tagged(n, s)| == |s|
  {
    if s != {} {
      var k :| k in s;
      TaggedSize(n, s - {k});
      assert Tagged(n, s) == Tagged(n, s - {k}) + {(n, k)};
    } else {
      assert Tagged(n, s) == {};
    }
  }

  lemma WhereNamedParts(D: Dirs, f: Forest, x: nat)
    requires Distinct(f) && f.Dir?
    ensures WhereNamed(D, f, x) == Tagged(f.ino, Positions(All(D, f.ino), x)) + WhereNamed(D, f.kids, x) +
            WhereNamed(D, f.rest, x)
    ensures Tagged(f.ino, Positions(All(D, f.ino), x)) !! WhereNamed(D, f.kids, x)
    ensures Tagged(f.ino, Positions(All(D, f.ino), x)) + WhereNamed(D, f.kids, x) !! WhereNamed(D, f.rest, x)
  {
    hide Positions, All, Distinct;
    DistinctHead(f);
    assert Nodes(f) == {f.ino} + Nodes(f.kids) + Nodes(f.rest);
    hide Nodes;
  }

  lemma DistinctHead(f: Forest)
    requires Distinct(f) && f.Dir?
    ensures f.ino !in Nodes(f.kids) && f.ino !in Nodes(f.rest) && Nodes(f.kids) !! Nodes(f.rest)
    ensures Distinct(f.kids) && Distinct(f.rest)
  {
  }

  lemma Sizes<T>(a: set<T>, b: set<T>, c: set<T>)
    requires a !! b && a + b !! c
    ensures |a + b + c| == |a| + |b| + |c|
  {
  }

  /** What the walk counts recursively is the number of places that name `x`, each
      place counted once. */
  lemma {:induction false} CountIsPlaces(D: Dirs, f: Forest, x: nat)
    requires Distinct(f)
    ensures Refs(D, f, x) == |WhereNamed(D, f, x)|
    decreases f
  {
    hide Positions, All, WhereNamed, Tagged, Nodes;
    if f.Nil? {
      assert WhereNamed(D, f, x) == {} by { NowhereNamed(D, x); }
    } else {
      DistinctHead(f);
      CountIsPlaces(D, f.kids, x);
      CountIsPlaces(D, f.rest, x);
      var here := Tagged(f.ino, Positions(All(D, f.ino), x));
      PositionsSize(All(D, f.ino), x);
      TaggedSize(f.ino, Positions(All(D, f.ino), x));
      WhereNamedParts(D, f, x);
      Sizes(here, WhereNamed(D, f.kids, x), WhereNamed(D, f.rest, x));
    }
  }

  lemma NowhereNamed(D: Dirs, x: nat)
    ensures WhereNamed(D, Nil, x) == {}
  {
  }
}
