/** What is reachable and what is named after the loop of pass2, whatever the orphans'
  numbers and their stale `..` are: when the loop meets its purpose. */
module Outcome {
  import opened DirBlock
  import opened Disk
  import opened Tree
  import opened Acyclic
  import opened Dots
  import opened Walk
  import opened LostFound
  import opened Graft
  import opened Rescue
  import opened Rounds
  import opened Orphans
  import opened Listed

  /** The entry made for inode `i` becomes visible in lost+found. */
  ghost predicate Landed(c: Case, i: nat) {
    c.lf in RoundAt(c, i).D && Lands(RoundAt(c, i).D[c.lf], 0, EntryFor(c, i))
  }

  /** A listed inode, and a listed directory, whose entry landed. */
  ghost predicate Housed(c: Case, i: nat) { 1 <= i <= c.n && Missing(c, i) && Landed(c, i) }

  ghost predicate Home(c: Case, j: nat) { ListedDir(c, j) && Landed(c, j) }

  /** lost+found before round `k`: what it named, and one entry for each inode that landed. */
  ghost predicate LostFoundAt(c: Case, k: nat, D: Dirs) {
    && c.lf in D && |D[c.lf]| > 0 && |D[c.lf][0]| >= 2
    && (forall x: nat :: Mentions(All(D, c.lf), x) > 0 <==> Mentions(All(c.D0, c.lf), x) > 0 || (x < k && Housed(c, x)))
    && (forall x: nat :: Link(D, c.lf, x) <==> Link(c.D0, c.lf, x) || (x < k && Home(c, x)))
  }

  lemma {:induction false} LostFoundFills(c: Case, k: nat)
    requires Runnable(c) && AllHeaded(c.D0) && 1 <= k <= c.n + 1
    ensures LostFoundAt(c, k, RoundAt(c, k).D)
  {
    hide *;
    if k == 1 {
      LostFoundStart(c);
    } else {
      var i := k - 1;
      LostFoundFills(c, i);
      if Missing(c, i) {
        RoundKeeps(c, i);
        RoundFollows(c, i);
        MissingIs(c, i);
        NextDirs(c, RoundAt(c, i), i);
        LandedIs(c, i);
        if Landed(c, i) {
          EntryLands(c, i, RoundAt(c, i).D, RoundAt(c, k).D);
        } else {
          EntryLost(c, i, RoundAt(c, i).D, RoundAt(c, k).D);
        }
      } else {
        RoundSkips(c, i);
        LostFoundThere(c, i, RoundAt(c, i).D);
        LostFoundWaits(c, i, RoundAt(c, i).D, RoundAt(c, i).D);
      }
    }
  }

  lemma LostFoundThere(c: Case, k: nat, D: Dirs)
    requires LostFoundAt(c, k, D)
    ensures c.lf in D
  {
  }

  lemma LandedIs(c: Case, i: nat)
    requires CanMove(RoundAt(c, i).D, c.lf, i)
    ensures Landed(c, i) <==> Lands(RoundAt(c, i).D[c.lf], 0, EntryFor(c, i))
  {
  }

  lemma LostFoundStart(c: Case)
    requires Runnable(c) && AllHeaded(c.D0)
    ensures LostFoundAt(c, 1, RoundAt(c, 1).D)
  {
    hide Missing, All, Link, InRange, Unfolds, Landed;
    assert Headed(c.D0[c.lf]);
    assert !ListedDir(c, 0);
  }

  lemma NextDirs(c: Case, s: Round, i: nat)
    requires Unreferenced(c, s, i) && CanMove(s.D, c.lf, i)
    ensures NextRound(c, s, i).D == Rescued(s.D, c.lf, i, 0, EntryFor(c, i)) && i != c.lf
  {
    hide Rescued, AddRefs, Under, Unreferenced;
  }

  lemma LostFoundWaits(c: Case, i: nat, D: Dirs, E: Dirs)
    requires LostFoundAt(c, i, D) && !(Missing(c, i) && Landed(c, i)) && 1 <= i <= c.n
    requires c.lf in E && E[c.lf] == D[c.lf]
    ensures LostFoundAt(c, i + 1, E)
  {
    hide Missing, Landed;
  }

  lemma EntryLost(c: Case, i: nat, D: Dirs, E: Dirs)
    requires LostFoundAt(c, i, D) && 1 <= i <= c.n && CanMove(D, c.lf, i) && i != c.lf
    requires !Lands(D[c.lf], 0, EntryFor(c, i)) && !Landed(c, i)
    requires E == Rescued(D, c.lf, i, 0, EntryFor(c, i))
    ensures LostFoundAt(c, i + 1, E)
  {
    hide Missing, Landed, LostFoundAt, Spliceable;
    assert Inserted(D[c.lf], 0, EntryFor(c, i)) == D[c.lf];
    LostFoundWaits(c, i, D, E);
  }

  lemma EntryLands(c: Case, i: nat, D: Dirs, E: Dirs)
    requires LostFoundAt(c, i, D) && Missing(c, i) && Landed(c, i) && 1 <= i <= c.n && CanMove(D, c.lf, i) && i != c.lf
    requires Lands(D[c.lf], 0, EntryFor(c, i)) && E == Rescued(D, c.lf, i, 0, EntryFor(c, i))
    ensures LostFoundAt(c, i + 1, E)
  {
    hide Missing, Inserted, Lands, All, Kids, Link, Landed;
    var e := EntryFor(c, i);
    InsertedGrew(D[c.lf], 0, e);
    assert E[c.lf] == Inserted(D[c.lf], 0, e);
    LostFoundGrew(D, E, c.lf, e);
    hide Rescued;
    assert e.ino == i && (e.IsDir() <==> i in c.dirs);
  }

  lemma LostFoundGrew(D: Dirs, E: Dirs, lf: nat, e: Entry)
    requires lf in D && lf in E && Grew(Flat(D[lf]), Flat(E[lf]), e) && Grew(Below(D[lf]), Below(E[lf]), e)
    ensures forall x :: Mentions(All(E, lf), x) > 0 <==> Mentions(All(D, lf), x) > 0 || x == e.ino
    ensures forall x :: Link(E, lf, x) <==> Link(D, lf, x) || (x == e.ino && e.IsDir())
  {
    hide Grew;
    forall x: nat
      ensures Mentions(All(E, lf), x) > 0 <==> Mentions(All(D, lf), x) > 0 || x == e.ino
      ensures Link(E, lf, x) <==> Link(D, lf, x) || (x == e.ino && e.IsDir())
    {
      NamesGrew(All(D, lf), All(E, lf), e, x);
      LinkGrew(D, E, lf, e, x);
    }
  }

  lemma LinkGrew(D: Dirs, E: Dirs, lf: nat, e: Entry, x: nat)
    requires Grew(Kids(D, lf), Kids(E, lf), e)
    ensures Link(E, lf, x) <==> Link(D, lf, x) || (x == e.ino && e.IsDir())
  {
    hide Kids;
    var a, b := Kids(D, lf), Kids(E, lf);
    var p: nat :| GrewAt(a, b, e, p);
    var w := a[..p] + [e] + a[p..];
    if Link(E, lf, x) {
      var f :| f in b && f.IsDir() && f.ino == x;
      var k :| 0 <= k < |b| && b[k] == f;
      assert w[k].ino == x && w[k].IsDir();
      if k != p { assert w[k] in a; }
    }
    if x == e.ino && e.IsDir() {
      assert b[p].ino == w[p].ino && b[p].IsDir();
      assert b[p] in b;
    }
    if Link(D, lf, x) {
      var f :| f in a && f.IsDir() && f.ino == x;
      var k :| 0 <= k < |a| && a[k] == f;
      var q := if k < p then k else k + 1;
      assert w[q] == f && b[q].ino == x && b[q].IsDir();
      assert b[q] in b;
    }
  }

  /** The directories after the loop. */
  ghost function End(c: Case): Dirs { RoundAt(c, c.n + 1).D }

  /** A directory of the tree, or at or below a directory that landed. */
  ghost predicate Reached(c: Case, m: nat) {
    m in Nodes(Whole(c.F0)) || exists j :: Home(c, j) && m in Nodes(Under(c.D0, j))
  }

  /** What the links of the repaired directories are. */
  lemma EndLinks(c: Case, n: nat, m: nat)
    requires AnyOrder(c)
    ensures Link(End(c), n, m) <==> Link(c.D0, n, m) || (n == c.lf && Home(c, m))
  {
    hide *;
    AnyOrderRuns(c);
    RoundKeeps(c, c.n + 1);
    if n == c.lf {
      LostFoundFills(c, c.n + 1);
      LostFoundEnd(c, End(c), m) by { EndIs(c); }
      EndIs(c);
    } else {
      KeptLink(c, c.n + 1, n, m);
    }
  }

  lemma EndIs(c: Case)
    ensures End(c) == RoundAt(c, c.n + 1).D
  {
  }

  lemma LostFoundEnd(c: Case, D: Dirs, m: nat)
    requires LostFoundAt(c, c.n + 1, D)
    ensures Link(D, c.lf, m) <==> Link(c.D0, c.lf, m) || Home(c, m)
    ensures Mentions(All(D, c.lf), m) > 0 <==> Mentions(All(c.D0, c.lf), m) > 0 || Housed(c, m)
  {
    hide Missing, All, Link, Landed;
  }

  lemma KeptLink(c: Case, k: nat, n: nat, m: nat)
    requires Runnable(c) && Kept(c, k, RoundAt(c, k)) && n != c.lf && k == c.n + 1
    ensures Link(End(c), n, m) <==> Link(c.D0, n, m)
  {
    hide Missing, RoundAt, Kids, InRange;
  }

  /** What a link after the loop leads to is reached if its directory is. */
  lemma ReachedNext(c: Case, n: nat, m: nat)
    requires AnyOrder(c) && Reached(c, n) && Link(End(c), n, m)
    ensures Reached(c, m)
  {
    hide AnyOrder, Missing, Under, Nodes, Link, ListedDir, End, StrayReady, Stray;
    AnyOrderRuns(c);
    OrderTree(c);
    EndLinks(c, n, m);
    if Link(c.D0, n, m) {
      if n in Nodes(Whole(c.F0)) {
        RootForest(c);
        LinkInside(c.D0, Whole(c.F0), n, m);
      } else {
        var j :| Home(c, j) && n in Nodes(Under(c.D0, j));
        StrayHere(c, j);
        UnderKeys(c.D0, j);
        LinkInside(c.D0, Under(c.D0, j), n, m);
      }
    } else {
      StrayHere(c, m);
      UnderKeys(c.D0, m);
    }
  }

  lemma RootForest(c: Case)
    requires TreeReady(c)
    ensures Grown(c.D0, Whole(c.F0)) && Nodes(Whole(c.F0)) <= c.D0.Keys
    ensures ROOT_INO in Nodes(Whole(c.F0)) && c.lf in Nodes(Whole(c.F0))
  {
    hide InRange, Typed, DotsRight, AllHeaded;
    GrownWhole(c.D0, c.F0);
    GrownKeys(c.D0, Whole(c.F0));
  }

  lemma LinkInside(D: Dirs, f: Forest, n: nat, m: nat)
    requires Grown(D, f) && n in Nodes(f) && Link(D, n, m)
    ensures m in Nodes(f)
  {
    var e :| e in Kids(D, n) && e.IsDir() && e.ino == m;
    GrownClosed(D, f, n, e);
  }

  lemma {:induction false} PathReached(c: Case, p: seq<nat>, m: nat)
    requires AnyOrder(c) && |p| > 0 && Reached(c, p[0]) && Path(End(c), p, p[0], m)
    ensures Reached(c, m)
    decreases |p|
  {
    hide AnyOrder, Reached, Link, End;
    if |p| > 1 {
      assert Link(End(c), p[0], p[0 + 1]);
      ReachedNext(c, p[0], p[1]);
      PathTail(End(c), p, m);
      PathReached(c, p[1..], m);
    }
  }

  lemma PathTail(D: Dirs, p: seq<nat>, m: nat)
    requires |p| > 1 && Path(D, p, p[0], m)
    ensures Path(D, p[1..], p[1], m)
  {
    hide Link;
    var q := p[1..];
    forall i | 0 <= i < |q| - 1
      ensures Link(D, q[i], q[i + 1])
    {
      assert Link(D, p[i + 1], p[i + 1 + 1]);
    }
  }

  lemma {:induction false} ReachJoin(D: Dirs, a: nat, p: seq<nat>, m: nat)
    requires |p| > 0 && Reachable(D, a, p[0]) && Path(D, p, p[0], m)
    ensures Reachable(D, a, m)
    decreases |p|
  {
    hide Link, Reachable;
    if |p| > 1 {
      assert Link(D, p[0], p[0 + 1]);
      ReachFurther(D, a, p[0], p[1]);
      PathTail(D, p, m);
      ReachJoin(D, a, p[1..], m);
    }
  }

  /** Old paths are still there. */
  lemma StillReachable(c: Case, a: nat, n: nat, m: nat)
    requires AnyOrder(c) && Reachable(End(c), a, n) && Reachable(c.D0, n, m)
    ensures Reachable(End(c), a, m)
  {
    hide AnyOrder, Link, End, ListedDir;
    var p :| Path(c.D0, p, n, m);
    forall i | 0 <= i < |p| - 1
      ensures Link(End(c), p[i], p[i + 1])
    {
      EndLinks(c, p[i], p[i + 1]);
    }
    ReachJoin(End(c), a, p, m);
  }

  /** The directories reachable from the root after the loop. */
  lemma ReachedIff(c: Case, m: nat)
    requires AnyOrder(c)
    ensures Reachable(End(c), ROOT_INO, m) <==> Reached(c, m)
  {
    hide *;
    AnyOrderRuns(c);
    OrderTree(c);
    RootForest(c);
    FromRoot(c, ROOT_INO);
    if Reachable(End(c), ROOT_INO, m) {
      var p := PathOf(End(c), ROOT_INO, m);
      PathReached(c, p, m);
    }
    if m in Nodes(Whole(c.F0)) {
      RootReaches(c, m);
    } else if Reached(c, m) {
      var j := ListedAbove(c, m);
      RootReaches(c, c.lf);
      EndLinks(c, c.lf, j);
      ReachFurther(End(c), ROOT_INO, c.lf, j);
      StrayHere(c, j);
      UnderReaches(c.D0, j, m);
      StillReachable(c, ROOT_INO, j, m);
    }
  }

  lemma FromRoot(c: Case, n: nat)
    ensures n in Nodes(Whole(c.F0)) ==> Reached(c, n)
  {
  }

  lemma PathOf(D: Dirs, a: nat, m: nat) returns (p: seq<nat>)
    requires Reachable(D, a, m)
    ensures |p| > 0 && p[0] == a && Path(D, p, a, m)
  {
    p :| Path(D, p, a, m);
  }

  lemma ListedAbove(c: Case, m: nat) returns (j: nat)
    requires Reached(c, m) && m !in Nodes(Whole(c.F0))
    ensures Home(c, j) && ListedDir(c, j) && m in Nodes(Under(c.D0, j))
  {
    hide Under, Nodes, ListedDir, Landed;
    j :| Home(c, j) && m in Nodes(Under(c.D0, j));
  }

  lemma RootReaches(c: Case, m: nat)
    requires AnyOrder(c) && m in Nodes(Whole(c.F0))
    ensures Reachable(End(c), ROOT_INO, m)
  {
    hide Narrow, StrayReady, Stray, End, InRange, Typed, DotsRight, AllHeaded, Link, Unfolds, Nodes;
    WalkedIsReachable(c.D0, ROOT_INO, c.F0, m);
    assert Path(End(c), [ROOT_INO], ROOT_INO, ROOT_INO);
    StillReachable(c, ROOT_INO, ROOT_INO, m);
  }

  lemma UnderReaches(D: Dirs, j: nat, m: nat)
    requires j in D && Ends(D, j) && m in Nodes(Under(D, j))
    ensures Reachable(D, j, m)
  {
    hide TreeAt, Link, Reachable;
    TreeUnfolds(D, j);
    WalkedIsReachable(D, j, TreeAt(D, j), m);
  }

  /** After the loop an entry of some directory reachable from the root names `x`. */
  ghost predicate NamedEnd(c: Case, x: nat) {
    exists m :: Reachable(End(c), ROOT_INO, m) && Mentions(All(End(c), m), x) > 0
  }

  /** What a reached directory names after the loop. */
  lemma EndEntries(c: Case, m: nat, x: nat)
    requires AnyOrder(c) && Reached(c, m)
    ensures m in c.D0
    ensures m == c.lf ==> (Mentions(All(End(c), m), x) > 0 <==> Mentions(All(c.D0, m), x) > 0 || Housed(c, x))
    ensures m != c.lf ==> (Mentions(All(End(c), m), x) > 0 <==> EntryNames(c, c.n + 1, m, x))
    ensures m in Nodes(Whole(c.F0)) && m != c.lf ==> All(End(c), m) == All(c.D0, m)
  {
    hide *;
    AnyOrderRuns(c);
    OrderTree(c);
    RootForest(c);
    EndIs(c);
    if m !in Nodes(Whole(c.F0)) {
      var j := ListedAbove(c, m);
      StrayHere(c, j);
      UnderKeys(c.D0, j);
    }
    if m == c.lf {
      LostFoundFills(c, c.n + 1);
      LostFoundEnd(c, End(c), x);
    } else {
      EntryNamed(c, c.n + 1, m, x);
      if m in Nodes(Whole(c.F0)) { TreeStays(c, m); }
    }
  }

  lemma TreeStays(c: Case, m: nat)
    requires AnyOrder(c) && Runnable(c) && m in Nodes(Whole(c.F0)) && m != c.lf && m in c.D0
    requires forall j :: ListedDir(c, j) ==> Stray(c, j)
    ensures All(End(c), m) == All(c.D0, m)
  {
    hide Missing, InRange, Typed, DotsRight, AllHeaded, Narrow, Unfolds, Nodes, StrayReady, RoundAt, Runnable, Kept;
    RoundKeeps(c, c.n + 1);
    if Missing(c, m) {
      MissingLive(c, m);
      KeysAreDirs(c);
      ListedDirIs(c, m);
    }
    KeptEntries(c, c.n + 1, RoundAt(c, c.n + 1), m);
  }

  lemma KeptEntries(c: Case, k: nat, s: Round, m: nat)
    requires Kept(c, k, s) && m in c.D0 && m != c.lf && !Missing(c, m)
    ensures m in s.D && s.D[m] == c.D0[m]
  {
    hide Missing, InRange;
  }

  /** What is named after the loop. */
  lemma EndNames(c: Case, x: nat)
    requires AnyOrder(c) && 1 <= x <= c.n
    ensures NamedEnd(c, x) <==>
            Named(c.D0, c.F0, x) || Housed(c, x) || exists j :: Home(c, j) && WalkNames(c, c.n + 1, j, x)
  {
    hide AnyOrder, Housed, Home, End, Reachable, All, EntryNames, Under, Nodes, Refs, Reached;
    OrderTree(c);
    RootForest(c);
    AnyOrderRuns(c);
    RefsPositive(c.D0, Whole(c.F0), x);
    if NamedEnd(c, x) {
      var m :| Reachable(End(c), ROOT_INO, m) && Mentions(All(End(c), m), x) > 0;
      ReachedIff(c, m);
      EndEntries(c, m, x);
      if m !in Nodes(Whole(c.F0)) {
        var j := ListedAbove(c, m);
        StrayHere(c, j);
      }
    }
    if Named(c.D0, c.F0, x) {
      var m :| m in Nodes(Whole(c.F0)) && Mentions(All(c.D0, m), x) > 0;
      FromRoot(c, m);
      NamedThere(c, m, x);
    }
    if Housed(c, x) {
      FromRoot(c, c.lf);
      NamedThere(c, c.lf, x);
    }
    forall j | Home(c, j) && WalkNames(c, c.n + 1, j, x)
      ensures NamedEnd(c, x)
    {
      var m :| m in Nodes(Under(c.D0, j)) && EntryNames(c, c.n + 1, m, x);
      FromHome(c, j, m);
      StrayHere(c, j);
      NamedThere(c, m, x);
    }
  }

  lemma FromHome(c: Case, j: nat, m: nat)
    requires Home(c, j) && m in Nodes(Under(c.D0, j))
    ensures Reached(c, m) && ListedDir(c, j)
  {
  }

  lemma NamedThere(c: Case, m: nat, x: nat)
    requires AnyOrder(c) && Reached(c, m)
    requires if m == c.lf then Mentions(All(c.D0, m), x) > 0 || Housed(c, x)
             else (m in Nodes(Whole(c.F0)) && Mentions(All(c.D0, m), x) > 0) || EntryNames(c, c.n + 1, m, x)
    ensures NamedEnd(c, x)
  {
    hide AnyOrder, Housed, Home, End, Reachable, All, EntryNames, Nodes, Reached;
    EndEntries(c, m, x);
    ReachedIff(c, m);
  }

  lemma HomeListed(c: Case, j: nat)
    requires Home(c, j)
    ensures ListedDir(c, j) && 1 <= j <= c.n && Missing(c, j)
  {
  }

  /** After the loop a live inode is named exactly when the tree named it, its own
      entry landed in lost+found, or it is inside a directory whose entry landed. */
  lemma EndNamesIff(c: Case, x: nat)
    requires AnyOrder(c) && x in c.live
    ensures NamedEnd(c, x) <==>
            Named(c.D0, c.F0, x) || Housed(c, x) || exists k :: Home(c, k) && Inside(c, k, x)
  {
    hide *;
    AnyOrderRuns(c);
    OrderTree(c);
    LiveInside(c, x);
    EndNames(c, x);
    TreeNamesIff(c, x);
    if !Named(c.D0, c.F0, x) {
      LostFoundInTree(c, x);
      forall j | Home(c, j)
        ensures WalkNames(c, c.n + 1, j, x) <==> Inside(c, j, x)
      {
        HomeListed(c, j);
        WalkNamesIff(c, c.n + 1, j, x);
      }
    }
  }

  /** lost+found had room for every inode listed. */
  ghost predicate AllLanded(c: Case) { forall i :: 1 <= i <= c.n && Missing(c, i) ==> Landed(c, i) }

  /** With room in lost+found, a live inode is left without a name exactly when neither
      the tree nor anything inside a listed directory names it, but the stale `..` of
      an earlier listed directory did when that directory was walked. */
  lemma LostIff(c: Case, x: nat)
    requires AnyOrder(c) && AllLanded(c) && x in c.live
    ensures !NamedEnd(c, x) <==>
            && !Named(c.D0, c.F0, x)
            && (exists j: nat :: ListedDir(c, j) && j < x && x == Stale(c, j))
            && (forall k :: ListedDir(c, k) ==> !Inside(c, k, x))
  {
    hide *;
    AnyOrderRuns(c);
    OrderTree(c);
    LiveInside(c, x);
    EndNamesIff(c, x);
    ListedIff(c, x);
    TreeNamesIff(c, x);
    RoomFor(c, x);
    if !Named(c.D0, c.F0, x) {
      LostFoundInTree(c, x);
      forall j | ListedDir(c, j)
        ensures WalkNames(c, j, j, x) <==> Inside(c, j, x) || x == Stale(c, j)
        ensures 1 <= j && Home(c, j)
      {
        ListedDirIs(c, j);
        RoomFor(c, j);
        WalkNamesIff(c, j, j, x);
      }
      forall j | Home(c, j)
        ensures ListedDir(c, j)
      {
        HomeListed(c, j);
      }
    }
  }

  lemma RoomFor(c: Case, x: nat)
    requires AllLanded(c) && 1 <= x <= c.n
    ensures Housed(c, x) <==> Missing(c, x)
    ensures ListedDir(c, x) <==> Home(c, x)
  {
    hide Missing, Landed;
  }

  /** Something that the loop moves to lost+found with room holds `x`. */
  ghost predicate Held(c: Case, x: nat) { exists k :: Home(c, k) && Inside(c, k, x) }

  /** pass2 meets its purpose, that every live inode is named by a directory reachable
      from the root, exactly when a listed inode without room in lost+found is held
      elsewhere, and so is, unless the tree names it, each later live inode that the
      stale `..` of a listed directory names or that one without room holds. */
  lemma CompleteIff(c: Case)
    requires AnyOrder(c)
    ensures (forall x :: x in c.live ==> NamedEnd(c, x)) <==>
            && (forall i :: i in c.live && Missing(c, i) && !Landed(c, i) ==> Held(c, i))
            && (forall j: nat, x ::
                  ListedDir(c, j) && x in c.live && j < x &&
                  (x == Stale(c, j) || (!Landed(c, j) && Inside(c, j, x))) ==>
                  Named(c.D0, c.F0, x) || Held(c, x))
  {
    hide *;
    forall x | x in c.live
      ensures NamedEnd(c, x) <==> Named(c.D0, c.F0, x) || (Missing(c, x) && Landed(c, x)) || Held(c, x)
      ensures Missing(c, x) ==> !Named(c.D0, c.F0, x)
      ensures !Named(c.D0, c.F0, x) ==> (Missing(c, x) <==>
              forall j: nat :: ListedDir(c, j) && j < x ==> !Inside(c, j, x) && x != Stale(c, j))
      ensures forall j :: ListedDir(c, j) && Landed(c, j) && Inside(c, j, x) ==> Held(c, x)
    {
      EachEnds(c, x);
    }
  }

  lemma EachEnds(c: Case, x: nat)
    requires AnyOrder(c) && x in c.live
    ensures NamedEnd(c, x) <==> Named(c.D0, c.F0, x) || (Missing(c, x) && Landed(c, x)) || Held(c, x)
    ensures Missing(c, x) ==> !Named(c.D0, c.F0, x)
    ensures !Named(c.D0, c.F0, x) ==>
              (Missing(c, x) <==> forall j: nat :: ListedDir(c, j) && j < x ==> !Inside(c, j, x) && x != Stale(c, j))
    ensures forall j :: ListedDir(c, j) && Landed(c, j) && Inside(c, j, x) ==> Held(c, x)
  {
    hide *;
    AnyOrderRuns(c);
    OrderTree(c);
    LiveInside(c, x);
    EndNamesIff(c, x);
    ListedIff(c, x);
    TreeNamesIff(c, x);
    HeldIs(c, x);
    if !Named(c.D0, c.F0, x) {
      LostFoundInTree(c, x);
      forall j | ListedDir(c, j)
        ensures WalkNames(c, j, j, x) <==> Inside(c, j, x) || x == Stale(c, j)
        ensures 1 <= j
      {
        ListedDirIs(c, j);
        WalkNamesIff(c, j, j, x);
      }
    }
  }

  lemma HeldIs(c: Case, x: nat)
    ensures Held(c, x) <==> exists k :: Home(c, k) && Inside(c, k, x)
    ensures forall j :: ListedDir(c, j) && Landed(c, j) && Inside(c, j, x) ==> Held(c, x)
    ensures Housed(c, x) <==> 1 <= x <= c.n && Missing(c, x) && Landed(c, x)
  {
    hide Landed, Missing, ListedDir, Inside;
  }

  /** A path that starts below a listed directory stays there. */
  lemma {:induction false} StaysBelow(c: Case, j: nat, p: seq<nat>, m: nat)
    requires AnyOrder(c) && Home(c, j) && |p| > 0 && p[0] in Nodes(Under(c.D0, j)) && Path(End(c), p, p[0], m)
    ensures m in Nodes(Under(c.D0, j)) && m != c.lf
    decreases |p|
  {
    hide *;
    AnyOrderRuns(c);
    HomeListed(c, j);
    StrayHere(c, j);
    if |p| > 1 {
      PathLink(End(c), p, m, 0);
      EndLinks(c, p[0], p[1]);
      UnderKeys(c.D0, j);
      LinkInside(c.D0, Under(c.D0, j), p[0], p[1]);
      PathTail(End(c), p, m);
      StaysBelow(c, j, p[1..], m);
    } else {
      PathShort(End(c), p, m);
    }
  }

  lemma PathLink(D: Dirs, p: seq<nat>, m: nat, i: nat)
    requires |p| > 0 && Path(D, p, p[0], m) && i < |p| - 1
    ensures Link(D, p[i], p[i + 1])
  {
  }

  lemma PathShort(D: Dirs, p: seq<nat>, m: nat)
    requires |p| == 1 && Path(D, p, p[0], m)
    ensures m == p[0]
  {
  }

  lemma PathParts(D: Dirs, p: seq<nat>, m: nat, i: nat)
    requires |p| > 0 && Path(D, p, p[0], m) && i < |p|
    ensures Path(D, p[i..], p[i], m) && Path(D, p[..i + 1], p[0], p[i])
  {
    hide Link;
    var q := p[i..];
    forall k | 0 <= k < |q| - 1
      ensures Link(D, q[k], q[k + 1])
    {
      assert Link(D, p[i + k], p[i + k + 1]);
    }
    forall k | 0 <= k < i
      ensures Link(D, p[k], p[k + 1])
    {
    }
  }

  /** No cycle leads through an entry that the loop has made. */
  lemma NoNewLink(c: Case, p: seq<nat>, m: nat, i: nat)
    requires AnyOrder(c) && |p| > 1 && p[0] == m && Path(End(c), p, m, m) && i < |p| - 1
    ensures Link(c.D0, p[i], p[i + 1])
  {
    hide *;
    PathLink(End(c), p, m, i);
    EndLinks(c, p[i], p[i + 1]);
    if !Link(c.D0, p[i], p[i + 1]) {
      var j := p[i + 1];
      AnyOrderRuns(c);
      HomeListed(c, j);
      StrayHere(c, j);
      UnderKeys(c.D0, j);
      PathParts(End(c), p, m, i + 1);
      StaysBelow(c, j, p[i + 1..], m);
      PathParts(End(c), p, m, i);
      StaysBelow(c, j, p[..i + 1], p[i]);
    }
  }

  lemma OldCycle(c: Case, m: nat)
    requires AnyOrder(c) && OnCycle(End(c), m)
    ensures OnCycle(c.D0, m)
  {
    hide AnyOrder, End, Link;
    var p :| |p| > 1 && Path(End(c), p, m, m);
    forall i | 0 <= i < |p| - 1
      ensures Link(c.D0, p[i], p[i + 1])
    {
      NoNewLink(c, p, m, i);
    }
    assert Path(c.D0, p, m, m);
  }

  lemma ReachedOld(c: Case, m: nat)
    requires AnyOrder(c) && Reached(c, m)
    ensures m in c.D0 && !OnCycle(c.D0, m)
  {
    hide *;
    AnyOrderRuns(c);
    OrderTree(c);
    RootForest(c);
    if m in Nodes(Whole(c.F0)) {
      RootEnds(c);
      WholeReaches(c, m);
      WalkEndsIff(c.D0, ROOT_INO);
      NotOnCycle(c.D0, ROOT_INO, m);
    } else {
      var j := ListedAbove(c, m);
      StrayHere(c, j);
      UnderReaches(c.D0, j, m);
      WalkEndsIff(c.D0, j);
      NotOnCycle(c.D0, j, m);
    }
  }

  lemma NotOnCycle(D: Dirs, root: nat, m: nat)
    requires Loopless(D, root) && Reachable(D, root, m)
    ensures m in D && !OnCycle(D, m)
  {
  }

  lemma RootEnds(c: Case)
    requires TreeReady(c)
    ensures ROOT_INO in c.D0 && Ends(c.D0, ROOT_INO)
  {
  }

  lemma WholeReaches(c: Case, m: nat)
    requires TreeReady(c) && m in Nodes(Whole(c.F0))
    ensures Reachable(c.D0, ROOT_INO, m)
  {
    hide InRange, Typed, DotsRight, AllHeaded, Link, Unfolds, Nodes;
    WalkedIsReachable(c.D0, ROOT_INO, c.F0, m);
  }

  /** Whatever pass2 moved, the walks of the later passes come to an end. */
  lemma EndWalks(c: Case)
    requires AnyOrder(c)
    ensures Ends(End(c), ROOT_INO)
  {
    hide *;
    AnyOrderRuns(c);
    OrderTree(c);
    RootEnds(c);
    EndKeys(c);
    forall m | Reachable(End(c), ROOT_INO, m)
      ensures m in End(c) && !OnCycle(End(c), m)
    {
      ReachedIff(c, m);
      ReachedOld(c, m);
      if OnCycle(End(c), m) { OldCycle(c, m); }
    }
    MakeLoopless(End(c), ROOT_INO);
    WalkEndsIff(End(c), ROOT_INO);
  }

  lemma EndKeys(c: Case)
    requires Runnable(c)
    ensures End(c).Keys == c.D0.Keys
  {
    hide Runnable, RoundAt, Missing, InRange, Kids;
    RoundKeeps(c, c.n + 1);
  }

  lemma MakeLoopless(D: Dirs, root: nat)
    requires forall m :: Reachable(D, root, m) ==> m in D && !OnCycle(D, m)
    ensures Loopless(D, root)
  {
    hide Reachable, OnCycle;
  }
}
