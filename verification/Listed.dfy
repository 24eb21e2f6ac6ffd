/** Which inodes the loop of pass2 puts into lost+found, and which live inodes it
  leaves without a name, whatever the orphans' numbers and their stale `..` are. */
module Listed {
  import opened DirBlock
  import opened Disk
  import opened Tree
  import opened Acyclic
  import opened Dots
  import opened Walk
  import opened LinkCounts
  import opened LostFound
  import opened Rescue
  import opened Rounds
  import opened Orphans

  /** An unreferenced directory: the loop walks it and moves it. */
  ghost predicate ListedDir(c: Case, j: nat) { 1 <= j <= c.n && j in c.dirs && Missing(c, j) }

  /** What a directory's second entry names at the start. */
  function Stale(c: Case, j: nat): nat {
    if j in c.D0 && |c.D0[j]| > 0 && |c.D0[j][0]| > 1 then c.D0[j][0][1].ino else 0
  }

  /** Before round `k`, directory `m` has an entry naming `x`. */
  ghost predicate EntryNames(c: Case, k: nat, m: nat, x: nat) {
    && m in c.D0 && Headed(c.D0[m])
    && (|| Mentions(Kids(c.D0, m), x) > 0
        || c.D0[m][0][0].ino == x
        || (if m < k && Missing(c, m) then c.lf else c.D0[m][0][1].ino) == x)
  }

  /** Before round `k`, a walk from `j` meets an entry naming `x`. */
  ghost predicate WalkNames(c: Case, k: nat, j: nat, x: nat) {
    exists m :: m in Nodes(Under(c.D0, j)) && EntryNames(c, k, m, x)
  }

  lemma EntryNamed(c: Case, k: nat, m: nat, x: nat)
    requires Runnable(c) && AllHeaded(c.D0) && m in c.D0 && m != c.lf && 1 <= k
    ensures Mentions(All(RoundAt(c, k).D, m), x) > 0 <==> EntryNames(c, k, m, x)
  {
    hide Missing, RoundAt, Runnable, InRange, All, Kids;
    RoundKeeps(c, k);
    var D := RoundAt(c, k).D;
    assert Headed(c.D0[m]);
    if m < k && Missing(c, m) { SetIdle(c.D0, m, c.lf); }
    MentionsAll(D, m, x);
  }

  lemma SetIdle(D: Dirs, n: nat, v: nat)
    requires n in D && Headed(D[n])
    ensures var bs := SetIno(D, n, 1, v)[n];
            Headed(bs) && bs[0][0].ino == D[n][0][0].ino && bs[0][1].ino == v
  {
  }

  lemma UnderKeys(D: Dirs, j: nat)
    requires j in D && Ends(D, j)
    ensures Nodes(Under(D, j)) <= D.Keys && j in Nodes(Under(D, j)) && Grown(D, Under(D, j))
    ensures forall m :: m in Nodes(Under(D, j)) <==> m == j || m in Nodes(TreeAt(D, j))
  {
    TreeUnfolds(D, j);
    UnfoldsKeys(D, Kids(D, j), TreeAt(D, j));
    assert Nodes(Under(D, j)) == {j} + Nodes(TreeAt(D, j)) + Nodes(Nil);
    assert Grown(D, Nil);
  }

  /** What the walk of round `j` counts. */
  lemma WalkCounts(c: Case, j: nat, x: nat)
    requires Runnable(c) && AllHeaded(c.D0) && ListedDir(c, j)
    ensures Refs(RoundAt(c, j).D, Under(c.D0, j), x) > 0 <==> WalkNames(c, j, j, x)
  {
    hide Runnable, Missing, RoundAt, Under, Refs, AllHeaded, EntryNames;
    RoundReady(c, j);
    UnderKeys(c.D0, j);
    RefsPositive(RoundAt(c, j).D, Under(c.D0, j), x);
    forall m | m in Nodes(Under(c.D0, j))
      ensures Mentions(All(RoundAt(c, j).D, m), x) > 0 <==> EntryNames(c, j, m, x)
    {
      EntryNamed(c, j, m, x);
    }
  }

  /** One of the walks before round `k` meets `x`. */
  ghost predicate WalkedBefore(c: Case, k: nat, x: nat) {
    exists j :: 1 <= j < k && ListedDir(c, j) && WalkNames(c, j, j, x)
  }

  /** A counter is positive exactly when the tree or an earlier listed directory has
      named the inode. */
  lemma {:induction false} CountedIff(c: Case, k: nat, x: nat)
    requires Runnable(c) && AllHeaded(c.D0) && 1 <= k <= c.n + 1 && x <= c.n
    ensures |RoundAt(c, k).cnt| == c.n + 1
    ensures RoundAt(c, k).cnt[x] > 0 <==> Named(c.D0, c.F0, x) || WalkedBefore(c, k, x)
  {
    hide *;
    if k == 1 {
      StartCounts(c, x);
    } else {
      var i := k - 1;
      CountedIff(c, i, x);
      if Missing(c, i) {
        CountStep(c, i, x);
        if i in c.dirs { WalkCounts(c, i, x) by { ListedDirIs(c, i); } }
      } else {
        RoundSkips(c, i);
      }
      WalkedStep(c, i, x);
    }
  }

  lemma ListedDirIs(c: Case, j: nat)
    ensures ListedDir(c, j) <==> 1 <= j <= c.n && j in c.dirs && Missing(c, j)
  {
  }

  lemma StartCounts(c: Case, x: nat)
    requires x <= c.n
    ensures |RoundAt(c, 1).cnt| == c.n + 1
    ensures RoundAt(c, 1).cnt[x] == Refs(c.D0, Whole(c.F0), x)
    ensures Named(c.D0, c.F0, x) <==> Refs(c.D0, Whole(c.F0), x) > 0
    ensures !WalkedBefore(c, 1, x)
  {
    hide Refs, WalkNames, ListedDir;
  }

  lemma CountStep(c: Case, i: nat, x: nat)
    requires Runnable(c) && 1 <= i <= c.n && x <= c.n && Missing(c, i)
    ensures |RoundAt(c, i).cnt| == |RoundAt(c, i + 1).cnt| == c.n + 1
    ensures RoundAt(c, i + 1).cnt[x]
            == RoundAt(c, i).cnt[x] + if i in c.dirs then Refs(RoundAt(c, i).D, Under(c.D0, i), x) else 0
  {
    hide Missing, RoundAt, Refs, Runnable, Under, InRange;
    RoundKeeps(c, i);
    RoundFollows(c, i);
  }

  lemma WalkedStep(c: Case, i: nat, x: nat)
    requires 1 <= i
    ensures WalkedBefore(c, i + 1, x) <==> WalkedBefore(c, i, x) || (ListedDir(c, i) && WalkNames(c, i, i, x))
    ensures ListedDir(c, i) <==> i <= c.n && i in c.dirs && Missing(c, i)
  {
    hide WalkNames, Missing;
  }

  /** No counter has come round to zero when the loop looks at it. */
  ghost predicate Unwrapped(c: Case) {
    forall i :: i in c.live && Missing(c, i) ==> i < |RoundAt(c, i).cnt| && RoundAt(c, i).cnt[i] == 0
  }

  lemma MissingMeans(c: Case, i: nat)
    requires Runnable(c) && Unwrapped(c) && i in c.live && |RoundAt(c, i).cnt| == c.n + 1
    ensures 1 <= i <= c.n
    ensures Missing(c, i) <==> RoundAt(c, i).cnt[i] == 0
  {
    hide RoundAt;
  }

  /** An inode goes to lost+found exactly when it is live and named neither in the
      tree nor in the walk of an earlier directory that itself went there. */
  lemma ListedIff(c: Case, i: nat)
    requires Runnable(c) && AllHeaded(c.D0) && Unwrapped(c) && i in c.live
    ensures Missing(c, i) <==>
            !Named(c.D0, c.F0, i) && forall j :: 1 <= j < i && ListedDir(c, j) ==> !WalkNames(c, j, j, i)
  {
    hide Missing, RoundAt, AllHeaded, WalkNames, ListedDir, Named, InRange;
    LiveInside(c, i);
    CountedIff(c, i, i);
    MissingMeans(c, i);
  }

  lemma LiveInside(c: Case, i: nat)
    requires Runnable(c) && i in c.live
    ensures 1 <= i <= c.n
  {
  }

  /** The tree: root and lost+found in place, right dots throughout. */
  ghost predicate TreeReady(c: Case) {
    && ROOT_INO in c.D0 && Unfolds(c.D0, Kids(c.D0, ROOT_INO), c.F0)
    && c.lf in c.D0 && c.lf in Nodes(c.F0) && c.lf != ROOT_INO && 0 < c.lf <= c.n
    && HeadRight(c.D0[ROOT_INO], ROOT_INO, ROOT_INO) && DotsRight(c.D0, ROOT_INO, c.F0)
    && InRange(c.D0, c.n + 1) && (forall i :: i in c.live ==> 1 <= i <= c.n)
    && AllHeaded(c.D0) && Typed(c.D0, c.dirs, c.files) && c.D0.Keys <= c.dirs
  }

  /** A live directory outside the tree. */
  ghost predicate Stray(c: Case, j: nat) { j in c.live && j in c.dirs && j !in Nodes(Whole(c.F0)) }

  /** A stray's walk ends and does not come to lost+found; below the stray, dots are right. */
  ghost predicate StrayReady(c: Case, j: nat) {
    && j in c.D0 && Rewritable(c.D0[j]) && c.D0[j][0][0].ino == j
    && Ends(c.D0, j) && c.lf !in Nodes(Under(c.D0, j)) && DotsRight(c.D0, j, TreeAt(c.D0, j))
  }

  /** How often the walks of the strays below `k`, were they all walked, would name `x`. */
  ghost function WalkSum(c: Case, k: nat, x: nat): nat {
    if k <= 1 then 0
    else WalkSum(c, k - 1, x) + if Stray(c, k - 1) then Refs(c.D0, Under(c.D0, k - 1), x) + Moves(c, k - 1, x) else 0
  }

  /** Directories moved to lost+found name it in place of their old parent. */
  ghost function Moves(c: Case, j: nat, x: nat): nat { if x == c.lf then Size(Under(c.D0, j)) else 0 }

  /** Too few names for a counter to wrap before the loop has looked at it. */
  ghost predicate Narrow(c: Case) {
    forall x :: x in c.live ==> Refs(c.D0, Whole(c.F0), x) + WalkSum(c, x, x) < 256
  }

  /** A disk after pass1, with strays numbered and linked in any way. */
  ghost predicate AnyOrder(c: Case) {
    TreeReady(c) && Narrow(c) && forall j :: Stray(c, j) ==> StrayReady(c, j)
  }

  lemma {:induction false} MovedRefs(c: Case, k: nat, f: Forest, x: nat)
    requires Runnable(c) && AllHeaded(c.D0) && 1 <= k && Nodes(f) <= c.D0.Keys && c.lf !in Nodes(f)
    ensures Refs(RoundAt(c, k).D, f, x) <= Refs(c.D0, f, x) + if x == c.lf then Size(f) else 0
  {
    hide Missing, RoundAt, Runnable, InRange, All, AllHeaded;
    if f.Dir? {
      MovedRefs(c, k, f.kids, x);
      MovedRefs(c, k, f.rest, x);
      MovedMentions(c, k, f.ino, x);
    }
  }

  lemma MovedMentions(c: Case, k: nat, m: nat, x: nat)
    requires Runnable(c) && AllHeaded(c.D0) && m in c.D0 && m != c.lf && 1 <= k
    ensures Mentions(All(RoundAt(c, k).D, m), x) <= Mentions(All(c.D0, m), x) + if x == c.lf then 1 else 0
  {
    hide Missing, RoundAt, Runnable, InRange, All, Kids;
    RoundKeeps(c, k);
    assert Headed(c.D0[m]);
    if m < k && Missing(c, m) { SetIdle(c.D0, m, c.lf); }
    MentionsAll(c.D0, m, x);
    MentionsAll(RoundAt(c, k).D, m, x);
  }

  lemma {:induction false} CountBound(c: Case, k: nat, x: nat)
    requires Runnable(c) && AllHeaded(c.D0) && 1 <= k <= c.n + 1 && x <= c.n
    requires forall j :: ListedDir(c, j) ==> Stray(c, j)
    ensures |RoundAt(c, k).cnt| == c.n + 1 && RoundAt(c, k).cnt[x] <= Refs(c.D0, Whole(c.F0), x) + WalkSum(c, k, x)
  {
    hide *;
    if k == 1 {
      StartCounts(c, x);
    } else {
      var i := k - 1;
      CountBound(c, i, x);
      WalksStep(c, i, x);
      if Missing(c, i) {
        CountStep(c, i, x);
        if i in c.dirs {
          ListedDirIs(c, i);
          RoundReady(c, i);
          RescuableDir(c, i);
          UnderKeys(c.D0, i);
          MovedRefs(c, i, Under(c.D0, i), x);
        }
      } else {
        RoundSkips(c, i);
      }
    }
  }

  lemma RescuableDir(c: Case, i: nat)
    requires Rescuable(c, i) && i in c.dirs
    ensures i in c.D0 && Ends(c.D0, i) && c.lf !in Nodes(Under(c.D0, i))
  {
  }

  lemma WalksStep(c: Case, i: nat, x: nat)
    requires 1 <= i
    ensures WalkSum(c, i + 1, x)
            == WalkSum(c, i, x) + if Stray(c, i) then Refs(c.D0, Under(c.D0, i), x) + Moves(c, i, x) else 0
    ensures Moves(c, i, x) == if x == c.lf then Size(Under(c.D0, i)) else 0
  {
  }

  /** The same run with nothing to do from round `k` on. */
  ghost function StopAt(c: Case, k: nat): Case { c.(live := set j | j in c.live && j < k) }

  lemma {:induction false} SameRounds(c: Case, k: nat, i: nat)
    requires i <= k
    ensures RoundAt(StopAt(c, k), i) == RoundAt(c, i)
    ensures i < k ==> (Missing(StopAt(c, k), i) <==> Missing(c, i))
  {
    if i > 1 { SameRounds(c, k, i - 1); }
  }

  lemma {:induction false} SameWalks(c: Case, k: nat, i: nat, x: nat)
    requires i <= k
    ensures WalkSum(StopAt(c, k), i, x) == WalkSum(c, i, x)
  {
    if i > 1 { SameWalks(c, k, i - 1, x); }
  }

  /** Counters only grow. */
  lemma {:induction false} CountsGrow(c: Case, k: nat, x: nat)
    requires x <= c.n
    ensures |RoundAt(c, k).cnt| == c.n + 1 && RoundAt(c, k).cnt[x] >= Refs(c.D0, Whole(c.F0), x)
  {
    hide Unreferenced, CanMove, Refs;
    if k > 1 { CountsGrow(c, k - 1, x); }
  }

  /** What the loop lists is no directory of the tree, and its counter is zero. */
  ghost predicate ListedWell(c: Case, i: nat) {
    && (i in c.dirs ==> Stray(c, i))
    && i < |RoundAt(c, i).cnt| && RoundAt(c, i).cnt[i] == 0
  }

  lemma ListedStray(c: Case, i: nat)
    requires AnyOrder(c) && Missing(c, i) && ListedWell(c, i)
    ensures Rescuable(c, i)
  {
    hide RoundAt, TreeReady, Narrow, Ends, Under, TreeAt, Nodes, DotsRight;
    KeysAreDirs(c);
  }

  lemma KeysAreDirs(c: Case)
    requires TreeReady(c)
    ensures c.D0.Keys <= c.dirs && AllHeaded(c.D0) && (forall i :: i in c.live ==> 1 <= i <= c.n)
    ensures c.lf in c.D0 && Begun(c.D0[c.lf])
  {
    hide AllHeaded, Typed, InRange, DotsRight, Unfolds;
    HeadedBegun(c.D0, c.lf);
  }

  lemma StopRuns(c: Case, k: nat)
    requires AnyOrder(c) && forall j: nat :: j < k && Missing(c, j) ==> ListedWell(c, j)
    ensures Runnable(StopAt(c, k)) && forall j :: ListedDir(StopAt(c, k), j) ==> Stray(StopAt(c, k), j)
  {
    hide Missing, ListedWell, AllHeaded, Typed, InRange, DotsRight, Unfolds, Nodes, Rescuable, Stray, StrayReady,
         Narrow;
    KeysAreDirs(c);
    var s := StopAt(c, k);
    forall i | i in s.live && Missing(s, i)
      ensures Rescuable(s, i) && (i in s.dirs ==> Stray(s, i))
    {
      SameRounds(c, k, i);
      ListedStray(c, i);
      ListedWellIs(c, i);
      StopSame(c, k, i);
    }
    forall j | ListedDir(s, j)
      ensures Stray(s, j)
    {
      MissingLive(s, j);
    }
  }

  lemma ListedWellIs(c: Case, i: nat)
    requires ListedWell(c, i)
    ensures i in c.dirs ==> Stray(c, i)
  {
  }

  lemma StopSame(c: Case, k: nat, i: nat)
    requires Rescuable(c, i) && i in c.live && i < k
    ensures Rescuable(StopAt(c, k), i) && (Stray(c, i) ==> Stray(StopAt(c, k), i))
  {
  }

  /** However the strays are numbered, what the loop lists is unnamed and rescuable. */
  lemma {:induction false} ListsWell(c: Case, i: nat)
    requires AnyOrder(c) && Missing(c, i)
    ensures ListedWell(c, i)
    decreases i
  {
    hide *;
    forall j: nat | j < i && Missing(c, j)
      ensures ListedWell(c, j)
    {
      ListsWell(c, j);
    }
    StopRuns(c, i);
    MissingLive(c, i);
    OrderFacts(c, i);
    var s := StopAt(c, i);
    StopFields(c, i);
    CountBound(s, i, i);
    SameRounds(c, i, i);
    SameWalks(c, i, i, i);
    CountsGrow(c, i, i);
    ZeroIs(c, i);
    if i in Nodes(Whole(c.F0)) { NodesCounted(c.D0, c.F0, i); }
    MakeListedWell(c, i);
  }

  lemma StopFields(c: Case, k: nat)
    ensures StopAt(c, k).n == c.n && StopAt(c, k).D0 == c.D0 && StopAt(c, k).F0 == c.F0
  {
  }

  lemma OrderFacts(c: Case, i: nat)
    requires AnyOrder(c) && i in c.live
    ensures 1 <= i <= c.n && AllHeaded(c.D0) && ROOT_INO in c.D0 && HeadRight(c.D0[ROOT_INO], ROOT_INO, ROOT_INO)
    ensures Unfolds(c.D0, Kids(c.D0, ROOT_INO), c.F0)
    ensures Refs(c.D0, Whole(c.F0), i) + WalkSum(c, i, i) < 256
  {
    hide Refs, WalkSum, Whole, AllHeaded, Typed, InRange, DotsRight, Unfolds;
  }

  lemma ZeroIs(c: Case, i: nat)
    requires Missing(c, i) && i < |RoundAt(c, i).cnt| && RoundAt(c, i).cnt[i] < 256
    ensures RoundAt(c, i).cnt[i] == 0
  {
    hide RoundAt;
  }

  lemma MakeListedWell(c: Case, i: nat)
    requires i in c.live && i !in Nodes(Whole(c.F0)) && i < |RoundAt(c, i).cnt| && RoundAt(c, i).cnt[i] == 0
    ensures ListedWell(c, i)
  {
    hide RoundAt, Whole;
  }

  /** The loop can run on such a disk, and no counter deceives it. */
  lemma AnyOrderRuns(c: Case)
    requires AnyOrder(c)
    ensures Runnable(c) && Unwrapped(c) && AllHeaded(c.D0)
    ensures forall j :: ListedDir(c, j) ==> Stray(c, j) && StrayReady(c, j)
  {
    hide Missing, RoundAt, AllHeaded, Typed, InRange, DotsRight, Unfolds, Nodes, Rescuable, Stray, StrayReady, Narrow;
    KeysAreDirs(c);
    forall i | i in c.live && Missing(c, i)
      ensures Rescuable(c, i) && ListedWell(c, i) && (i in c.dirs ==> Stray(c, i))
    {
      ListsWell(c, i);
      ListedStray(c, i);
    }
    forall j | ListedDir(c, j)
      ensures Stray(c, j)
    {
      MissingLive(c, j);
    }
  }

  /** `x` is directory `j` or below it, or an entry below the dots there names it. */
  ghost predicate Inside(c: Case, j: nat, x: nat) {
    x in Nodes(Under(c.D0, j)) || exists m :: m in Nodes(Under(c.D0, j)) && Mentions(Kids(c.D0, m), x) > 0
  }

  /** The first two entries of a directory below stray `j`. */
  lemma StrayDots(c: Case, j: nat, m: nat)
    requires StrayReady(c, j) && AllHeaded(c.D0) && m in Nodes(Under(c.D0, j))
    ensures m in c.D0 && Headed(c.D0[m]) && c.D0[m][0][0].ino == m
    ensures if m == j then c.D0[m][0][1].ino == Stale(c, j) else c.D0[m][0][1].ino in Nodes(Under(c.D0, j))
  {
    hide Ends, TreeAt, Under;
    UnderKeys(c.D0, j);
    if m != j { DotsInside(c.D0, j, TreeAt(c.D0, j), m); }
  }

  /** What one directory below a stray names, lost+found apart. */
  lemma EntryNamesIff(c: Case, k: nat, j: nat, m: nat, x: nat)
    requires StrayReady(c, j) && AllHeaded(c.D0) && m in Nodes(Under(c.D0, j)) && x != c.lf
    ensures EntryNames(c, k, m, x) ==> Inside(c, j, x) || (m == j && !(j < k && Missing(c, j)) && x == Stale(c, j))
    ensures Mentions(Kids(c.D0, m), x) > 0 || m == x ==> EntryNames(c, k, m, x)
    ensures m == j && !(j < k && Missing(c, j)) && x == Stale(c, j) ==> EntryNames(c, k, m, x)
  {
    hide Missing, Under, Nodes, StrayReady, Headed, AllHeaded, Stale;
    StrayDots(c, j, m);
  }

  /** A walk from a stray names what is inside it and what its stale `..` names. */
  lemma WalkNamesIff(c: Case, k: nat, j: nat, x: nat)
    requires StrayReady(c, j) && AllHeaded(c.D0) && x != c.lf
    ensures WalkNames(c, k, j, x) <==> Inside(c, j, x) || (!(j < k && Missing(c, j)) && x == Stale(c, j))
  {
    hide Missing, Under, StrayReady, AllHeaded, Stale, EntryNames;
    StrayHere(c, j);
    UnderKeys(c.D0, j);
    forall m | m in Nodes(Under(c.D0, j))
      ensures EntryNames(c, k, m, x) ==> Inside(c, j, x) || (m == j && !(j < k && Missing(c, j)) && x == Stale(c, j))
      ensures Mentions(Kids(c.D0, m), x) > 0 || m == x ==> EntryNames(c, k, m, x)
      ensures m == j && !(j < k && Missing(c, j)) && x == Stale(c, j) ==> EntryNames(c, k, m, x)
    {
      EntryNamesIff(c, k, j, m, x);
    }
  }

  lemma StrayHere(c: Case, j: nat)
    requires StrayReady(c, j)
    ensures j in c.D0 && Ends(c.D0, j) && c.lf !in Nodes(Under(c.D0, j))
  {
  }

  /** Of directories, exactly those at or below `j` are inside it. */
  lemma DirInside(c: Case, j: nat, x: nat)
    requires StrayReady(c, j) && AllHeaded(c.D0) && Typed(c.D0, c.dirs, c.files) && x in c.dirs
    ensures Inside(c, j, x) <==> x in Nodes(Under(c.D0, j))
  {
    hide Ends, TreeAt, Under, Kids;
    UnderKeys(c.D0, j);
    forall m | m in Nodes(Under(c.D0, j)) && Mentions(Kids(c.D0, m), x) > 0
      ensures x in Nodes(Under(c.D0, j))
    {
      NamedDirIn(c.D0, Under(c.D0, j), m, x, c.dirs, c.files);
    }
  }

  lemma NamedDirIn(D: Dirs, f: Forest, m: nat, x: nat, dirs: set<nat>, files: set<nat>)
    requires Grown(D, f) && m in Nodes(f) && Mentions(Kids(D, m), x) > 0 && Typed(D, dirs, files) && x in dirs
    ensures x in Nodes(f)
  {
    NamesPositive(Kids(D, m), x);
    var e :| e in Kids(D, m) && e.ino == x;
    assert m in D;
    assert ListTyped(Kids(D, m), dirs, files);
    GrownClosed(D, f, m, e);
  }

  /** Of directories, the tree names exactly its own. */
  lemma TreeNamesIff(c: Case, x: nat)
    requires TreeReady(c)
    ensures x in Nodes(Whole(c.F0)) ==> Named(c.D0, c.F0, x)
    ensures x in c.dirs && Named(c.D0, c.F0, x) ==> x in Nodes(Whole(c.F0))
  {
    hide InRange;
    var D, W := c.D0, Whole(c.F0);
    if x in Nodes(W) { NodesCounted(D, c.F0, x); }
    if x in c.dirs && Named(D, c.F0, x) {
      RefsPositive(D, W, x);
      var m :| m in Nodes(W) && Mentions(All(D, m), x) > 0;
      NamesPositive(All(D, m), x);
      var e :| e in All(D, m) && e.ino == x;
      TreeNames(c, m, e);
    }
  }

  lemma TreeNames(c: Case, m: nat, e: Entry)
    requires TreeReady(c) && m in Nodes(Whole(c.F0)) && e in All(c.D0, m) && e.ino in c.dirs
    ensures e.ino in Nodes(Whole(c.F0))
  {
    hide InRange, Whole;
    var D, W := c.D0, Whole(c.F0);
    WholeNodes(c.F0, m);
    WholeNodes(c.F0, e.ino);
    UnfoldsKeys(D, Kids(D, ROOT_INO), c.F0);
    GrownWhole(D, c.F0);
    FlatHeads(D[m], e);
    if e in Kids(D, m) {
      assert ListTyped(Kids(D, m), c.dirs, c.files);
      GrownClosed(D, W, m, e);
    } else if m != ROOT_INO {
      DotsInside(D, ROOT_INO, c.F0, m);
      WholeNodes(c.F0, Stale(c, m));
    }
  }

  lemma LostFoundInTree(c: Case, x: nat)
    requires TreeReady(c) && x !in Nodes(Whole(c.F0))
    ensures x != c.lf && AllHeaded(c.D0) && Typed(c.D0, c.dirs, c.files)
  {
    WholeNodes(c.F0, x);
  }

  lemma OrderTree(c: Case)
    requires AnyOrder(c)
    ensures TreeReady(c)
  {
  }

  /** A live directory goes to lost+found exactly when it is not in the tree, and no
      earlier directory that went there itself has it below or in its stale `..`. */
  lemma DirectoryListedIff(c: Case, i: nat)
    requires AnyOrder(c) && i in c.live && i in c.dirs
    ensures Missing(c, i) <==>
            && i !in Nodes(Whole(c.F0))
            && forall j :: 1 <= j < i && ListedDir(c, j) ==> i !in Nodes(Under(c.D0, j)) && i != Stale(c, j)
  {
    hide *;
    AnyOrderRuns(c);
    OrderTree(c);
    TreeNamesIff(c, i);
    ListedIff(c, i);
    if i !in Nodes(Whole(c.F0)) {
      LostFoundInTree(c, i);
      forall j | 1 <= j < i && ListedDir(c, j)
        ensures WalkNames(c, j, j, i) <==> i in Nodes(Under(c.D0, j)) || i == Stale(c, j)
      {
        WalkNamesIff(c, j, j, i);
        DirInside(c, j, i);
      }
    }
  }

  /** A maximal stray: below no other stray. */
  ghost predicate Topmost(c: Case, i: nat) {
    Stray(c, i) && forall j: nat :: Stray(c, j) && j != i ==> i !in Nodes(Under(c.D0, j))
  }

  /** A maximal stray is missed exactly when the stale `..` of an earlier directory
      that went to lost+found names it. */
  lemma TopMissedIff(c: Case, i: nat)
    requires AnyOrder(c) && Topmost(c, i)
    ensures !Missing(c, i) <==> exists j :: 1 <= j < i && ListedDir(c, j) && i == Stale(c, j)
  {
    hide AnyOrder, Missing, ListedDir, Under, Nodes, StrayReady, Stale;
    AnyOrderRuns(c);
    DirectoryListedIff(c, i);
  }
}
