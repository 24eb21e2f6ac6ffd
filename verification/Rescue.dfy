/** Pass 2 on the decoded tree: which inodes are rescued, and what the tree is
  like afterwards. */
module Rescue {
  import opened DirBlock
  import opened Disk
  import opened Tree
  import opened Dots
  import opened Walk
  import opened Names
  import opened LostFound
  import opened Graft

  /** The fixed part of a run of pass2.  `live`: inodes whose allocation bit is set
      and whose link count is not zero; `dirs`: inodes whose mode says directory;
      `files`: the other inodes the tree may name;
      `D0`, `F0`, `O0`: the directories, the tree and the orphan trees at the start; `total`: how
      often each inode is named in the tree and the orphan trees together. */
  datatype Case = Case(live: set<nat>, dirs: set<nat>, files: set<nat>, n: nat, lf: nat,
                       D0: Dirs, F0: Forest, O0: Forest, total: seq<nat>)

  ghost function Whole(F: Forest): Forest { Dir(ROOT_INO, F, Nil) }

  /** Named by a directory entry of the tree below the root. */
  ghost predicate Named(D: Dirs, F: Forest, x: nat) {
    Refs(D, Whole(F), x) > 0
  }

  /** Entry types agree with inode modes, and what is no directory is a known file. */
  ghost predicate Typed(D: Dirs, dirs: set<nat>, files: set<nat>) {
    forall n :: n in D ==> ListTyped(Kids(D, n), dirs, files)
  }

  ghost predicate ListTyped(es: seq<Entry>, dirs: set<nat>, files: set<nat>) {
    forall k :: 0 <= k < |es| ==>
      (es[k].IsDir() <==> es[k].ino in dirs) && (es[k].IsDir() || es[k].ino in files)
  }

  function EntryFor(c: Case, k: nat): Entry { NewEntry(k, k in c.dirs) }

  /** What one rescue does to the directories: lost+found gains `e`, and if `e`
      names a directory its second entry names lost+found. */
  ghost predicate Moved(D: Dirs, E: Dirs, lf: nat, e: Entry) {
    && E.Keys == D.Keys && lf in D && lf != e.ino
    && (forall n :: n in D && n != lf && n != e.ino ==> E[n] == D[n])
    && Grew(All(D, lf), All(E, lf), e) && Grew(Kids(D, lf), Kids(E, lf), e)
    && SameHeads(D[lf], E[lf])
    && (e.ino in D ==> D[e.ino] != [] && |D[e.ino][0]| >= 2 && E[e.ino] == SetIno(D, e.ino, 1, lf)[e.ino])
  }

  ghost predicate SameHeads(a: seq<seq<Entry>>, b: seq<seq<Entry>>) {
    && |a| == |b| && |a| > 0 && |a[0]| >= 2 && |b[0]| >= 2
    && a[0][0].ino == b[0][0].ino && a[0][1].ino == b[0][1].ino
  }

  lemma RescuedMoves(D: Dirs, lf: nat, e: Entry)
    requires lf in D && AllHeaded(D) && Lands(D[lf], 0, e) && e.ino != lf
    requires e.ino in D ==> Rewritable(D[e.ino])
    ensures Moved(D, Rescued(D, lf, e.ino, 0, e), lf, e)
  {
    var bs := D[lf];
    assert Headed(bs);
    InsertedGrew(bs, 0, e);
    var cs := Inserted(bs, 0, e);
    assert bs[0][..2][0] == bs[0][0] && bs[0][..2][1] == bs[0][1] && cs[0][..2][0] == cs[0][0] &&
           cs[0][..2][1] == cs[0][1];
  }

  lemma MovedKids(D: Dirs, E: Dirs, lf: nat, e: Entry, n: nat)
    requires Moved(D, E, lf, e) && n != lf
    ensures Kids(E, n) == Kids(D, n)
    ensures n != e.ino ==> All(E, n) == All(D, n)
  {
    if n == e.ino && n in D {
      var v := SetIno(D, n, 1, lf);
      assert Drop(v[n][0], 2) == Drop(D[n][0], 2) && v[n][1..] == D[n][1..];
    }
  }

  /** Counting in a forest that holds lost+found but not the rescued inode. */
  lemma {:induction false} RefsGrew(D: Dirs, E: Dirs, lf: nat, e: Entry, f: Forest, x: nat)
    requires Moved(D, E, lf, e) && Distinct(f) && e.ino !in Nodes(f)
    ensures Refs(E, f, x) == Refs(D, f, x) + if lf in Nodes(f) && e.ino == x then 1 else 0
  {
    if f.Dir? {
      RefsGrew(D, E, lf, e, f.kids, x);
      RefsGrew(D, E, lf, e, f.rest, x);
      if f.ino == lf {
        NamesGrew(All(D, lf), All(E, lf), e, x);
      } else {
        MovedKids(D, E, lf, e, f.ino);
      }
    }
  }

  /** Counting in the rescued subtree: its stale `..` gives way to lost+found. */
  lemma SubtreeRefs(D: Dirs, E: Dirs, lf: nat, e: Entry, kids: Forest, x: nat)
    requires Moved(D, E, lf, e) && e.ino in D && e.IsDir()
    requires e.ino !in Nodes(kids) && lf !in Nodes(kids)
    ensures Refs(E, Brought(e, kids), x) + (if D[e.ino][0][1].ino == x then 1 else 0)
            == Refs(D, Brought(e, kids), x) + if lf == x then 1 else 0
  {
    var i := e.ino;
    forall n | n in Nodes(kids)
      ensures All(E, n) == All(D, n)
    {
      MovedKids(D, E, lf, e, n);
    }
    RefsFrame(D, E, kids, x);
    MentionsSet(D[i], lf, x);
    assert All(E, i) == Flat(E[i]);
  }

  lemma MentionsSet(bs: seq<seq<Entry>>, v: nat, x: nat)
    requires bs != [] && |bs[0]| >= 2
    ensures var cs := bs[0 := bs[0][1 := bs[0][1].(ino := v)]];
            Mentions(Flat(cs), x) + (if bs[0][1].ino == x then 1 else 0) ==
              Mentions(Flat(bs), x) + if v == x then 1 else 0
  {
    var es := bs[0];
    var fs := es[1 := es[1].(ino := v)];
    var cs := bs[0 := fs];
    assert cs[1..] == bs[1..];
    NamesCat(es, Flat(bs[1..]), x);
    NamesCat(fs, Flat(bs[1..]), x);
    assert fs[1..][1..] == es[1..][1..];
    assert fs[1..][0] == fs[1] && es[1..][0] == es[1];
  }

  /** The tree and the orphan trees: disjoint, headed, typed and in range, with
      right dots throughout but for the orphan tops' second entries. */
  ghost predicate Shape(c: Case, D: Dirs, F: Forest, O: Forest) {
    && ROOT_INO in D && c.lf in D && c.lf in Nodes(F)
    && Unfolds(D, Kids(D, ROOT_INO), F) && Grown(D, O) && Distinct(Dir(ROOT_INO, F, O))
    && AllHeaded(D) && InRange(D, c.n + 1) && Typed(D, c.dirs, c.files) && D.Keys <= c.dirs
    && DotsRight(D, ROOT_INO, F) && HeadRight(D[ROOT_INO], ROOT_INO, ROOT_INO)
    && OrphanDots(D, O)
  }

  /** Each orphan top names itself first, in a record of 12 bytes, and the
      directories below it have right dots. */
  ghost predicate OrphanDots(D: Dirs, O: Forest) {
    O.Nil? || (
      && O.ino in D && Rewritable(D[O.ino]) && D[O.ino][0][0].ino == O.ino
      && DotsRight(D, O.ino, O.kids)
      && OrphanDots(D, O.rest))
  }

  lemma {:induction false} OrphanDotsFrame(D: Dirs, E: Dirs, O: Forest)
    requires OrphanDots(D, O) && forall n :: n in Nodes(O) ==> n in D && n in E && E[n] == D[n]
    ensures OrphanDots(E, O)
  {
    if O.Dir? {
      DotsFrame(D, E, O.ino, O.kids);
      OrphanDotsFrame(D, E, O.rest);
    }
  }

  /** Dots survive a change that keeps the first two inodes of every node. */
  lemma {:induction false} DotsHeads(D: Dirs, E: Dirs, parent: nat, f: Forest)
    requires DotsRight(D, parent, f)
    requires forall n :: n in Nodes(f) ==> n in D && n in E && SameHeads(D[n], E[n])
    ensures DotsRight(E, parent, f)
    decreases f
  {
    if f.Dir? {
      DotsHeads(D, E, f.ino, f.kids);
      DotsHeads(D, E, parent, f.rest);
    }
  }

  lemma MovedHeaded(D: Dirs, E: Dirs, lf: nat, e: Entry)
    requires AllHeaded(D) && Moved(D, E, lf, e) && Headed(E[lf])
    ensures AllHeaded(E)
  {
    forall n | n in E
      ensures Headed(E[n])
    {
      assert Headed(D[n]);
      if n == e.ino {
        SetInoKeeps(D, n, 1, lf);
        assert Headed(SetIno(D, n, 1, lf)[n]);
      }
    }
  }

  lemma MovedTyped(D: Dirs, E: Dirs, lf: nat, e: Entry, dirs: set<nat>, files: set<nat>)
    requires Typed(D, dirs, files) && Moved(D, E, lf, e) && (e.IsDir() <==> e.ino in dirs) &&
             (e.IsDir() || e.ino in files)
    ensures Typed(E, dirs, files)
  {
    hide Kids, All, Grew, SameHeads;
    forall n | n in E
      ensures ListTyped(Kids(E, n), dirs, files)
    {
      assert ListTyped(Kids(D, n), dirs, files);
      if n == lf {
        GrewTyped(Kids(D, n), Kids(E, n), e, dirs, files);
      } else {
        MovedKids(D, E, lf, e, n);
      }
    }
  }

  lemma GrewTyped(a: seq<Entry>, b: seq<Entry>, e: Entry, dirs: set<nat>, files: set<nat>)
    requires Grew(a, b, e) && ListTyped(a, dirs, files) && (e.IsDir() <==> e.ino in dirs) &&
             (e.IsDir() || e.ino in files)
    ensures ListTyped(b, dirs, files)
  {
    var p: nat :| GrewAt(a, b, e, p);
    var w := a[..p] + [e] + a[p..];
    forall k | 0 <= k < |b|
      ensures (b[k].IsDir() <==> b[k].ino in dirs) && (b[k].IsDir() || b[k].ino in files)
    {
      assert b[k].ino == w[k].ino && b[k].fileType == w[k].fileType;
    }
  }

  /** The part of `O` a rescue consumes, and what it leaves. */
  ghost predicate Takes(c: Case, D: Dirs, O: Forest, e: Entry, kids: Forest, rest: Forest) {
    if e.IsDir() then O == Dir(e.ino, kids, rest) else rest == O && e.ino !in D
  }

  lemma DistinctParts(F: Forest, i: nat, kids: Forest, rest: Forest)
    requires Distinct(Dir(ROOT_INO, F, Dir(i, kids, rest)))
    ensures i != ROOT_INO && ROOT_INO !in Nodes(F) && ROOT_INO !in Nodes(kids) && ROOT_INO !in Nodes(rest)
    ensures i !in Nodes(F) && i !in Nodes(kids) && i !in Nodes(rest)
    ensures Nodes(F) !! Nodes(kids) && Nodes(F) !! Nodes(rest) && Nodes(kids) !! Nodes(rest)
    ensures Distinct(F) && Distinct(kids) && Distinct(rest)
  {
    var O := Dir(i, kids, rest);
    assert Nodes(O) == {i} + Nodes(kids) + Nodes(rest);
    assert Distinct(O);
  }

  lemma DistinctAfter(F: Forest, H: Forest, rest: Forest, added: set<nat>)
    requires ROOT_INO !in Nodes(F) && ROOT_INO !in Nodes(rest) && ROOT_INO !in added
    requires Distinct(H) && Distinct(rest) && Nodes(H) == Nodes(F) + added && Nodes(F) !! Nodes(rest) &&
             added !! Nodes(rest)
    ensures Distinct(Dir(ROOT_INO, H, rest))
  {
  }

  lemma BroughtNodes(e: Entry, kids: Forest)
    ensures Nodes(Brought(e, kids)) == if e.IsDir() then {e.ino} + Nodes(kids) else {}
    ensures Distinct(kids) && e.ino !in Nodes(kids) ==> Distinct(Brought(e, kids))
  {
    assert Nodes(Nil) == {} && Distinct(Nil);
  }

  /** Where the pieces of a rescue lie relative to each other. */
  ghost predicate Disjoint(c: Case, D: Dirs, F: Forest, e: Entry, kids: Forest, rest: Forest) {
    && e.ino !in Nodes(F) && e.ino != ROOT_INO && ROOT_INO !in Nodes(F) && ROOT_INO !in Nodes(rest) && c.lf in Nodes(F)
    && e.ino !in Nodes(rest) && Nodes(F) !! Nodes(rest) && Distinct(F) && Distinct(rest)
    && Nodes(F) <= D.Keys && Nodes(rest) <= D.Keys
    && (e.IsDir() ==> e.ino in D && e.ino !in Nodes(kids) && Nodes(kids) !! Nodes(F) && Nodes(kids) !! Nodes(rest)
                      && ROOT_INO !in Nodes(kids) && Distinct(kids) && Nodes(kids) <= D.Keys)
  }

  lemma Disjointness(c: Case, D: Dirs, F: Forest, O: Forest, e: Entry, kids: Forest, rest: Forest)
    requires Unfolds(D, Kids(D, ROOT_INO), F) && Grown(D, O) && Distinct(Dir(ROOT_INO, F, O)) && c.lf in Nodes(F)
    requires ROOT_INO in D && Takes(c, D, O, e, kids, rest)
    ensures Disjoint(c, D, F, e, kids, rest)
  {
    UnfoldsKeys(D, Kids(D, ROOT_INO), F);
    GrownKeys(D, O);
    if e.IsDir() {
      DistinctParts(F, e.ino, kids, rest);
      UnfoldsKeys(D, Kids(D, e.ino), kids);
      GrownKeys(D, rest);
    }
  }

  /** The orphan subtree, after it has been moved. */
  lemma SubtreeReady(D: Dirs, E: Dirs, lf: nat, e: Entry, kids: Forest)
    requires Moved(D, E, lf, e) && e.IsDir() && e.ino in D && e.ino !in Nodes(kids) && lf !in Nodes(kids)
    requires Nodes(kids) <= D.Keys && Unfolds(D, Kids(D, e.ino), kids) && DotsRight(D, e.ino, kids)
    requires D[e.ino][0][0].ino == e.ino
    ensures Ready(E, e, kids) && DotsRight(E, lf, Brought(e, kids))
  {
    var i := e.ino;
    forall n | n in Nodes(kids)
      ensures n in E && E[n] == D[n]
    {
    }
    MovedKids(D, E, lf, e, i);
    UnfoldsFrame(D, E, Kids(D, i), kids);
    DotsFrame(D, E, i, kids);
    assert DotsRight(E, lf, Nil);
    assert HeadRight(E[i], i, lf);
  }

  /** The orphan trees that are left. */
  lemma OthersKept(D: Dirs, E: Dirs, lf: nat, e: Entry, rest: Forest)
    requires Moved(D, E, lf, e) && e.ino !in Nodes(rest) && lf !in Nodes(rest) && Nodes(rest) <= D.Keys
    requires Grown(D, rest) && OrphanDots(D, rest)
    ensures Grown(E, rest) && OrphanDots(E, rest)
    ensures forall x :: Refs(E, rest, x) == Refs(D, rest, x)
  {
    forall n | n in Nodes(rest)
      ensures n in D && n in E && E[n] == D[n]
    {
    }
    GrownFrame(D, E, rest);
    OrphanDotsFrame(D, E, rest);
    forall x
      ensures Refs(E, rest, x) == Refs(D, rest, x)
    {
      RefsFrame(D, E, rest, x);
    }
  }

  /** The tree that holds lost+found, dots included. */
  lemma TreeKept(D: Dirs, E: Dirs, lf: nat, e: Entry, F: Forest)
    requires Moved(D, E, lf, e) && e.ino !in Nodes(F) && Nodes(F) <= D.Keys && AllHeaded(D)
    requires DotsRight(D, ROOT_INO, F)
    ensures DotsRight(E, ROOT_INO, F)
    ensures forall n :: n in Nodes(F) ==> n in E && (n != lf ==> Kids(E, n) == Kids(D, n))
  {
    forall n | n in Nodes(F)
      ensures n in D && n in E && SameHeads(D[n], E[n]) && (n != lf ==> Kids(E, n) == Kids(D, n))
    {
      assert Headed(D[n]);
      if n != lf { MovedKids(D, E, lf, e, n); }
    }
    DotsHeads(D, E, ROOT_INO, F);
  }

  /** How a rescue changes what the tree counts. */
  ghost predicate Recounted(D: Dirs, E: Dirs, F: Forest, H: Forest, e: Entry, kids: Forest) {
    forall x :: Refs(E, Whole(H), x)
                == Refs(D, Whole(F), x) + (if e.ino == x then 1 else 0) + Refs(E, Brought(e, kids), x)
  }

  lemma Recount(D: Dirs, E: Dirs, lf: nat, e: Entry, F: Forest, H: Forest, kids: Forest)
    requires Moved(D, E, lf, e) && Distinct(F) && e.ino !in Nodes(F) && lf in Nodes(F)
    requires All(E, ROOT_INO) == All(D, ROOT_INO) && Grafted(E, ROOT_INO, F, Brought(e, kids), lf, H)
    ensures Recounted(D, E, F, H, e, kids)
  {
    forall x
      ensures Refs(E, Whole(H), x)
              == Refs(D, Whole(F), x) + (if e.ino == x then 1 else 0) + Refs(E, Brought(e, kids), x)
    {
      RefsGrew(D, E, lf, e, F, x);
      assert Refs(E, Whole(H), x) == Mentions(All(E, ROOT_INO), x) + Refs(E, H, x) + Refs(E, Nil, x);
      assert Refs(D, Whole(F), x) == Mentions(All(D, ROOT_INO), x) + Refs(D, F, x) + Refs(D, Nil, x);
    }
  }

  /** One rescue: the tree takes in the whole orphan subtree below lost+found and
      everything Shape says holds again. */
  lemma RescueStep(c: Case, D: Dirs, E: Dirs, F: Forest, O: Forest, e: Entry, kids: Forest, rest: Forest)
    returns (H: Forest)
    requires Shape(c, D, F, O) && Takes(c, D, O, e, kids, rest) && Moved(D, E, c.lf, e)
    requires AllHeaded(E) && InRange(E, c.n + 1) && (e.IsDir() <==> e.ino in c.dirs) && (e.IsDir() || e.ino in c.files)
    ensures Shape(c, E, H, rest) && Recounted(D, E, F, H, e, kids)
    ensures Nodes(H) == Nodes(F) + Nodes(Brought(e, kids))
  {
    hide Distinct, Unfolds, Refs, Typed, AllHeaded, InRange, DotsRight, Moved, Nodes, Kids, Grafted;
    Disjointness(c, D, F, O, e, kids, rest);
    BroughtNodes(e, kids);
    RootKept(D, E, c.lf, e);
    TreeKept(D, E, c.lf, e, F);
    OthersKept(D, E, c.lf, e, rest);
    if e.IsDir() { SubtreeReady(D, E, c.lf, e, kids); }
    H := AttachRoot(D, E, c.lf, e, F, kids);
    MovedTyped(D, E, c.lf, e, c.dirs, c.files);
    DistinctAfter(F, H, rest, Nodes(Brought(e, kids)));
    Recount(D, E, c.lf, e, F, H, kids);
  }

  lemma RootKept(D: Dirs, E: Dirs, lf: nat, e: Entry)
    requires Moved(D, E, lf, e) && e.ino != ROOT_INO && lf != ROOT_INO && ROOT_INO in D
    ensures ROOT_INO in E && E[ROOT_INO] == D[ROOT_INO] && All(E, ROOT_INO) == All(D, ROOT_INO) &&
            Kids(E, ROOT_INO) == Kids(D, ROOT_INO)
    ensures E.Keys == D.Keys
  {
  }

  lemma AttachRoot(D: Dirs, E: Dirs, lf: nat, e: Entry, F: Forest, kids: Forest) returns (H: Forest)
    requires Moved(D, E, lf, e) && Unfolds(D, Kids(D, ROOT_INO), F) && Kids(E, ROOT_INO) == Kids(D, ROOT_INO)
    requires Distinct(F) && lf in Nodes(F) && (e.IsDir() ==> Ready(E, e, kids))
    requires forall n :: n in Nodes(F) ==> n in E && (n != lf ==> Kids(E, n) == Kids(D, n))
    requires DotsRight(E, ROOT_INO, F) && (e.IsDir() ==> DotsRight(E, lf, Brought(e, kids)))
    requires Distinct(Brought(e, kids)) && Nodes(F) !! Nodes(Brought(e, kids))
    ensures Unfolds(E, Kids(E, ROOT_INO), H) && Grafted(E, ROOT_INO, F, Brought(e, kids), lf, H)
    ensures Nodes(H) == Nodes(F) + Nodes(Brought(e, kids)) && Distinct(H) && DotsRight(E, ROOT_INO, H)
  {
    H := Attach(D, E, ROOT_INO, Kids(D, ROOT_INO), F, lf, e, kids);
  }
}
