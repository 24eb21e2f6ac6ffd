/** What a reader of the repaired disk finds: link counts and lost+found. */
module Aftermath {
  import opened Disk
  import opened Inode
  import opened Tree
  import opened Dots
  import opened Walk
  import opened Rescue
  import opened Rounds
  import opened Orphans
  import opened Pass2
  import opened LinkCounts
  import opened Topmost
  import opened Fsck

  /** The link counts stored for inodes 1 to `k`. */
  ghost function SumLinks(g: Geometry, img: Image, k: nat): (n: nat)
    requires Tables(g, |img|) && k <= g.inodesCount
  {
    if k == 0 then 0 else SumLinks(g, img, k - 1) + InodeAt(g, img, k).links
  }

  lemma {:induction false} SumLinksIs(g: Geometry, img: Image, E: Dirs, H: Forest, k: nat)
    requires Tables(g, |img|) && k <= g.inodesCount && Linked(g, img, E, H)
    ensures SumRefs(E, Whole(H), k + 1) == SumLinks(g, img, k) + Refs(E, Whole(H), 0)
  {
    hide InodeAt, Tables, Refs, Whole;
    if k > 0 {
      SumLinksIs(g, img, E, H, k - 1);
    } else {
      assert SumRefs(E, Whole(H), 0) == 0;
    }
  }

  lemma {:induction false} NobodyNamesZero(D: Dirs, f: Forest, limit: nat)
    requires InRange(D, limit)
    ensures Refs(D, f, 0) == 0
  {
    if f.Dir? {
      if f.ino in D {
        FlatInRange(D[f.ino], limit);
        NamesPositive(All(D, f.ino), 0);
      }
      NobodyNamesZero(D, f.kids, limit);
      NobodyNamesZero(D, f.rest, limit);
    }
  }

  /** Every directory's link count is two more than its number of subdirectories,
      every other inode's is its number of names (0 if it has none), and all link
      counts together are the number of entries in the tree. */
  ghost predicate CountsRight(g: Geometry, img: Image, E: Dirs, H: Forest)
    requires Tables(g, |img|)
  {
    && (forall x :: x in Nodes(Whole(H)) ==> g.HasInode(x) && InodeAt(g, img, x).links == 2 + Subdirs(Kids(E, x)))
    && (forall x :: g.HasInode(x) && x !in Nodes(Whole(H)) ==> InodeAt(g, img, x).links == NamesBelow(E, Whole(H), x))
    && SumLinks(g, img, g.inodesCount) == Entries(E, Whole(H))
  }

  /** The link counts of the repaired disk. */
  lemma FinalLinkCounts(g: Geometry, a: Image, b: Image, w: Setup, E: Dirs, H: Forest)
    requires Geometric(g, |b|) && Repaired(g, a, b, w, E, H)
    ensures Tables(g, |b|) && CountsRight(g, b, E, H)
  {
    hide *;
    RepairedParts(g, a, b, w, E, H);
    var c := CaseFor(g, a, w);
    ShapeTree(c, E, H);
    InodeNumbers(g, b, w.P, E);
    TreeCounts(g, b, E, H, c.dirs, c.files);
  }

  lemma TreeCounts(g: Geometry, b: Image, E: Dirs, H: Forest, dirs: set<nat>, files: set<nat>)
    requires Tables(g, |b|) && Linked(g, b, E, H) && (forall n :: n in E ==> 1 <= n <= g.inodesCount)
    requires ROOT_INO in E && Unfolds(E, Kids(E, ROOT_INO), H) && Distinct(Whole(H)) && DotsRight(E, ROOT_INO, Whole(H))
    requires AllHeaded(E) && InRange(E, g.inodesCount + 1) && Typed(E, dirs, files) && E.Keys <= dirs
    ensures CountsRight(g, b, E, H)
  {
    hide Tables, Linked, Unfolds, Distinct, DotsRight, AllHeaded, InRange, Typed, InodeAt, Kids, Refs, NamesBelow,
         SumLinks, SumRefs, Entries, Nodes, Whole, Subdirs;
    forall x | x in Nodes(Whole(H))
      ensures g.HasInode(x) && InodeAt(g, b, x).links == 2 + Subdirs(Kids(E, x))
    {
      NodeHasInode(g, E, H, x);
      DirectoryLinks(E, H, dirs, files, x);
      LinkedAt(g, b, E, H, x);
    }
    forall x | g.HasInode(x) && x !in Nodes(Whole(H))
      ensures InodeAt(g, b, x).links == NamesBelow(E, Whole(H), x)
    {
      FileLinks(E, H, x);
      LinkedAt(g, b, E, H, x);
    }
    SumLinksIs(g, b, E, H, g.inodesCount);
    NobodyNamesZero(E, Whole(H), g.inodesCount + 1);
    CountsAddUp(E, Whole(H), g.inodesCount + 1);
  }

  lemma LinkedAt(g: Geometry, img: Image, E: Dirs, H: Forest, x: nat)
    requires Tables(g, |img|) && Linked(g, img, E, H) && g.HasInode(x)
    ensures InodeAt(g, img, x).links == Refs(E, Whole(H), x)
  {
    hide InodeAt, Tables, Refs;
  }

  lemma NodeHasInode(g: Geometry, E: Dirs, H: Forest, x: nat)
    requires (forall n :: n in E ==> 1 <= n <= g.inodesCount) && ROOT_INO in E && Unfolds(E, Kids(E, ROOT_INO), H)
    requires x in Nodes(Whole(H))
    ensures g.HasInode(x)
  {
    UnfoldsKeys(E, Kids(E, ROOT_INO), H);
    WholeNodes(H, x);
  }

  /** lost+found holds what it held before and one entry for each rescued inode; a
      live directory is rescued exactly when it is the top of an orphan tree, another
      live inode exactly when nothing in the tree or in an orphan tree with a smaller
      top names it. */
  ghost predicate RescuesRight(c: Case, w: Setup, E: Dirs) {
    && multiset(KeyList(All(E, w.lf))) == multiset(KeyList(All(Dotted(w), w.lf))) + multiset(NewKeys(c, ToRescue(c, 1)))
    && (forall i :: i in c.live && i in c.dirs ==> (i in ToRescue(c, 1) <==> i in Tops(w.O)))
    && (forall i :: 1 <= i <= c.n ==> (i in ToRescue(c, 1) <==> i in c.live && Unnamed(Dotted(w), w.F, w.O, i)))
  }

  /** lost+found on the repaired disk. */
  lemma FinalLostFound(g: Geometry, a: Image, b: Image, w: Setup, E: Dirs, H: Forest)
    requires Geometric(g, |b|) && Repaired(g, a, b, w, E, H)
    ensures Tables(g, |a|) && InodeMaps(g, |a|) && RescuesRight(CaseFor(g, a, w), w, E)
  {
    hide *;
    RepairedParts(g, a, b, w, E, H);
    var c := CaseFor(g, a, w);
    ModestCase(g, a, w);
    ReadyAfter(c, g, a, w);
    LiveNumbers(g, a, w);
    CaseDirs(g, a, w);
    LostFoundGains(c, E, H);
    forall i | i in c.live && i in c.dirs
      ensures i in ToRescue(c, 1) <==> i in Tops(w.O)
    {
      DirectoryRescuedIffTop(c, i);
    }
    forall i | 1 <= i <= c.n
      ensures i in ToRescue(c, 1) <==> i in c.live && Unnamed(Dotted(w), w.F, w.O, i)
    {
      RescuedIff(c, i);
    }
    MakeRescues(c, w, E);
  }

  lemma MakeRescues(c: Case, w: Setup, E: Dirs)
    requires multiset(KeyList(All(E, w.lf))) ==
             multiset(KeyList(All(Dotted(w), w.lf))) + multiset(NewKeys(c, ToRescue(c, 1)))
    requires forall i :: i in c.live && i in c.dirs ==> (i in ToRescue(c, 1) <==> i in Tops(w.O))
    requires forall i :: 1 <= i <= c.n ==> (i in ToRescue(c, 1) <==> i in c.live && Unnamed(Dotted(w), w.F, w.O, i))
    ensures RescuesRight(c, w, E)
  {
  }

  lemma LiveNumbers(g: Geometry, a: Image, w: Setup)
    requires Tables(g, |a|) && InodeMaps(g, |a|)
    ensures CaseFor(g, a, w).lf == w.lf && forall i :: i in CaseFor(g, a, w).live ==> 1 <= i <= CaseFor(g, a, w).n
  {
    hide Tables, InodeMaps, Refs, Dotted, InodeAt;
  }
}
