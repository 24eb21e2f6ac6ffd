/** The loop of pass2 over all inodes, on the decoded tree. */
module Orphans {
  import opened DirBlock
  import opened Disk
  import opened Tree
  import opened Dots
  import opened Walk
  import opened LostFound
  import opened Graft
  import opened Rescue
  import opened Rounds
  import opened Acyclic

  /** Orphan tops in the order the loop meets them, from `lo` on, each smaller than
      every live directory below it. */
  ghost predicate Sorted(O: Forest, lo: nat, live: set<nat>) {
    O.Nil? || (
      && lo <= O.ino && (forall m :: m in Nodes(O.kids) && m in live ==> m > O.ino)
      && Sorted(O.rest, O.ino + 1, live))
  }

  ghost predicate TopsLive(O: Forest, live: set<nat>) {
    O.Nil? || (O.ino in live && TopsLive(O.rest, live))
  }

  /** The orphan trees whose tops are at least `k`. */
  ghost function Later(O: Forest, k: nat): Forest {
    if O.Nil? || O.ino >= k then O else Later(O.rest, k)
  }

  /** An orphan top's stale `..` names nothing live that the loop is still to come to,
      unless the tree names it anyway. */
  ghost predicate StaleHarmless(D: Dirs, F: Forest, O: Forest, live: set<nat>) {
    O.Nil? || (
      && O.ino in D && Rewritable(D[O.ino])
      && Harmless(D, F, live, O.ino, D[O.ino][0][1].ino)
      && StaleHarmless(D, F, O.rest, live))
  }

  ghost predicate Harmless(D: Dirs, F: Forest, live: set<nat>, top: nat, stale: nat) {
    stale <= top || stale !in live || Named(D, F, stale)
  }

  ghost predicate Tally(c: Case, D: Dirs, O: Forest, cnt: seq<nat>) {
    |cnt| == |c.total| == c.n + 1
    && forall x :: 0 <= x <= c.n ==> cnt[x] + Refs(D, O, x) == c.total[x] < 256
  }

  /** Every live inode counted so far stands in the tree, unless the loop has passed it. */
  ghost predicate Accounted(c: Case, i: nat, D: Dirs, F: Forest, cnt: seq<nat>) {
    && |cnt| == c.n + 1
    && (forall x :: x in c.live && x < i ==> Named(D, F, x))
    && (forall x :: x in c.live && i <= x <= c.n && cnt[x] > 0 ==> Named(D, F, x))
    && (forall m :: m in Nodes(Whole(F)) ==> m <= c.n && cnt[m] > 0)
  }

  ghost function TopCount(O: Forest): nat { if O.Nil? then 0 else 1 + TopCount(O.rest) }

  /** How far the tree's own counts can have outgrown the counter: one new entry
      per inode rescued, and one `..` to lost+found per orphan tree moved. */
  ghost predicate Bounded(c: Case, i: nat, D: Dirs, F: Forest, O: Forest, cnt: seq<nat>) {
    && |cnt| == c.n + 1 && TopCount(O) <= TopCount(c.O0)
    && forall x :: 0 <= x <= c.n ==>
         Refs(D, Whole(F), x) <= cnt[x] + (if x < i && Missing(c, x) then 1 else 0) +
           (if x == c.lf then TopCount(c.O0) - TopCount(O) else 0)
  }

  ghost predicate Covered(c: Case, i: nat, F: Forest, O: Forest) {
    forall x :: x in c.live && x in c.dirs && i <= x ==> x in Nodes(Whole(F)) || x in Nodes(O)
  }

  /** What differs from the start. */
  ghost predicate Since(c: Case, D: Dirs, O: Forest) {
    && D.Keys == c.D0.Keys && (forall n :: n in D ==> 1 <= n <= c.n)
    && (forall n :: n in Nodes(O) ==> n in D && D[n] == c.D0[n])
    && (forall n :: n != c.lf ==> Kids(D, n) == Kids(c.D0, n))
    && ROOT_INO in D && D[ROOT_INO] == c.D0[ROOT_INO]
  }

  ghost predicate Progress(c: Case, i: nat, D: Dirs, F: Forest, O: Forest, cnt: seq<nat>) {
    && Shape(c, D, F, O) && 1 <= i && RoundAt(c, i) == Round(D, cnt)
    && Sorted(O, i, c.live) && TopsLive(O, c.live) && O == Later(c.O0, i) && StaleHarmless(D, F, O, c.live)
    && Tally(c, D, O, cnt) && Accounted(c, i, D, F, cnt) && Covered(c, i, F, O) && Since(c, D, O)
    && Bounded(c, i, D, F, O, cnt)
    && c.lf in c.D0
    && HasRoom(c, D[c.lf], ToRescue(c, i))
    && InsertAll(c, D[c.lf], ToRescue(c, i)) == InsertAll(c, c.D0[c.lf], ToRescue(c, 1))
  }

  lemma {:induction false} SortedNode(O: Forest, lo: nat, live: set<nat>, m: nat)
    requires Sorted(O, lo, live) && m in Nodes(O) && (m in live || m == O.ino)
    ensures m >= lo && (m != O.ino ==> m > lo)
  {
    if m in Nodes(O.rest) && m != O.ino { SortedNode(O.rest, O.ino + 1, live, m); }
  }

  lemma {:induction false} LaterStep(O: Forest, i: nat)
    ensures var R := Later(O, i);
            Later(R, i + 1) == Later(O, i + 1)
  {
    if O.Dir? && O.ino < i { LaterStep(O.rest, i); }
  }

  lemma LaterNext(c: Case, i: nat, O: Forest)
    requires O == Later(c.O0, i) && Sorted(O, i, c.live)
    ensures Later(c.O0, i + 1) == if O.Dir? && O.ino == i then O.rest else O
    ensures !(O.Dir? && O.ino == i) ==> Sorted(O, i + 1, c.live)
    ensures O.Dir? && O.ino == i ==> Sorted(O.rest, i + 1, c.live)
  {
    LaterStep(c.O0, i);
    if O.Dir? && O.ino == i {
      if O.rest.Dir? { assert O.rest.ino >= i + 1; }
    }
  }

  /** The first two entries of a node of the tree name nodes of the tree. */
  lemma {:induction false} DotsInside(D: Dirs, p: nat, f: Forest, m: nat)
    requires DotsRight(D, p, f) && m in Nodes(f)
    ensures m in D && |D[m]| > 0 && |D[m][0]| >= 2
    ensures D[m][0][0].ino == m && (D[m][0][1].ino == p || D[m][0][1].ino in Nodes(f))
    decreases f
  {
    if m != f.ino {
      if m in Nodes(f.kids) { DotsInside(D, f.ino, f.kids, m); } else { DotsInside(D, p, f.rest, m); }
    }
  }

  lemma FlatHeads(bs: seq<seq<Entry>>, e: Entry)
    requires |bs| > 0 && |bs[0]| >= 2 && e in Flat(bs)
    ensures e == bs[0][0] || e == bs[0][1] || e in Below(bs)
  {
    var es := bs[0];
    if e in es {
      var k :| 0 <= k < |es| && es[k] == e;
      if k >= 2 { assert Drop(es, 2)[k - 2] == e; }
    }
  }

  /** An orphan top is named nowhere in the tree. */
  lemma TopUnnamed(c: Case, D: Dirs, F: Forest, O: Forest)
    requires Shape(c, D, F, O) && O.Dir?
    ensures !Named(D, F, O.ino)
  {
    var x := O.ino;
    DistinctParts(F, x, O.kids, O.rest);
    var W := Whole(F);
    assert Nodes(W) == {ROOT_INO} + Nodes(F) + Nodes(Nil);
    if Named(D, F, x) {
      RefsPositive(D, W, x);
      var m :| m in Nodes(W) && Mentions(All(D, m), x) > 0;
      NamesPositive(All(D, m), x);
      var e :| e in All(D, m) && e.ino == x;
      NotATop(c, D, F, O, m, e);
    }
  }

  lemma NotATop(c: Case, D: Dirs, F: Forest, O: Forest, m: nat, e: Entry)
    requires Shape(c, D, F, O) && O.Dir? && m in Nodes(Whole(F)) && e in All(D, m)
    ensures e.ino != O.ino
  {
    var x := O.ino;
    DistinctParts(F, x, O.kids, O.rest);
    var W := Whole(F);
    assert Nodes(W) == {ROOT_INO} + Nodes(F) + Nodes(Nil);
    UnfoldsKeys(D, Kids(D, ROOT_INO), F);
    assert Headed(D[m]);
    FlatHeads(D[m], e);
    if e in Kids(D, m) {
      assert ListTyped(Kids(D, m), c.dirs, c.files);
      if e.ino == x {
        assert x in D;
        GrownWhole(D, F);
        GrownClosed(D, W, m, e);
      }
    } else if m != ROOT_INO {
      DotsInside(D, ROOT_INO, F, m);
    }
  }

  lemma GrownWhole(D: Dirs, F: Forest)
    requires ROOT_INO in D && Unfolds(D, Kids(D, ROOT_INO), F)
    ensures Grown(D, Whole(F))
  {
    assert Grown(D, Nil);
  }

  /** The counter reads zero exactly when nothing has been counted: no counter has wrapped. */
  lemma TestIsMissing(c: Case, i: nat, D: Dirs, F: Forest, O: Forest, cnt: seq<nat>)
    requires Progress(c, i, D, F, O, cnt) && i <= c.n
    ensures Missing(c, i) <==> i in c.live && cnt[i] == 0
    ensures ToRescue(c, i) == if Missing(c, i) then [i] + ToRescue(c, i + 1) else ToRescue(c, i + 1)
  {
    hide Shape, StaleHarmless, Since, HasRoom, InsertAll, Named, Accounted, Covered, Sorted, Bounded, RoundAt;
    assert cnt[i] < 256;
  }

  /** An inode that is not missing is no orphan top, so the loop may pass it. */
  lemma SkipStep(c: Case, i: nat, D: Dirs, F: Forest, O: Forest, cnt: seq<nat>)
    requires Progress(c, i, D, F, O, cnt) && i <= c.n && !Missing(c, i)
    ensures Progress(c, i + 1, D, F, O, cnt)
  {
    hide Shape, StaleHarmless, Since, HasRoom, InsertAll, Tally, ToRescue, Missing, Named;
    TestIsMissing(c, i, D, F, O, cnt);
    if O.Dir? && O.ino == i { TopUnnamed(c, D, F, O); }
    LaterNext(c, i, O);
    RoundSkips(c, i);
    hide RoundAt;
  }

  /** A live directory that nothing counted so far names is the next orphan top. */
  lemma MissingDirIsTop(c: Case, i: nat, D: Dirs, F: Forest, O: Forest, cnt: seq<nat>)
    requires Progress(c, i, D, F, O, cnt) && i <= c.n && Missing(c, i) && i in c.dirs
    ensures O.Dir? && O.ino == i && i in D && Rewritable(D[i]) && Unfolds(D, Kids(D, i), O.kids)
  {
    TestIsMissing(c, i, D, F, O, cnt);
    assert i in Nodes(O);
    SortedNode(O, i, c.live, i);
  }

  lemma {:induction false} NodeMentioned(D: Dirs, es: seq<Entry>, f: Forest, m: nat)
    requires Unfolds(D, es, f) && m in Nodes(f)
    ensures Mentions(es, m) > 0 || Refs(D, f, m) > 0
    decreases f, |es|
  {
    if es[0].IsDir() {
      if m in Nodes(f.kids) {
        NodeMentioned(D, Kids(D, f.ino), f.kids, m);
        KidsMentioned(D, f.ino, m);
      } else if m != f.ino {
        NodeMentioned(D, es[1..], f.rest, m);
      }
    } else {
      NodeMentioned(D, es[1..], f, m);
    }
  }

  lemma KidsMentioned(D: Dirs, n: nat, m: nat)
    ensures Mentions(Kids(D, n), m) <= Mentions(All(D, n), m)
  {
    if n in D && D[n] != [] {
      var es := D[n][0];
      if |es| > 2 {
        assert es == es[..2] + es[2..];
        NamesCat(es[..2], es[2..], m);
      }
      NamesCat(es, Flat(D[n][1..]), m);
      NamesCat(Drop(es, 2), Flat(D[n][1..]), m);
    }
  }

  /** Walking an orphan tree counts each of its directories. */
  lemma BroughtMentioned(D: Dirs, e: Entry, kids: Forest, m: nat)
    requires e.IsDir() && e.ino in D && D[e.ino] != [] && D[e.ino][0] != [] && D[e.ino][0][0].ino == e.ino
    requires Unfolds(D, Kids(D, e.ino), kids) && m in Nodes(Brought(e, kids))
    ensures Refs(D, Brought(e, kids), m) > 0
  {
    var i := e.ino;
    assert Nodes(Brought(e, kids)) == {i} + Nodes(kids) + Nodes(Nil);
    assert Refs(D, Brought(e, kids), m) == Mentions(All(D, i), m) + Refs(D, kids, m) + Refs(D, Nil, m);
    if m == i {
      assert All(D, i)[0] == D[i][0][0];
    } else {
      NodeMentioned(D, Kids(D, i), kids, m);
      KidsMentioned(D, i, m);
    }
  }

  /** The counter after the loop has walked the orphan tree, if there is one. */
  ghost predicate Counted(c: Case, D: Dirs, e: Entry, kids: Forest, cnt: seq<nat>, cnt': seq<nat>) {
    |cnt'| == |cnt| && forall x :: 0 <= x < |cnt| ==> cnt'[x] == cnt[x] + Refs(D, Brought(e, kids), x)
  }

  lemma RescuedInRange(D: Dirs, lf: nat, e: Entry, limit: nat)
    requires InRange(D, limit) && lf in D && Lands(D[lf], 0, e) && 0 < e.ino < limit && 0 < lf < limit && e.ino != lf
    requires e.ino in D ==> Rewritable(D[e.ino])
    ensures InRange(Rescued(D, lf, e.ino, 0, e), limit)
  {
    var E := Rescued(D, lf, e.ino, 0, e);
    var j := Slot(D[lf], 0, 0, e);
    forall n, i | n in E && 0 <= i < |E[n]|
      ensures ListInRange(E[n][i], limit)
    {
      assert ListInRange(D[n][i], limit);
      if n == lf && i == j { SpliceInRange(D[lf][j], e, limit); }
    }
  }

  lemma SpliceInRange(es: seq<Entry>, e: Entry, limit: nat)
    requires Spliceable(es) && ListInRange(es, limit) && 0 < e.ino < limit
    ensures ListInRange(Splice(es, e), limit)
  {
  }

  lemma {:induction false} StaleStays(D: Dirs, E: Dirs, F: Forest, H: Forest, O: Forest, live: set<nat>)
    requires StaleHarmless(D, F, O, live)
    requires forall n :: n in Nodes(O) && n in D ==> n in E && E[n] == D[n]
    requires forall x :: Named(D, F, x) ==> Named(E, H, x)
    ensures StaleHarmless(E, H, O, live)
  {
    if O.Dir? { StaleStays(D, E, F, H, O.rest, live); }
  }

  /** What the tree names after a rescue: everything it named before, the rescued
      inode, and everything counted in the rescued subtree but the stale `..`. */
  lemma NamedAfter(c: Case, D: Dirs, E: Dirs, F: Forest, H: Forest, e: Entry, kids: Forest)
    requires Recounted(D, E, F, H, e, kids) && Moved(D, E, c.lf, e)
    requires e.IsDir() ==> e.ino in D && e.ino !in Nodes(kids) && c.lf !in Nodes(kids)
    ensures Named(E, H, e.ino)
    ensures forall x :: Named(D, F, x) ==> Named(E, H, x)
    ensures forall x :: Refs(D, Brought(e, kids), x) > 0 && !(e.IsDir() && D[e.ino][0][1].ino == x) ==> Named(E, H, x)
  {
    forall x
      ensures Named(D, F, x) || e.ino == x ==> Named(E, H, x)
      ensures Refs(D, Brought(e, kids), x) > 0 && !(e.IsDir() && D[e.ino][0][1].ino == x) ==> Named(E, H, x)
    {
      if e.IsDir() {
        SubtreeRefs(D, E, c.lf, e, kids, x);
      } else {
        assert Refs(D, Nil, x) == 0;
      }
    }
  }

  lemma AccountedAfter(c: Case, i: nat, D: Dirs, E: Dirs, F: Forest, H: Forest, e: Entry, kids: Forest, stale: nat,
                       cnt: seq<nat>, cnt': seq<nat>)
    requires Accounted(c, i, D, F, cnt) && Counted(c, D, e, kids, cnt, cnt') && e.ino == i
    requires e.IsDir() ==> Harmless(D, F, c.live, i, stale)
    requires Named(E, H, i) && forall x :: Named(D, F, x) ==> Named(E, H, x)
    requires forall x :: Refs(D, Brought(e, kids), x) > 0 && !(e.IsDir() && stale == x) ==> Named(E, H, x)
    requires Nodes(H) == Nodes(F) + Nodes(Brought(e, kids))
    requires forall m :: m in Nodes(Brought(e, kids)) ==> m <= c.n && Refs(D, Brought(e, kids), m) > 0
    ensures Accounted(c, i + 1, E, H, cnt')
  {
    hide Named, Refs, Brought, Nodes, Whole;
    forall x | x in c.live && x < i + 1
      ensures Named(E, H, x)
    {
      if x < i { assert Named(D, F, x); }
    }
    forall x | x in c.live && i + 1 <= x <= c.n && cnt'[x] > 0
      ensures Named(E, H, x)
    {
      if cnt[x] == 0 { assert Refs(D, Brought(e, kids), x) > 0; }
    }
    forall m | m in Nodes(Whole(H))
      ensures m <= c.n && cnt'[m] > 0
    {
      WholeNodes(F, m);
      WholeNodes(H, m);
    }
  }

  lemma WholeNodes(F: Forest, m: nat)
    ensures m in Nodes(Whole(F)) <==> m == ROOT_INO || m in Nodes(F)
  {
    assert Nodes(Whole(F)) == {ROOT_INO} + Nodes(F) + Nodes(Nil);
  }

  lemma TallyAfter(c: Case, D: Dirs, E: Dirs, O: Forest, e: Entry, kids: Forest, rest: Forest, cnt: seq<nat>,
                   cnt': seq<nat>)
    requires Tally(c, D, O, cnt) && Counted(c, D, e, kids, cnt, cnt') && Takes(c, D, O, e, kids, rest)
    requires forall x :: Refs(E, rest, x) == Refs(D, rest, x)
    ensures Tally(c, E, rest, cnt')
  {
    forall x | 0 <= x <= c.n
      ensures Refs(D, O, x) == Refs(D, Brought(e, kids), x) + Refs(E, rest, x)
    {
      assert Refs(D, Nil, x) == 0;
      if e.IsDir() {
        assert Refs(D, Brought(e, kids), x) == Mentions(All(D, e.ino), x) + Refs(D, kids, x) + Refs(D, Nil, x);
      }
    }
  }

  lemma SinceAfter(c: Case, D: Dirs, E: Dirs, O: Forest, e: Entry, kids: Forest, rest: Forest)
    requires Since(c, D, O) && Moved(D, E, c.lf, e) && Takes(c, D, O, e, kids, rest)
    requires e.ino !in Nodes(rest) && c.lf !in Nodes(rest) && e.ino != ROOT_INO && c.lf != ROOT_INO
    ensures Since(c, E, rest)
  {
    if e.IsDir() { assert Nodes(O) == {e.ino} + Nodes(kids) + Nodes(rest); }
    forall n | n != c.lf
      ensures Kids(E, n) == Kids(c.D0, n)
    {
      MovedKids(D, E, c.lf, e, n);
    }
  }

  lemma BoundedAfter(c: Case, i: nat, D: Dirs, E: Dirs, F: Forest, H: Forest, O: Forest, e: Entry, kids: Forest,
                     rest: Forest, cnt: seq<nat>, cnt': seq<nat>)
    requires Bounded(c, i, D, F, O, cnt) && Counted(c, D, e, kids, cnt, cnt') && e.ino == i && Missing(c, i)
    requires Recounted(D, E, F, H, e, kids) && Moved(D, E, c.lf, e) && Takes(c, D, O, e, kids, rest)
    requires e.IsDir() ==> e.ino in D && e.ino !in Nodes(kids) && c.lf !in Nodes(kids)
    ensures Bounded(c, i + 1, E, H, rest, cnt')
  {
    hide Moved, Missing;
    forall x | 0 <= x <= c.n
      ensures Refs(E, Whole(H), x) <= cnt'[x] + (if x < i + 1 && Missing(c, x) then 1 else 0) +
              (if x == c.lf then TopCount(c.O0) - TopCount(rest) else 0)
    {
      if e.IsDir() {
        SubtreeRefs(D, E, c.lf, e, kids, x);
      } else {
        assert Refs(E, Nil, x) == 0;
      }
    }
  }

  lemma CoveredAfter(c: Case, i: nat, F: Forest, H: Forest, O: Forest, e: Entry, kids: Forest, rest: Forest)
    requires Covered(c, i, F, O) && Nodes(H) == Nodes(F) + Nodes(Brought(e, kids))
    requires O == if e.IsDir() then Dir(e.ino, kids, rest) else rest
    ensures Covered(c, i + 1, H, rest)
  {
    BroughtNodes(e, kids);
    assert Nodes(Whole(H)) == {ROOT_INO} + Nodes(H) + Nodes(Nil);
    assert Nodes(Whole(F)) == {ROOT_INO} + Nodes(F) + Nodes(Nil);
  }

  /** Room for this entry, and what lost+found then holds. */
  lemma RoomNow(c: Case, i: nat, D: Dirs, F: Forest, O: Forest, cnt: seq<nat>, E: Dirs)
    requires Progress(c, i, D, F, O, cnt) && i <= c.n && Missing(c, i) && i != c.lf
    requires i in D ==> Rewritable(D[i])
    requires E == Rescued(D, c.lf, i, 0, EntryFor(c, i))
    ensures c.lf in D && AllHeaded(D) && InRange(D, c.n + 1) && Lands(D[c.lf], 0, EntryFor(c, i)) && Headed(E[c.lf])
    ensures HasRoom(c, E[c.lf], ToRescue(c, i + 1))
    ensures InsertAll(c, E[c.lf], ToRescue(c, i + 1)) == InsertAll(c, D[c.lf], ToRescue(c, i))
  {
    hide Typed, InRange, AllHeaded, Tally, Accounted, Since, Missing, Covered, StaleHarmless, Unfolds, Refs, Named,
         Inserted, Lands;
    TestIsMissing(c, i, D, F, O, cnt);
    var ks := ToRescue(c, i);
    assert ks[0] == i && ks[1..] == ToRescue(c, i + 1);
  }

  /** Facts about the pieces of this rescue. */
  lemma PartsApart(c: Case, i: nat, D: Dirs, E: Dirs, F: Forest, O: Forest, e: Entry, kids: Forest, rest: Forest,
                   cnt: seq<nat>)
    requires Progress(c, i, D, F, O, cnt) && Takes(c, D, O, e, kids, rest) && e == EntryFor(c, i) &&
             Moved(D, E, c.lf, e)
    ensures Shape(c, D, F, O) && Disjoint(c, D, F, e, kids, rest) && c.lf !in Nodes(rest)
    ensures Grown(D, rest) && OrphanDots(D, rest) && TopsLive(rest, c.live) && StaleHarmless(D, F, rest, c.live)
    ensures e.IsDir() ==> c.lf !in Nodes(kids) && O.Dir? && O.ino == i
    ensures !e.IsDir() ==> !(O.Dir? && O.ino == i)
  {
    Disjointness(c, D, F, O, e, kids, rest);
    if !e.IsDir() && O.Dir? && O.ino == i { GrownKeys(D, O); }
  }

  lemma KidsCounted(c: Case, i: nat, D: Dirs, F: Forest, O: Forest, e: Entry, kids: Forest, rest: Forest, cnt: seq<nat>)
    requires Progress(c, i, D, F, O, cnt) && Takes(c, D, O, e, kids, rest) && e.ino == i
    ensures forall m :: m in Nodes(Brought(e, kids)) ==> m <= c.n && Refs(D, Brought(e, kids), m) > 0
    ensures e.IsDir() ==> i in D && D[i] != [] && |D[i][0]| >= 2 && Harmless(D, F, c.live, i, D[i][0][1].ino)
  {
    hide HasRoom, Missing, ToRescue, InsertAll, Typed, AllHeaded, InRange, Sorted, TopsLive, Distinct, DotsRight,
         Tally, Accounted, Covered, Bounded, Unfolds, Refs, Named;
    if e.IsDir() {
      GrownKeys(D, O);
      assert Nodes(O) == {i} + Nodes(kids) + Nodes(rest);
      assert Nodes(Brought(e, kids)) == {i} + Nodes(kids) + Nodes(Nil);
      forall m | m in Nodes(Brought(e, kids))
        ensures m <= c.n && Refs(D, Brought(e, kids), m) > 0
      {
        BroughtMentioned(D, e, kids, m);
      }
    } else {
      assert Nodes(Brought(e, kids)) == {};
    }
  }

  lemma RestSame(D: Dirs, E: Dirs, lf: nat, e: Entry, rest: Forest)
    requires Moved(D, E, lf, e) && e.ino !in Nodes(rest) && lf !in Nodes(rest)
    ensures forall n :: n in Nodes(rest) && n in D ==> n in E && E[n] == D[n]
  {
  }

  /** The loop's rescue of inode `i`. */
  lemma TakeStep(c: Case, i: nat, D: Dirs, E: Dirs, F: Forest, O: Forest, kids: Forest, rest: Forest, cnt: seq<nat>,
                 cnt': seq<nat>)
    returns (H: Forest)
    requires Progress(c, i, D, F, O, cnt) && i <= c.n && Missing(c, i) && 0 < c.lf <= c.n && 0 < i != c.lf
    requires Takes(c, D, O, EntryFor(c, i), kids, rest) && Counted(c, D, EntryFor(c, i), kids, cnt, cnt')
    requires i in c.dirs || i in c.files
    requires i in D ==> i in c.dirs && Rewritable(D[i])
    requires E == Rescued(D, c.lf, i, 0, EntryFor(c, i))
    ensures Progress(c, i + 1, E, H, rest, cnt')
    ensures Nodes(H) + Nodes(rest) == Nodes(F) + Nodes(O)
  {
    hide Shape, InRange, HasRoom, Tally, Accounted, Since, Missing, Covered, StaleHarmless, Refs, Named, Nodes,
         Recounted, Counted, Moved, Sorted, TopsLive, Disjoint, Bounded, InsertAll, ToRescue, AllHeaded, OrphanDots,
         Grown, Rewritable;
    var e := EntryFor(c, i);
    TestIsMissing(c, i, D, F, O, cnt);
    RoomNow(c, i, D, F, O, cnt, E);
    TakeTree(c, i, D, E, F, O, kids, rest, cnt);
    TakeRound(c, i, D, E, F, O, kids, rest, cnt, cnt');
    H := RescueStep(c, D, E, F, O, e, kids, rest);
    TakeCounts(c, i, D, E, F, H, O, kids, rest, cnt, cnt');
    CoveredAfter(c, i, F, H, O, e, kids, rest);
    LaterNext(c, i, O);
    TakeNodes(e, F, H, O, kids, rest);
  }

  /** The round that takes orphan tree `kids` walks it and moves its top. */
  lemma TakeRound(c: Case, i: nat, D: Dirs, E: Dirs, F: Forest, O: Forest, kids: Forest, rest: Forest, cnt: seq<nat>,
                  cnt': seq<nat>)
    requires Progress(c, i, D, F, O, cnt) && Missing(c, i) && i != c.lf && (i in D ==> Rewritable(D[i]))
    requires Takes(c, D, O, EntryFor(c, i), kids, rest) && Counted(c, D, EntryFor(c, i), kids, cnt, cnt')
    requires E == Rescued(D, c.lf, i, 0, EntryFor(c, i)) && c.lf in D
    ensures RoundAt(c, i + 1) == Round(E, cnt')
  {
    hide Shape, StaleHarmless, HasRoom, InsertAll, Tally, Accounted, Covered, Sorted, Bounded, ToRescue, Missing, Refs;
    RoundStep(c, i);
    MissingIs(c, i);
    if i in c.dirs {
      WalkIs(c, i, D, F, O, kids, rest, cnt);
      assert cnt' == AddRefs(D, Under(c.D0, i), cnt);
    } else {
      NobodyBrought(c, D, i, kids, cnt, cnt');
      assert cnt' == cnt;
    }
  }

  lemma NobodyBrought(c: Case, D: Dirs, i: nat, kids: Forest, cnt: seq<nat>, cnt': seq<nat>)
    requires Counted(c, D, EntryFor(c, i), kids, cnt, cnt') && i !in c.dirs
    ensures |cnt'| == |cnt| && forall x :: 0 <= x < |cnt| ==> cnt'[x] == cnt[x]
  {
    assert forall x :: Refs(D, Nil, x) == 0;
  }

  /** The orphan tree is the tree that the walk follows. */
  lemma WalkIs(c: Case, i: nat, D: Dirs, F: Forest, O: Forest, kids: Forest, rest: Forest, cnt: seq<nat>)
    requires Progress(c, i, D, F, O, cnt) && O == Dir(i, kids, rest)
    ensures TreeAt(c.D0, i) == kids && Ends(c.D0, i) && i in c.D0 && c.D0[i] == D[i]
  {
    hide StaleHarmless, HasRoom, InsertAll, Tally, Accounted, Covered, Sorted, Bounded, ToRescue, Missing, Refs,
         RoundAt;
    assert Nodes(O) == {i} + Nodes(kids) + Nodes(rest);
    UnfoldsFrame(D, c.D0, Kids(D, i), kids);
    TreeAtIs(c.D0, i, kids);
  }

  lemma TakeNodes(e: Entry, F: Forest, H: Forest, O: Forest, kids: Forest, rest: Forest)
    requires O == if e.IsDir() then Dir(e.ino, kids, rest) else rest
    requires Nodes(H) == Nodes(F) + Nodes(Brought(e, kids))
    ensures Nodes(H) + Nodes(rest) == Nodes(F) + Nodes(O)
  {
    BroughtNodes(e, kids);
    OrphanNodes(e, O, kids, rest);
    UnionAssoc(Nodes(F), Nodes(Brought(e, kids)), Nodes(rest));
  }

  lemma OrphanNodes(e: Entry, O: Forest, kids: Forest, rest: Forest)
    requires O == if e.IsDir() then Dir(e.ino, kids, rest) else rest
    ensures Nodes(O) == Nodes(Brought(e, kids)) + Nodes(rest)
  {
    BroughtNodes(e, kids);
    hide Brought;
    if !e.IsDir() { assert {} + Nodes(rest) == Nodes(rest); }
  }

  lemma UnionAssoc(a: set<nat>, b: set<nat>, c: set<nat>)
    ensures (a + b) + c == a + (b + c)
  {
  }

  /** The directories after the rescue: what RescueStep asks for. */
  lemma TakeTree(c: Case, i: nat, D: Dirs, E: Dirs, F: Forest, O: Forest, kids: Forest, rest: Forest, cnt: seq<nat>)
    requires Progress(c, i, D, F, O, cnt) && i <= c.n && Missing(c, i) && 0 < c.lf <= c.n && 0 < i != c.lf
    requires Takes(c, D, O, EntryFor(c, i), kids, rest)
    requires i in D ==> i in c.dirs && Rewritable(D[i])
    requires E == Rescued(D, c.lf, i, 0, EntryFor(c, i))
    ensures Shape(c, D, F, O) && Moved(D, E, c.lf, EntryFor(c, i)) && AllHeaded(E) && InRange(E, c.n + 1)
    ensures Disjoint(c, D, F, EntryFor(c, i), kids, rest) && c.lf !in Nodes(rest)
    ensures Grown(D, rest) && OrphanDots(D, rest) && TopsLive(rest, c.live) && StaleHarmless(D, F, rest, c.live)
    ensures i in c.dirs ==> i in D && i !in Nodes(kids) && c.lf !in Nodes(kids) && O.Dir? && O.ino == i
    ensures i !in c.dirs ==> !(O.Dir? && O.ino == i)
  {
    hide Shape, Typed, InRange, HasRoom, Tally, Accounted, Since, Missing, Covered, Unfolds, Refs, Named,
         Inserted, Lands, Moved, Sorted, AllHeaded, InsertAll;
    var e := EntryFor(c, i);
    RoomNow(c, i, D, F, O, cnt, E);
    RescuedMoves(D, c.lf, e);
    MovedHeaded(D, E, c.lf, e);
    RescuedInRange(D, c.lf, e, c.n + 1);
    PartsApart(c, i, D, E, F, O, e, kids, rest, cnt);
  }

  /** The counters after the rescue. */
  lemma TakeCounts(c: Case, i: nat, D: Dirs, E: Dirs, F: Forest, H: Forest, O: Forest, kids: Forest, rest: Forest,
                   cnt: seq<nat>, cnt': seq<nat>)
    requires Progress(c, i, D, F, O, cnt) && Takes(c, D, O, EntryFor(c, i), kids, rest) && Missing(c, i)
    requires Counted(c, D, EntryFor(c, i), kids, cnt, cnt') && Moved(D, E, c.lf, EntryFor(c, i))
    requires Disjoint(c, D, F, EntryFor(c, i), kids, rest) && c.lf !in Nodes(rest) &&
             (i in c.dirs ==> c.lf !in Nodes(kids))
    requires Grown(D, rest) && OrphanDots(D, rest) && StaleHarmless(D, F, rest, c.live)
    requires Recounted(D, E, F, H, EntryFor(c, i), kids) && Nodes(H) == Nodes(F) + Nodes(Brought(EntryFor(c, i), kids))
    ensures Accounted(c, i + 1, E, H, cnt') && StaleHarmless(E, H, rest, c.live) && Tally(c, E, rest, cnt') &&
            Since(c, E, rest)
    ensures Bounded(c, i + 1, E, H, rest, cnt')
  {
    hide Shape, HasRoom, Tally, Accounted, Since, Missing, Covered, StaleHarmless, Unfolds, Refs, Named,
         Recounted, Counted, Moved, Sorted, TopsLive, InsertAll, Bounded;
    var e := EntryFor(c, i);
    NamedAfter(c, D, E, F, H, e, kids);
    KidsCounted(c, i, D, F, O, e, kids, rest, cnt);
    AccountedAfter(c, i, D, E, F, H, e, kids, if e.IsDir() then D[i][0][1].ino else 0, cnt, cnt');
    OthersKept(D, E, c.lf, e, rest);
    RestSame(D, E, c.lf, e, rest);
    StaleStays(D, E, F, H, rest, c.live);
    TallyAfter(c, D, E, O, e, kids, rest, cnt, cnt');
    SinceAfter(c, D, E, O, e, kids, rest);
    BoundedAfter(c, i, D, E, F, H, O, e, kids, rest, cnt, cnt');
  }

  /** A tree and orphan trees in the order the loop needs, and room in lost+found. */
  ghost predicate Ready2(c: Case) {
    && Shape(c, c.D0, c.F0, c.O0) && Sorted(c.O0, 1, c.live) && TopsLive(c.O0, c.live)
    && StaleHarmless(c.D0, c.F0, c.O0, c.live) && Covered(c, 1, c.F0, c.O0)
    && (forall n :: n in c.D0 ==> 1 <= n <= c.n) && (forall x :: x in c.live ==> 1 <= x <= c.n)
    && |c.total| == c.n + 1
    && (forall x :: 0 <= x <= c.n ==> c.total[x] == Refs(c.D0, Dir(ROOT_INO, c.F0, c.O0), x) < 256)
    && HasRoom(c, c.D0[c.lf], ToRescue(c, 1))
    && (forall i :: i in c.live && Missing(c, i) && i !in c.dirs ==> i in c.files)
  }

  lemma NodesCounted(D: Dirs, F: Forest, m: nat)
    requires ROOT_INO in D && HeadRight(D[ROOT_INO], ROOT_INO, ROOT_INO) && Unfolds(D, Kids(D, ROOT_INO), F)
    requires m in Nodes(Whole(F))
    ensures Refs(D, Whole(F), m) > 0
  {
    BroughtMentioned(D, Entry(ROOT_INO, 0, DIR_TYPE, []), F, m);
  }

  lemma ProgressStart(c: Case)
    requires Ready2(c)
    ensures Progress(c, 1, c.D0, c.F0, c.O0, RoundAt(c, 1).cnt)
  {
    hide HasRoom, InsertAll, Missing, ToRescue, Typed, AllHeaded, InRange, OrphanDots, StaleHarmless, TopsLive,
         Distinct, DotsRight;
    var D, F, O, cnt := c.D0, c.F0, c.O0, RoundAt(c, 1).cnt;
    assert O == Later(O, 1);
    forall x | 0 <= x <= c.n
      ensures cnt[x] + Refs(D, O, x) == c.total[x] && cnt[x] == Refs(D, Whole(F), x)
    {
      assert Refs(D, Nil, x) == 0;
    }
    UnfoldsKeys(D, Kids(D, ROOT_INO), F);
    GrownKeys(D, O);
    forall m | m in Nodes(Whole(F))
      ensures m <= c.n && cnt[m] > 0
    {
      WholeNodes(F, m);
      NodesCounted(D, F, m);
    }
  }

  /** The pieces of the orphan forest that round `i` takes. */
  lemma RoundTakes(c: Case, i: nat, D: Dirs, F: Forest, O: Forest, cnt: seq<nat>)
    returns (kids: Forest, rest: Forest, cnt': seq<nat>)
    requires Ready2(c) && Progress(c, i, D, F, O, cnt) && i <= c.n && Missing(c, i)
    ensures i != c.lf && 0 < c.lf <= c.n && (i in c.dirs || i in c.files) && i in c.live
    ensures i in D ==> i in c.dirs && Rewritable(D[i])
    ensures Takes(c, D, O, EntryFor(c, i), kids, rest) && Counted(c, D, EntryFor(c, i), kids, cnt, cnt')
  {
    hide StaleHarmless, HasRoom, InsertAll, ToRescue, InRange, Typed, AllHeaded, Sorted, OrphanDots, DotsRight,
         Distinct, RoundAt, Bounded, Refs, Unfolds, Grown, Missing;
    TestIsMissing(c, i, D, F, O, cnt);
    WholeNodes(F, c.lf);
    MissingLive(c, i);
    UnfoldsKeys(D, Kids(D, ROOT_INO), F);
    if i in c.dirs {
      MissingDirIsTop(c, i, D, F, O, cnt);
      kids, rest := O.kids, O.rest;
    } else {
      kids, rest := Nil, O;
    }
    cnt' := seq(|cnt|, x requires 0 <= x < |cnt| => cnt[x] + Refs(D, Brought(EntryFor(c, i), kids), x));
  }

  /** Before round `i`, what is left of the orphan forest and what the tree has become. */
  lemma {:induction false} ProgressAt(c: Case, i: nat) returns (H: Forest, O: Forest)
    requires Ready2(c) && 1 <= i <= c.n + 1
    ensures Progress(c, i, RoundAt(c, i).D, H, O, RoundAt(c, i).cnt)
    ensures Nodes(H) + Nodes(O) == Nodes(c.F0) + Nodes(c.O0)
  {
    hide *;
    if i == 1 {
      ProgressStart(c);
      StartDirs(c);
      H, O := c.F0, c.O0;
    } else {
      var F, R := ProgressAt(c, i - 1);
      var D, cnt := RoundAt(c, i - 1).D, RoundAt(c, i - 1).cnt;
      if Missing(c, i - 1) {
        var kids, rest, cnt' := RoundTakes(c, i - 1, D, F, R, cnt);
        PieceFacts(c, i - 1, D, F, R, cnt);
        var E := Rescued(D, c.lf, i - 1, 0, EntryFor(c, i - 1));
        H := TakeStep(c, i - 1, D, E, F, R, kids, rest, cnt, cnt');
        O := rest;
        ProgressRound(c, i, E, H, O, cnt');
      } else {
        SkipStep(c, i - 1, D, F, R, cnt);
        RoundSkips(c, i - 1);
        H, O := F, R;
      }
    }
  }

  lemma StartDirs(c: Case)
    ensures RoundAt(c, 1).D == c.D0
  {
  }

  lemma PieceFacts(c: Case, i: nat, D: Dirs, F: Forest, O: Forest, cnt: seq<nat>)
    requires Progress(c, i, D, F, O, cnt)
    ensures c.lf in D
  {
  }

  lemma ProgressRound(c: Case, i: nat, D: Dirs, F: Forest, O: Forest, cnt: seq<nat>)
    requires Progress(c, i, D, F, O, cnt)
    ensures RoundAt(c, i).D == D && RoundAt(c, i).cnt == cnt
  {
  }

  /** Whatever the loop finds unreferenced can be rescued, so the loop can run. */
  lemma ReadyRuns(c: Case)
    requires Ready2(c)
    ensures Runnable(c)
  {
    hide *;
    ReadyFacts(c);
    forall i | i in c.live && Missing(c, i)
      ensures Rescuable(c, i)
    {
      LiveNumber(c, i);
      var F, O := ProgressAt(c, i);
      TopRescuable(c, i, RoundAt(c, i).D, F, O, RoundAt(c, i).cnt);
    }
    MakeRunnable(c);
  }

  lemma ReadyFacts(c: Case)
    requires Ready2(c)
    ensures ROOT_INO in c.D0 && Unfolds(c.D0, Kids(c.D0, ROOT_INO), c.F0)
    ensures c.lf in c.D0 && c.lf in Nodes(c.F0) && c.lf != ROOT_INO && 0 < c.lf <= c.n && Begun(c.D0[c.lf])
    ensures InRange(c.D0, c.n + 1) && (forall i :: i in c.live ==> 1 <= i <= c.n)
  {
    hide StaleHarmless, HasRoom, ToRescue, InRange, Typed, AllHeaded, Sorted, OrphanDots, DotsRight, Refs, Unfolds,
         Grown, Missing, Covered;
    DistinctRoot(c.F0, c.O0);
    HeadedBegun(c.D0, c.lf);
  }

  lemma HeadedBegun(D: Dirs, n: nat)
    requires AllHeaded(D) && n in D
    ensures Begun(D[n])
  {
  }

  lemma DistinctRoot(F: Forest, O: Forest)
    requires Distinct(Dir(ROOT_INO, F, O))
    ensures ROOT_INO !in Nodes(F) && ROOT_INO !in Nodes(O) && Distinct(F) && Distinct(O) && Nodes(F) !! Nodes(O)
  {
  }

  lemma LiveNumber(c: Case, i: nat)
    requires Ready2(c) && i in c.live
    ensures 1 <= i <= c.n
  {
  }

  lemma TopRescuable(c: Case, i: nat, D: Dirs, F: Forest, O: Forest, cnt: seq<nat>)
    requires Ready2(c) && Progress(c, i, D, F, O, cnt) && i <= c.n && Missing(c, i)
    ensures Rescuable(c, i)
  {
    hide StaleHarmless, HasRoom, InsertAll, ToRescue, InRange, Typed, AllHeaded, Sorted, OrphanDots, DotsRight,
         RoundAt, Bounded, Refs, Unfolds, Grown, Missing, Tally, Accounted;
    if i in c.dirs {
      MissingDirIsTop(c, i, D, F, O, cnt);
      WalkIs(c, i, D, F, O, O.kids, O.rest, cnt);
      DistinctRoot(F, O);
      assert Nodes(O) == {i} + Nodes(O.kids) + Nodes(O.rest);
      assert Nodes(Under(c.D0, i)) == {i} + Nodes(O.kids) + Nodes(Nil);
    }
  }

  lemma MakeRunnable(c: Case)
    requires ROOT_INO in c.D0 && Unfolds(c.D0, Kids(c.D0, ROOT_INO), c.F0)
    requires c.lf in c.D0 && c.lf in Nodes(c.F0) && c.lf != ROOT_INO && 0 < c.lf <= c.n && Begun(c.D0[c.lf])
    requires InRange(c.D0, c.n + 1) && (forall i :: i in c.live ==> 1 <= i <= c.n)
    requires forall i :: i in c.live && Missing(c, i) ==> Rescuable(c, i)
    ensures Runnable(c)
  {
  }

  /** The state pass2 ends in: no orphan trees left, and every live inode named in
      the tree. */
  ghost predicate AllRescued(c: Case, E: Dirs, H: Forest) {
    && Shape(c, E, H, Nil)
    && (forall x :: x in c.live ==> Named(E, H, x))
    && Nodes(H) == Nodes(c.F0) + Nodes(c.O0)
    && E.Keys == c.D0.Keys && c.lf in c.D0 && E[c.lf] == InsertAll(c, c.D0[c.lf], ToRescue(c, 1))
    && (forall n :: n != c.lf ==> Kids(E, n) == Kids(c.D0, n))
    && ROOT_INO in c.D0 && E[ROOT_INO] == c.D0[ROOT_INO]
    && |c.total| == c.n + 1
    && (forall x :: 0 <= x <= c.n ==>
          Refs(E, Whole(H), x) <= c.total[x] + (if Missing(c, x) then 1 else 0) +
            (if x == c.lf then TopCount(c.O0) else 0))
  }

  lemma ProgressEnd(c: Case, E: Dirs, H: Forest, R: Forest, cnt: seq<nat>)
    requires Progress(c, c.n + 1, E, H, R, cnt) && Nodes(H) + Nodes(R) == Nodes(c.F0) + Nodes(c.O0)
    requires forall x :: x in c.live ==> x <= c.n
    ensures AllRescued(c, E, H)
  {
    hide HasRoom, Missing, Typed, AllHeaded, InRange, OrphanDots, StaleHarmless, TopsLive, Distinct, DotsRight,
         Unfolds, RoundAt;
    assert R == Nil;
    assert forall x :: 0 <= x <= c.n ==> Refs(E, Nil, x) == 0;
    assert Nodes(H) + Nodes(Nil) == Nodes(H);
  }

  /** After the last round every live inode is in the tree. */
  lemma RunRescues(c: Case) returns (H: Forest)
    requires Ready2(c)
    ensures AllRescued(c, RoundAt(c, c.n + 1).D, H)
    ensures ToRescue(c, 1) == [] ==> RoundAt(c, c.n + 1).D == c.D0 && H == c.F0
  {
    hide *;
    var R;
    H, R := ProgressAt(c, c.n + 1);
    LiveNumbersAll(c);
    ProgressEnd(c, RoundAt(c, c.n + 1).D, H, R, RoundAt(c, c.n + 1).cnt);
    if ToRescue(c, 1) == [] {
      NothingMoved(c, c.n + 1);
      ReadyFacts(c);
      EndTree(c, RoundAt(c, c.n + 1).D, H);
      UnfoldsUnique(c.D0, Kids(c.D0, ROOT_INO), H, c.F0);
    }
  }

  lemma LiveNumbersAll(c: Case)
    requires Ready2(c)
    ensures forall x :: x in c.live ==> x <= c.n
  {
  }

  lemma EndTree(c: Case, E: Dirs, H: Forest)
    requires AllRescued(c, E, H)
    ensures Unfolds(E, Kids(E, ROOT_INO), H)
  {
  }

  lemma {:induction false} NothingMoved(c: Case, i: nat)
    requires ToRescue(c, 1) == [] && 1 <= i <= c.n + 1
    ensures RoundAt(c, i).D == c.D0
  {
    hide Missing, RoundAt;
    if i == 1 {
      StartDirs(c);
    } else {
      NothingMoved(c, i - 1);
      if Missing(c, i - 1) { OnTheList(c, 1, i - 1); }
      RoundSkips(c, i - 1);
    }
  }
}
