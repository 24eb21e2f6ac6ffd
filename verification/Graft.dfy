/** What one rescue does to the decoded tree: an entry more in lost+found, and the
  rescued subtree hung below it. */
module Graft {
  import opened DirBlock
  import opened Tree
  import opened Dots
  import opened LostFound

  /** Entry lists that hold the same inodes, types and names; record lengths may differ. */
  ghost predicate Alike(a: seq<Entry>, b: seq<Entry>) {
    |a| == |b| && forall k :: 0 <= k < |a| ==>
      a[k].ino == b[k].ino && a[k].fileType == b[k].fileType && a[k].name == b[k].name
  }

  /** `b` is `a` with `e` put in somewhere. */
  ghost predicate GrewAt(a: seq<Entry>, b: seq<Entry>, e: Entry, p: nat) {
    p <= |a| && Alike(b, a[..p] + [e] + a[p..])
  }

  ghost predicate Grew(a: seq<Entry>, b: seq<Entry>, e: Entry) {
    exists p: nat :: GrewAt(a, b, e, p)
  }

  lemma {:induction false} NamesAlike(a: seq<Entry>, b: seq<Entry>, x: nat)
    requires Alike(a, b)
    ensures Mentions(a, x) == Mentions(b, x)
  {
    if a != [] { NamesAlike(a[1..], b[1..], x); }
  }

  lemma NamesGrew(a: seq<Entry>, b: seq<Entry>, e: Entry, x: nat)
    requires Grew(a, b, e)
    ensures Mentions(b, x) == Mentions(a, x) + if e.ino == x then 1 else 0
  {
    var p: nat :| GrewAt(a, b, e, p);
    NamesAlike(b, a[..p] + [e] + a[p..], x);
    NamesCat(a[..p] + [e], a[p..], x);
    NamesCat(a[..p], [e], x);
    assert a == a[..p] + a[p..];
    NamesCat(a[..p], a[p..], x);
    assert Mentions([e], x) == (if e.ino == x then 1 else 0) + Mentions([], x);
  }

  lemma SpliceGrew(es: seq<Entry>, e: Entry)
    requires Spliceable(es)
    ensures GrewAt(es, Splice(es, e), e, |es|)
  {
    assert es[..|es|] == es && es[|es|..] == [];
  }

  lemma GrewAround(pre: seq<Entry>, a: seq<Entry>, b: seq<Entry>, post: seq<Entry>, e: Entry)
    requires GrewAt(a, b, e, |a|)
    ensures GrewAt(pre + a + post, pre + b + post, e, |pre| + |a|)
  {
    var whole := pre + a + post;
    var p := |pre| + |a|;
    assert whole[..p] == pre + a && whole[p..] == post;
    assert a[..|a|] == a && a[|a|..] == [];
    var x, y := pre + b + post, whole[..p] + [e] + whole[p..];
    forall k | 0 <= k < |x|
      ensures x[k].ino == y[k].ino && x[k].fileType == y[k].fileType && x[k].name == y[k].name
    {
      if |pre| <= k < |pre| + |b| { assert x[k] == b[k - |pre|]; }
    }
  }

  lemma {:induction false} FlatSplit(bs: seq<seq<Entry>>, j: nat)
    requires j < |bs|
    ensures Flat(bs) == Flat(bs[..j]) + bs[j] + Flat(bs[j + 1..])
  {
    if j > 0 {
      FlatSplit(bs[1..], j - 1);
      assert bs[1..][..j - 1] == bs[..j][1..] && bs[1..][j..] == bs[j + 1..];
    }
  }

  /** The entries of a directory after an insertion that lands. */
  lemma InsertedGrew(bs: seq<seq<Entry>>, junk: nat, e: Entry)
    requires Lands(bs, junk, e) && |bs| > 0 && |bs[0]| >= 2
    ensures Grew(Flat(bs), Flat(Inserted(bs, junk, e)), e)
    ensures Grew(Below(bs), Below(Inserted(bs, junk, e)), e)
    ensures |Inserted(bs, junk, e)| == |bs| && Alike(Inserted(bs, junk, e)[0][..2], bs[0][..2])
  {
    var j := Slot(bs, 0, junk, e);
    var es := Splice(bs[j], e);
    var cs := bs[j := es];
    SpliceGrew(bs[j], e);
    FlatSplit(bs, j);
    FlatSplit(cs, j);
    assert cs[..j] == bs[..j] && cs[j + 1..] == bs[j + 1..];
    GrewAround(Flat(bs[..j]), bs[j], es, Flat(bs[j + 1..]), e);
    assert GrewAt(Flat(bs), Flat(cs), e, |Flat(bs[..j])| + |bs[j]|);
    BelowGrew(bs, cs, j, e);
  }

  lemma BelowGrew(bs: seq<seq<Entry>>, cs: seq<seq<Entry>>, j: nat, e: Entry)
    requires j < |bs| && |bs[0]| >= 2 && |cs| == |bs| && cs == bs[j := cs[j]] && GrewAt(bs[j], cs[j], e, |bs[j]|)
    ensures Grew(Below(bs), Below(cs), e)
  {
    if j == 0 {
      assert cs[1..] == bs[1..];
      DropGrew(bs[0], cs[0], e);
      BelowAround([], Drop(bs[0], 2), Drop(cs[0], 2), Flat(bs[1..]), e);
    } else {
      var bt, ct := bs[1..], cs[1..];
      FlatSplit(bt, j - 1);
      FlatSplit(ct, j - 1);
      assert ct[..j - 1] == bt[..j - 1] && ct[j..] == bt[j..] && cs[0] == bs[0] && ct[j - 1] == cs[j] &&
             bt[j - 1] == bs[j];
      var d, pre, post := Drop(bs[0], 2), Flat(bt[..j - 1]), Flat(bt[j..]);
      CatAssoc(d, pre, bs[j], post);
      CatAssoc(d, pre, cs[j], post);
      GrewAround(d + pre, bs[j], cs[j], post, e);
    }
  }

  lemma BelowAround(pre: seq<Entry>, a: seq<Entry>, b: seq<Entry>, post: seq<Entry>, e: Entry)
    requires pre == [] && GrewAt(a, b, e, |a|)
    ensures Grew(a + post, b + post, e)
  {
    GrewAround(pre, a, b, post, e);
    assert pre + a + post == a + post && pre + b + post == b + post;
  }

  lemma CatAssoc(a: seq<Entry>, b: seq<Entry>, c: seq<Entry>, d: seq<Entry>)
    ensures a + (b + c + d) == a + b + c + d
  {
  }

  lemma DropGrew(a: seq<Entry>, b: seq<Entry>, e: Entry)
    requires |a| >= 2 && GrewAt(a, b, e, |a|)
    ensures GrewAt(Drop(a, 2), Drop(b, 2), e, |Drop(a, 2)|)
  {
    assert a[..|a|] + [e] + a[|a|..] == a + [e];
    var c := Drop(a, 2);
    assert c[..|c|] + [e] + c[|c|..] == c + [e];
  }

  /** Unfolding depends on inodes and types alone. */
  lemma {:induction false} UnfoldsAlike(E: Dirs, a: seq<Entry>, b: seq<Entry>, f: Forest)
    requires Unfolds(E, a, f) && Alike(a, b)
    ensures Unfolds(E, b, f)
    decreases f, |a|
  {
    if a != [] {
      if a[0].IsDir() {
        UnfoldsAlike(E, a[1..], b[1..], f.rest);
      } else {
        UnfoldsAlike(E, a[1..], b[1..], f);
      }
    }
  }

  /** The subtree a new entry brings with it. */
  ghost function Brought(e: Entry, kids: Forest): Forest {
    if e.IsDir() then Dir(e.ino, kids, Nil) else Nil
  }

  ghost predicate Ready(E: Dirs, e: Entry, kids: Forest) {
    e.IsDir() ==> e.ino in E && Unfolds(E, Kids(E, e.ino), kids)
  }

  /** `h` is `f` with the trees of `sub` grafted in: nodes, counts, dots and
      distinctness all add up. */
  ghost predicate Grafted(E: Dirs, parent: nat, f: Forest, sub: Forest, lf: nat, h: Forest) {
    && Nodes(h) == Nodes(f) + Nodes(sub)
    && (forall x :: Refs(E, h, x) == Refs(E, f, x) + Refs(E, sub, x))
    && (Distinct(f) && Distinct(sub) && Nodes(f) !! Nodes(sub) ==> Distinct(h))
    && (DotsRight(E, parent, f) && DotsRight(E, lf, sub) ==> DotsRight(E, parent, h))
  }

  lemma GraftedFirst(E: Dirs, lf: nat, f: Forest, e: Entry, kids: Forest)
    ensures Grafted(E, lf, f, Brought(e, kids), lf, if e.IsDir() then Dir(e.ino, kids, f) else f)
  {
    var sub := Brought(e, kids);
    assert Nodes(Nil) == {} && forall x :: Refs(E, Nil, x) == 0;
    if e.IsDir() {
      var h := Dir(e.ino, kids, f);
      assert Nodes(sub) == {e.ino} + Nodes(kids) + Nodes(Nil);
      assert Nodes(h) == {e.ino} + Nodes(kids) + Nodes(f);
      forall x
        ensures Refs(E, h, x) == Refs(E, f, x) + Refs(E, sub, x)
      {
        assert Refs(E, sub, x) == Mentions(All(E, e.ino), x) + Refs(E, kids, x) + Refs(E, Nil, x);
        assert Refs(E, h, x) == Mentions(All(E, e.ino), x) + Refs(E, kids, x) + Refs(E, f, x);
      }
      assert Distinct(sub) ==> e.ino !in Nodes(kids) && Distinct(kids);
      assert DotsRight(E, lf, sub) ==> e.ino in E && HeadRight(E[e.ino], e.ino, lf) && DotsRight(E, e.ino, kids);
    }
  }

  lemma GraftedRest(E: Dirs, parent: nat, f: Forest, sub: Forest, lf: nat, r: Forest)
    requires f.Dir? && Grafted(E, parent, f.rest, sub, lf, r)
    ensures Grafted(E, parent, f, sub, lf, Dir(f.ino, f.kids, r))
  {
    var h := Dir(f.ino, f.kids, r);
    assert Nodes(h) == {f.ino} + Nodes(f.kids) + Nodes(r);
  }

  lemma GraftedKids(E: Dirs, parent: nat, f: Forest, sub: Forest, lf: nat, k: Forest)
    requires f.Dir? && Grafted(E, f.ino, f.kids, sub, lf, k)
    ensures Grafted(E, parent, f, sub, lf, Dir(f.ino, k, f.rest))
  {
    var h := Dir(f.ino, k, f.rest);
    assert Nodes(h) == {f.ino} + Nodes(k) + Nodes(f.rest);
  }

  /** The children of the directory that received the entry. */
  lemma {:induction false} Weave(E: Dirs, lf: nat, es: seq<Entry>, p: nat, e: Entry, f: Forest, kids: Forest)
    returns (h: Forest)
    requires Unfolds(E, es, f) && p <= |es| && Ready(E, e, kids)
    ensures Unfolds(E, es[..p] + [e] + es[p..], h) && Grafted(E, lf, f, Brought(e, kids), lf, h)
    decreases p
  {
    var sub := Brought(e, kids);
    if p == 0 {
      assert es[..0] + [e] + es[0..] == [e] + es;
      assert ([e] + es)[1..] == es;
      h := if e.IsDir() then Dir(e.ino, kids, f) else f;
      GraftedFirst(E, lf, f, e, kids);
    } else {
      var whole := es[..p] + [e] + es[p..];
      assert whole[0] == es[0] && whole[1..] == es[1..][..p - 1] + [e] + es[1..][p - 1..];
      if es[0].IsDir() {
        var r := Weave(E, lf, es[1..], p - 1, e, f.rest, kids);
        h := Dir(f.ino, f.kids, r);
        GraftedRest(E, lf, f, sub, lf, r);
      } else {
        h := Weave(E, lf, es[1..], p - 1, e, f, kids);
      }
    }
  }

  /** After a rescue into `lf` the tree that holds `lf` unfolds again, with the
      rescued subtree below `lf`. */
  lemma {:induction false} Attach(D: Dirs, E: Dirs, parent: nat, es: seq<Entry>, f: Forest, lf: nat, e: Entry,
                                  kids: Forest)
    returns (h: Forest)
    requires Unfolds(D, es, f) && Distinct(f) && lf in Nodes(f) && Ready(E, e, kids)
    requires forall n :: n in Nodes(f) ==> n in E && (n != lf ==> Kids(E, n) == Kids(D, n))
    requires Grew(Kids(D, lf), Kids(E, lf), e)
    ensures Unfolds(E, es, h) && Grafted(E, parent, f, Brought(e, kids), lf, h)
    decreases f, |es|
  {
    var sub := Brought(e, kids);
    if !es[0].IsDir() {
      h := Attach(D, E, parent, es[1..], f, lf, e, kids);
    } else if f.ino == lf {
      UnfoldsFrame(D, E, Kids(D, lf), f.kids);
      UnfoldsFrame(D, E, es[1..], f.rest);
      var p: nat :| GrewAt(Kids(D, lf), Kids(E, lf), e, p);
      var k := Weave(E, lf, Kids(D, lf), p, e, f.kids, kids);
      UnfoldsAlike(E, Kids(D, lf)[..p] + [e] + Kids(D, lf)[p..], Kids(E, lf), k);
      h := Dir(f.ino, k, f.rest);
      GraftedKids(E, parent, f, sub, lf, k);
    } else if lf in Nodes(f.kids) {
      UnfoldsFrame(D, E, es[1..], f.rest);
      var k := Attach(D, E, f.ino, Kids(D, f.ino), f.kids, lf, e, kids);
      h := Dir(f.ino, k, f.rest);
      GraftedKids(E, parent, f, sub, lf, k);
    } else {
      UnfoldsFrame(D, E, Kids(D, f.ino), f.kids);
      var r := Attach(D, E, parent, es[1..], f.rest, lf, e, kids);
      h := Dir(f.ino, f.kids, r);
      GraftedRest(E, parent, f, sub, lf, r);
    }
  }
}
