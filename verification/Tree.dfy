/** The directory tree as the walks of correct.c see it.

  `Dirs` gives, for every directory inode, the decoded entries of each of its
  blocks in walk order.  A `Forest` is the unfolding of the walk: first child
  directory with its own children, then the remaining siblings.  It is finite by
  construction, so a directory that unfolds to a forest is walked in finite time. */
module Tree {
  import opened DirBlock

  type Dirs = map<nat, seq<seq<Entry>>>

  datatype Forest = Nil | Dir(ino: nat, kids: Forest, rest: Forest)

  function Size(f: Forest): nat {
    if f.Nil? then 0 else 1 + Size(f.kids) + Size(f.rest)
  }

  function Flat(bs: seq<seq<Entry>>): seq<Entry> {
    if bs == [] then [] else bs[0] + Flat(bs[1..])
  }

  function Drop(es: seq<Entry>, k: nat): seq<Entry> {
    if |es| <= k then [] else es[k..]
  }

  /** Every entry of directory `n`, and every entry but the first two of its
      first block (directory_traversor, get_true_block_bitmap). */
  function All(D: Dirs, n: nat): seq<Entry> {
    if n in D then Flat(D[n]) else []
  }

  function Below(bs: seq<seq<Entry>>): seq<Entry> {
    if bs == [] then [] else Drop(bs[0], 2) + Flat(bs[1..])
  }

  function Kids(D: Dirs, n: nat): seq<Entry> {
    if n in D then Below(D[n]) else []
  }

  /** `f` lists, in order, the subdirectories that `es` names, each with the
      forest that its own entries unfold to. */
  ghost predicate Unfolds(D: Dirs, es: seq<Entry>, f: Forest)
    decreases f, |es|
  {
    if es == [] then f.Nil?
    else if es[0].IsDir() then
      && f.Dir? && f.ino == es[0].ino && f.ino in D
      && Unfolds(D, Kids(D, f.ino), f.kids)
      && Unfolds(D, es[1..], f.rest)
    else Unfolds(D, es[1..], f)
  }

  /** Each top of `f` is a directory whose entries unfold to its children. */
  ghost predicate Grown(D: Dirs, f: Forest) {
    f.Nil? || (f.ino in D && Unfolds(D, Kids(D, f.ino), f.kids) && Grown(D, f.rest))
  }

  ghost function Nodes(f: Forest): set<nat> {
    if f.Nil? then {} else {f.ino} + Nodes(f.kids) + Nodes(f.rest)
  }

  /** No directory occurs twice: no cycles, one parent each. */
  ghost predicate Distinct(f: Forest) {
    f.Nil? || (
      && f.ino !in Nodes(f.kids) && f.ino !in Nodes(f.rest)
      && Nodes(f.kids) !! Nodes(f.rest)
      && Distinct(f.kids) && Distinct(f.rest))
  }

  /** How many of `es` name inode `x`. */
  function Mentions(es: seq<Entry>, x: nat): nat {
    if es == [] then 0 else (if es[0].ino == x then 1 else 0) + Mentions(es[1..], x)
  }

  /** How many entries of the directories of `f` name `x`, dots included. */
  ghost function Refs(D: Dirs, f: Forest, x: nat): nat {
    if f.Nil? then 0 else Mentions(All(D, f.ino), x) + Refs(D, f.kids, x) + Refs(D, f.rest, x)
  }

  lemma {:induction false} NamesCat(a: seq<Entry>, b: seq<Entry>, x: nat)
    ensures Mentions(a + b, x) == Mentions(a, x) + Mentions(b, x)
  {
    if a == [] {
      assert a + b == b;
    } else {
      NamesCat(a[1..], b, x);
      assert (a + b)[1..] == a[1..] + b;
    }
  }

  lemma {:induction false} NamesPositive(es: seq<Entry>, x: nat)
    ensures Mentions(es, x) > 0 <==> exists e :: e in es && e.ino == x
  {
    if es != [] {
      NamesPositive(es[1..], x);
      if es[0].ino == x { assert es[0] in es; }
      if exists e :: e in es && e.ino == x {
        var e :| e in es && e.ino == x;
        if e != es[0] { assert e in es[1..]; }
      }
      if Mentions(es[1..], x) > 0 {
        var e :| e in es[1..] && e.ino == x;
        assert e in es;
      }
    }
  }

  /** The nodes of an unfolding are directories. */
  lemma {:induction false} UnfoldsKeys(D: Dirs, es: seq<Entry>, f: Forest)
    requires Unfolds(D, es, f)
    ensures Nodes(f) <= D.Keys
    decreases f, |es|
  {
    if es != [] {
      if es[0].IsDir() {
        UnfoldsKeys(D, Kids(D, f.ino), f.kids);
        UnfoldsKeys(D, es[1..], f.rest);
      } else {
        UnfoldsKeys(D, es[1..], f);
      }
    }
  }

  /** A directory has at most one unfolding. */
  lemma {:induction false} UnfoldsUnique(D: Dirs, es: seq<Entry>, f: Forest, h: Forest)
    requires Unfolds(D, es, f) && Unfolds(D, es, h)
    ensures f == h
    decreases f, |es|
  {
    if es != [] {
      if es[0].IsDir() {
        UnfoldsUnique(D, Kids(D, f.ino), f.kids, h.kids);
        UnfoldsUnique(D, es[1..], f.rest, h.rest);
      } else {
        UnfoldsUnique(D, es[1..], f, h);
      }
    }
  }

  /** Unfolding reads only the non-dot entries of the nodes. */
  lemma {:induction false} UnfoldsFrame(D: Dirs, E: Dirs, es: seq<Entry>, f: Forest)
    requires Unfolds(D, es, f)
    requires forall n <- Nodes(f) :: n in E && Kids(E, n) == Kids(D, n)
    ensures Unfolds(E, es, f)
    decreases f, |es|
  {
    if es != [] {
      if es[0].IsDir() {
        UnfoldsFrame(D, E, Kids(D, f.ino), f.kids);
        UnfoldsFrame(D, E, es[1..], f.rest);
      } else {
        UnfoldsFrame(D, E, es[1..], f);
      }
    }
  }

  lemma {:induction false} GrownFrame(D: Dirs, E: Dirs, f: Forest)
    requires Grown(D, f)
    requires forall n <- Nodes(f) :: n in E && Kids(E, n) == Kids(D, n)
    ensures Grown(E, f)
  {
    if f.Dir? {
      UnfoldsFrame(D, E, Kids(D, f.ino), f.kids);
      GrownFrame(D, E, f.rest);
    }
  }

  lemma {:induction false} GrownKeys(D: Dirs, f: Forest)
    requires Grown(D, f)
    ensures Nodes(f) <= D.Keys
  {
    if f.Dir? {
      UnfoldsKeys(D, Kids(D, f.ino), f.kids);
      GrownKeys(D, f.rest);
    }
  }

  /** Counting reads only the nodes. */
  lemma {:induction false} RefsFrame(D: Dirs, E: Dirs, f: Forest, x: nat)
    requires forall n <- Nodes(f) :: All(E, n) == All(D, n)
    ensures Refs(E, f, x) == Refs(D, f, x)
  {
    if f.Dir? {
      RefsFrame(D, E, f.kids, x);
      RefsFrame(D, E, f.rest, x);
    }
  }

  /** A name that is counted stands in a directory of the forest, and conversely. */
  lemma {:induction false} RefsPositive(D: Dirs, f: Forest, x: nat)
    ensures Refs(D, f, x) > 0 <==> exists n :: n in Nodes(f) && Mentions(All(D, n), x) > 0
  {
    if f.Dir? {
      RefsPositive(D, f.kids, x);
      RefsPositive(D, f.rest, x);
      if Refs(D, f, x) > 0 {
        if Mentions(All(D, f.ino), x) == 0 {
          if Refs(D, f.kids, x) > 0 {
            var n :| n in Nodes(f.kids) && Mentions(All(D, n), x) > 0;
            assert n in Nodes(f);
          } else {
            var n :| n in Nodes(f.rest) && Mentions(All(D, n), x) > 0;
            assert n in Nodes(f);
          }
        } else {
          assert f.ino in Nodes(f);
        }
      }
    }
  }

  /** The children of a node are nodes. */
  lemma {:induction false} UnfoldsChild(D: Dirs, es: seq<Entry>, f: Forest, e: Entry)
    requires Unfolds(D, es, f) && e in es && e.IsDir()
    ensures e.ino in Nodes(f)
    decreases f, |es|
  {
    if es[0].IsDir() {
      if e != es[0] { UnfoldsChild(D, es[1..], f.rest, e); }
    } else {
      UnfoldsChild(D, es[1..], f, e);
    }
  }

  lemma {:induction false} NodeClosed(D: Dirs, es: seq<Entry>, f: Forest, n: nat, e: Entry)
    requires Unfolds(D, es, f) && n in Nodes(f) && e in Kids(D, n) && e.IsDir()
    ensures e.ino in Nodes(f)
    decreases f, |es|
  {
    if es[0].IsDir() {
      if n == f.ino {
        UnfoldsChild(D, Kids(D, f.ino), f.kids, e);
      } else if n in Nodes(f.kids) {
        NodeClosed(D, Kids(D, f.ino), f.kids, n, e);
      } else {
        NodeClosed(D, es[1..], f.rest, n, e);
      }
    } else {
      NodeClosed(D, es[1..], f, n, e);
    }
  }

  lemma {:induction false} GrownClosed(D: Dirs, f: Forest, n: nat, e: Entry)
    requires Grown(D, f) && n in Nodes(f) && e in Kids(D, n) && e.IsDir()
    ensures e.ino in Nodes(f)
  {
    if n == f.ino {
      UnfoldsChild(D, Kids(D, n), f.kids, e);
    } else if n in Nodes(f.kids) {
      NodeClosed(D, Kids(D, f.ino), f.kids, n, e);
    } else {
      GrownClosed(D, f.rest, n, e);
    }
  }

  /** A path of subdirectory links. */
  ghost predicate Link(D: Dirs, n: nat, m: nat) {
    exists e :: e in Kids(D, n) && e.IsDir() && e.ino == m
  }

  ghost predicate Path(D: Dirs, p: seq<nat>, n: nat, m: nat) {
    && |p| > 0 && p[0] == n && p[|p| - 1] == m
    && forall i :: 0 <= i < |p| - 1 ==> Link(D, p[i], p[i + 1])
  }

  ghost predicate Reachable(D: Dirs, n: nat, m: nat) {
    exists p :: Path(D, p, n, m)
  }

  /** The walk from `n` visits exactly the directories that some path of
      subdirectory entries leads to. */
  lemma WalkedIsReachable(D: Dirs, n: nat, f: Forest, m: nat)
    requires n in D && Unfolds(D, Kids(D, n), f)
    ensures m in Nodes(Dir(n, f, Nil)) <==> Reachable(D, n, m)
  {
    var t := Dir(n, f, Nil);
    assert Nodes(t) == {n} + Nodes(f) + Nodes(Nil);
    if m in Nodes(t) {
      if m == n {
        assert Path(D, [n], n, n);
      } else {
        NodeReachable(D, n, Kids(D, n), f, m);
      }
    }
    if Reachable(D, n, m) {
      var p :| Path(D, p, n, m);
      PathInside(D, t, p, m);
    }
  }

  lemma {:induction false} PathInside(D: Dirs, t: Forest, p: seq<nat>, m: nat)
    requires Grown(D, t) && |p| > 0 && p[0] in Nodes(t) && Path(D, p, p[0], m)
    ensures m in Nodes(t)
    decreases |p|
  {
    if |p| > 1 {
      assert Link(D, p[0], p[0 + 1]);
      var e :| e in Kids(D, p[0]) && e.IsDir() && e.ino == p[1];
      GrownClosed(D, t, p[0], e);
      var q := p[1..];
      forall i | 0 <= i < |q| - 1
        ensures Link(D, q[i], q[i + 1])
      {
        assert Link(D, p[i + 1], p[i + 1 + 1]);
      }
      PathInside(D, t, q, m);
    }
  }

  lemma {:induction false} NodeReachable(D: Dirs, n: nat, es: seq<Entry>, f: Forest, m: nat)
    requires Unfolds(D, es, f) && m in Nodes(f)
    requires forall e :: e in es ==> e in Kids(D, n)
    ensures Reachable(D, n, m)
    decreases f, |es|
  {
    if es[0].IsDir() {
      if m in Nodes(f.rest) {
        NodeReachable(D, n, es[1..], f.rest, m);
      } else {
        assert Link(D, n, f.ino) by { assert es[0] in Kids(D, n); }
        var q: seq<nat>;
        if m == f.ino {
          q := [m];
        } else {
          NodeReachable(D, f.ino, Kids(D, f.ino), f.kids, m);
          q :| Path(D, q, f.ino, m);
        }
        var p := [n] + q;
        forall i | 0 <= i < |p| - 1
          ensures Link(D, p[i], p[i + 1])
        {
          if i > 0 { assert Link(D, q[i - 1], q[i - 1 + 1]); }
        }
        assert Path(D, p, n, m);
      }
    } else {
      NodeReachable(D, n, es[1..], f, m);
    }
  }
}
