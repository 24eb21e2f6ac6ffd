/** Pass 1 on the decoded tree: `.` and `..` of every directory the walk visits. */
module Dots {
  import opened DirBlock
  import opened Tree

  /** One step of the inner loop: a directory entry at position `k` gets inode `v`. */
  function FixEntry(es: seq<Entry>, k: nat, v: nat): (r: seq<Entry>)
    ensures |r| == |es|
  {
    if k < |es| && es[k].IsDir() then es[k := es[k].(ino := v)] else es
  }

  function FixHead(es: seq<Entry>, self: nat, parent: nat): (r: seq<Entry>)
    ensures |r| == |es|
  {
    FixEntry(FixEntry(es, 0, self), 1, parent)
  }

  function FixDots(D: Dirs, n: nat, parent: nat): (E: Dirs)
    ensures E.Keys == D.Keys
  {
    if n in D && D[n] != [] then D[n := D[n][0 := FixHead(D[n][0], n, parent)]] else D
  }

  /** The state after pass1 has walked the trees of `f`, children of `parent`. */
  ghost function FixTree(D: Dirs, parent: nat, f: Forest): (E: Dirs)
    ensures E.Keys == D.Keys
    decreases f
  {
    if f.Nil? then D
    else FixTree(FixTree(FixDots(D, f.ino, parent), f.ino, f.kids), parent, f.rest)
  }

  predicate HeadRight(bs: seq<seq<Entry>>, self: nat, parent: nat) {
    |bs| > 0 && |bs[0]| >= 2 && bs[0][0].ino == self && bs[0][1].ino == parent
  }

  /** Every directory of `f` names itself first and its parent second. */
  ghost predicate DotsRight(D: Dirs, parent: nat, f: Forest)
    decreases f
  {
    f.Nil? || (
      && f.ino in D && HeadRight(D[f.ino], f.ino, parent)
      && DotsRight(D, f.ino, f.kids)
      && DotsRight(D, parent, f.rest))
  }

  /** A directory opens with two entries typed as directories, and no later block
      has an entry typed as a directory in its first two places, where pass1
      (which restarts `count` in every block) would take it for a dot entry. */
  predicate Headed(bs: seq<seq<Entry>>) {
    && |bs| > 0 && |bs[0]| >= 2 && bs[0][0].IsDir() && bs[0][1].IsDir()
    && forall i, k :: 1 <= i < |bs| && 0 <= k < |bs[i]| && k < 2 ==> !bs[i][k].IsDir()
  }

  predicate AllHeaded(D: Dirs) {
    forall n <- D.Keys :: Headed(D[n])
  }

  /** Nothing but the inode fields of a first block's first two entries differs. */
  predicate SameButDots(a: seq<seq<Entry>>, b: seq<seq<Entry>>) {
    && |a| == |b|
    && (a != [] ==>
          && |a[0]| == |b[0]|
          && a[1..] == b[1..]
          && forall k :: 0 <= k < |a[0]| ==>
               if k < 2 && a[0][k].IsDir() then b[0][k] == a[0][k].(ino := b[0][k].ino) else b[0][k] == a[0][k])
  }

  lemma FixDotsKeeps(D: Dirs, n: nat, parent: nat, m: nat)
    ensures Kids(FixDots(D, n, parent), m) == Kids(D, m)
    ensures m != n ==> FixDots(D, n, parent).Keys == D.Keys && (m in D ==> FixDots(D, n, parent)[m] == D[m])
    ensures m in D ==> SameButDots(D[m], FixDots(D, n, parent)[m])
    ensures m in D && Headed(D[m]) ==> Headed(FixDots(D, n, parent)[m])
  {
    if m == n && n in D && D[n] != [] {
      var es, fs := D[n][0], FixHead(D[n][0], n, parent);
      assert Drop(fs, 2) == Drop(es, 2);
      assert D[n][0 := fs][1..] == D[n][1..];
    }
  }

  /** Directories outside the walked trees are untouched; inside, the non-dot
      entries, and so the edges the walk follows, are the same before and after. */
  lemma {:induction false} FixTreeKeeps(D: Dirs, parent: nat, f: Forest, m: nat)
    ensures Kids(FixTree(D, parent, f), m) == Kids(D, m)
    ensures m in D && m !in Nodes(f) ==> FixTree(D, parent, f)[m] == D[m]
    ensures m in D ==> SameButDots(D[m], FixTree(D, parent, f)[m])
    ensures m in D && Headed(D[m]) ==> Headed(FixTree(D, parent, f)[m])
    decreases f
  {
    if f.Dir? {
      var D1 := FixDots(D, f.ino, parent);
      var D2 := FixTree(D1, f.ino, f.kids);
      FixDotsKeeps(D, f.ino, parent, m);
      FixTreeKeeps(D1, f.ino, f.kids, m);
      FixTreeKeeps(D2, parent, f.rest, m);
    }
  }

  lemma FixTreeHeaded(D: Dirs, parent: nat, f: Forest)
    requires AllHeaded(D)
    ensures AllHeaded(FixTree(D, parent, f))
  {
    forall n | n in FixTree(D, parent, f)
      ensures Headed(FixTree(D, parent, f)[n])
    {
      FixTreeKeeps(D, parent, f, n);
    }
  }

  lemma FixTreeUnfolds(D: Dirs, parent: nat, f: Forest, es: seq<Entry>, h: Forest)
    requires Unfolds(D, es, h)
    ensures Unfolds(FixTree(D, parent, f), es, h)
  {
    UnfoldsKeys(D, es, h);
    forall n | n in Nodes(h)
      ensures Kids(FixTree(D, parent, f), n) == Kids(D, n)
    {
      FixTreeKeeps(D, parent, f, n);
    }
    UnfoldsFrame(D, FixTree(D, parent, f), es, h);
  }

  lemma FixTreeGrown(D: Dirs, parent: nat, f: Forest, h: Forest)
    requires Grown(D, h)
    ensures Grown(FixTree(D, parent, f), h)
  {
    GrownKeys(D, h);
    forall n | n in Nodes(h)
      ensures Kids(FixTree(D, parent, f), n) == Kids(D, n)
    {
      FixTreeKeeps(D, parent, f, n);
    }
    GrownFrame(D, FixTree(D, parent, f), h);
  }

  /** The dots of a forest depend on its own directories only. */
  lemma {:induction false} DotsFrame(D: Dirs, E: Dirs, parent: nat, f: Forest)
    requires DotsRight(D, parent, f)
    requires forall n <- Nodes(f) :: n in E && n in D && E[n] == D[n]
    ensures DotsRight(E, parent, f)
    decreases f
  {
    if f.Dir? {
      DotsFrame(D, E, f.ino, f.kids);
      DotsFrame(D, E, parent, f.rest);
    }
  }

  /** Pass 1 leaves every directory it visits with itself first and its parent second. */
  lemma {:induction false} FixTreeRight(D: Dirs, parent: nat, f: Forest)
    requires Distinct(f) && Nodes(f) <= D.Keys && AllHeaded(D)
    ensures DotsRight(FixTree(D, parent, f), parent, f)
    decreases f
  {
    if f.Dir? {
      var D1 := FixDots(D, f.ino, parent);
      var D2 := FixTree(D1, f.ino, f.kids);
      var D3 := FixTree(D2, parent, f.rest);
      FixTreeHeaded(D, parent, Dir(f.ino, Nil, Nil));
      assert D1 == FixTree(D, parent, Dir(f.ino, Nil, Nil));
      FixTreeRight(D1, f.ino, f.kids);
      FixTreeHeaded(D1, f.ino, f.kids);
      FixTreeRight(D2, parent, f.rest);
      FixTreeKeeps(D1, f.ino, f.kids, f.ino);
      FixTreeKeeps(D2, parent, f.rest, f.ino);
      forall n | n in Nodes(f.kids)
        ensures D3[n] == D2[n]
      {
        FixTreeKeeps(D2, parent, f.rest, n);
      }
      DotsFrame(D2, D3, f.ino, f.kids);
    }
  }

  /** Where the dots are right already, pass 1 changes nothing. */
  lemma {:induction false} FixTreeIdle(D: Dirs, parent: nat, f: Forest)
    requires DotsRight(D, parent, f)
    ensures FixTree(D, parent, f) == D
    decreases f
  {
    if f.Dir? {
      var bs := D[f.ino];
      assert FixHead(bs[0], f.ino, parent) == bs[0];
      assert bs[0 := bs[0]] == bs;
      assert FixDots(D, f.ino, parent) == D;
      FixTreeIdle(D, f.ino, f.kids);
      FixTreeIdle(D, parent, f.rest);
    }
  }

  /** The recursion's notion of parent is the tree's: wherever a directory of the
      tree names a subdirectory, that subdirectory names itself first and the
      naming directory second. */
  lemma DotsNameTheParent(D: Dirs, top: nat, f: Forest, n: nat, e: Entry)
    requires n in Nodes(Dir(top, f, Nil)) && e in Kids(D, n) && e.IsDir()
    requires Unfolds(D, Kids(D, top), f) && DotsRight(D, top, f)
    ensures e.ino in D && HeadRight(D[e.ino], e.ino, n)
  {
    assert Nodes(Dir(top, f, Nil)) == {top} + Nodes(f) + Nodes(Nil);
    if n == top && e in Kids(D, top) {
      DotsOfChild(D, Kids(D, top), top, f, e);
    } else {
      DotsOfNode(D, Kids(D, top), top, f, n, e);
    }
  }

  lemma {:induction false} DotsOfChild(D: Dirs, es: seq<Entry>, p: nat, f: Forest, e: Entry)
    requires Unfolds(D, es, f) && DotsRight(D, p, f) && e in es && e.IsDir()
    ensures e.ino in D && HeadRight(D[e.ino], e.ino, p)
    decreases f, |es|
  {
    if es[0].IsDir() {
      if e != es[0] { DotsOfChild(D, es[1..], p, f.rest, e); }
    } else {
      DotsOfChild(D, es[1..], p, f, e);
    }
  }

  lemma {:induction false} DotsOfNode(D: Dirs, es: seq<Entry>, p: nat, f: Forest, n: nat, e: Entry)
    requires Unfolds(D, es, f) && DotsRight(D, p, f)
    requires n in Nodes(f) && e in Kids(D, n) && e.IsDir()
    ensures e.ino in D && HeadRight(D[e.ino], e.ino, n)
    decreases f, |es|
  {
    if es[0].IsDir() {
      if n == f.ino {
        DotsOfChild(D, Kids(D, n), n, f.kids, e);
      } else if n in Nodes(f.kids) {
        DotsOfNode(D, Kids(D, f.ino), f.ino, f.kids, n, e);
      } else {
        DotsOfNode(D, es[1..], p, f.rest, n, e);
      }
    } else {
      DotsOfNode(D, es[1..], p, f, n, e);
    }
  }

  /** What the code does to a block whose `count` restarts, and when that is
      harmless: a later block keeps its entries exactly when each of its first
      two entries is not typed as a directory or already holds the dot inode. */
  lemma LaterBlockKept(es: seq<Entry>, self: nat, parent: nat)
    ensures FixHead(es, self, parent) == es <==>
            && (|es| > 0 && es[0].IsDir() ==> es[0].ino == self)
            && (|es| > 1 && es[1].IsDir() ==> es[1].ino == parent)
  {
    var r := FixHead(es, self, parent);
    if |es| > 0 && es[0].IsDir() { assert r[0].ino == self; }
    if |es| > 1 && es[1].IsDir() { assert r[1].ino == parent; }
    if (|es| > 0 && es[0].IsDir() ==> es[0].ino == self)
       && (|es| > 1 && es[1].IsDir() ==> es[1].ino == parent) {
      assert FixEntry(es, 0, self) == es;
    }
  }

  /** The other half of the typing condition: pass 1 repairs the first two entries
      exactly when they are typed as directories or were right before. */
  lemma HeadRepaired(bs: seq<seq<Entry>>, self: nat, parent: nat)
    requires |bs| > 0 && |bs[0]| >= 2
    ensures HeadRight(bs[0 := FixHead(bs[0], self, parent)], self, parent) <==>
            && (bs[0][0].IsDir() || bs[0][0].ino == self)
            && (bs[0][1].IsDir() || bs[0][1].ino == parent)
  {
  }

  /** Entry `k` of the first block of directory `n` gets inode `v`. */
  ghost function SetIno(D: Dirs, n: nat, k: nat, v: nat): Dirs
    requires n in D && D[n] != [] && k < |D[n][0]|
  {
    D[n := D[n][0 := D[n][0][k := D[n][0][k].(ino := v)]]]
  }

  lemma SetInoKeeps(D: Dirs, n: nat, k: nat, v: nat)
    requires AllHeaded(D) && n in D && k < 2
    ensures AllHeaded(SetIno(D, n, k, v))
    ensures forall m :: Kids(SetIno(D, n, k, v), m) == Kids(D, m)
  {
    var E := SetIno(D, n, k, v);
    assert Drop(E[n][0], 2) == Drop(D[n][0], 2) && E[n][1..] == D[n][1..];
    forall m | m in E
      ensures Headed(E[m])
    {
      assert Headed(D[m]);
    }
  }

  lemma SetInoUnfolds(D: Dirs, n: nat, k: nat, v: nat, es: seq<Entry>, f: Forest)
    requires AllHeaded(D) && n in D && k < 2 && Unfolds(D, es, f)
    ensures Unfolds(SetIno(D, n, k, v), es, f)
  {
    SetInoKeeps(D, n, k, v);
    UnfoldsKeys(D, es, f);
    UnfoldsFrame(D, SetIno(D, n, k, v), es, f);
  }

  lemma SetInoSame(D: Dirs, n: nat, k: nat)
    requires n in D && D[n] != [] && k < |D[n][0]|
    ensures SetIno(D, n, k, D[n][0][k].ino) == D
  {
    var es := D[n][0];
    assert es[k := es[k]] == es;
    assert D[n][0 := es] == D[n];
  }
}
