/** Which directory graphs the walks of correct.c come to an end on. */
module Acyclic {
  import opened DirBlock
  import opened Tree

  /** A directory that subdirectory links lead from back to itself. */
  ghost predicate OnCycle(D: Dirs, m: nat) {
    exists p :: |p| > 1 && Path(D, p, m, m)
  }

  /** Every directory that links lead to is there, and none is on a cycle. */
  ghost predicate Loopless(D: Dirs, root: nat) {
    forall m :: Reachable(D, root, m) ==> m in D && !OnCycle(D, m)
  }

  lemma ReachFurther(D: Dirs, a: nat, n: nat, m: nat)
    requires Reachable(D, a, n) && Link(D, n, m)
    ensures Reachable(D, a, m)
    ensures a == m ==> OnCycle(D, m)
  {
    var p :| Path(D, p, a, n);
    var q := p + [m];
    forall i | 0 <= i < |q| - 1
      ensures Link(D, q[i], q[i + 1])
    {
      if i < |p| - 1 { assert Link(D, p[i], p[i + 1]); }
    }
    assert Path(D, q, a, m);
  }

  /** Unfolds the entries `es` of directory `n`; `above` are the directories on the
      way from the root to `n`. */
  lemma {:induction false} Unfold(D: Dirs, root: nat, n: nat, above: set<nat>, es: seq<Entry>) returns (f: Forest)
    requires Loopless(D, root) && Reachable(D, root, n) && n in above
    requires (forall a :: a in above ==> Reachable(D, a, n)) && forall e :: e in es ==> e in Kids(D, n)
    ensures Unfolds(D, es, f)
    decreases D.Keys - above, |es|
  {
    if es == [] {
      f := Nil;
    } else if es[0].IsDir() {
      var m := es[0].ino;
      assert Link(D, n, m) by { assert es[0] in Kids(D, n); }
      ReachFurther(D, root, n, m);
      forall a | a in above
        ensures Reachable(D, a, m) && a != m
      {
        ReachFurther(D, a, n, m);
      }
      assert Reachable(D, m, m) by { assert Path(D, [m], m, m); }
      var kids := Unfold(D, root, m, above + {m}, Kids(D, m));
      var rest := Unfold(D, root, n, above, es[1..]);
      f := Dir(m, kids, rest);
    } else {
      f := Unfold(D, root, n, above, es[1..]);
    }
  }

  lemma {:induction false} LinkShrinks(D: Dirs, es: seq<Entry>, f: Forest, e: Entry) returns (h: Forest)
    requires Unfolds(D, es, f) && e in es && e.IsDir()
    ensures e.ino in D && Unfolds(D, Kids(D, e.ino), h) && Size(h) < Size(f)
    decreases f, |es|
  {
    if es[0].IsDir() {
      if e == es[0] { h := f.kids; } else { h := LinkShrinks(D, es[1..], f.rest, e); }
    } else {
      h := LinkShrinks(D, es[1..], f, e);
    }
  }

  /** Every link along a path leads to a smaller unfolding. */
  lemma {:induction false} PathShrinks(D: Dirs, p: seq<nat>, f: Forest) returns (h: Forest)
    requires |p| > 0 && p[0] in D && Unfolds(D, Kids(D, p[0]), f) && Path(D, p, p[0], p[|p| - 1])
    ensures p[|p| - 1] in D && Unfolds(D, Kids(D, p[|p| - 1]), h) && Size(h) + |p| - 1 <= Size(f)
    decreases |p|
  {
    if |p| == 1 {
      h := f;
    } else {
      assert Link(D, p[0], p[0 + 1]);
      var e :| e in Kids(D, p[0]) && e.IsDir() && e.ino == p[1];
      var g := LinkShrinks(D, Kids(D, p[0]), f, e);
      var q := p[1..];
      forall i | 0 <= i < |q| - 1
        ensures Link(D, q[i], q[i + 1])
      {
        assert Link(D, p[i + 1], p[i + 1 + 1]);
      }
      h := PathShrinks(D, q, g);
    }
  }

  /** The walk from `root` unfolds to a finite tree. */
  ghost predicate Ends(D: Dirs, root: nat) {
    exists f :: Unfolds(D, Kids(D, root), f)
  }

  /** A walk from `root` has an unfolding to follow, and so ends, exactly when the
      directories that links lead to exist and none is on a cycle. */
  lemma WalkEndsIff(D: Dirs, root: nat)
    requires root in D
    ensures Ends(D, root) <==> Loopless(D, root)
  {
    if Ends(D, root) {
      var f :| Unfolds(D, Kids(D, root), f);
      forall m | Reachable(D, root, m)
        ensures m in D && !OnCycle(D, m)
      {
        var p :| Path(D, p, root, m);
        var h := PathShrinks(D, p, f);
        if OnCycle(D, m) {
          var q :| |q| > 1 && Path(D, q, m, m);
          var k := PathShrinks(D, q, h);
          UnfoldsUnique(D, Kids(D, m), h, k);
        }
      }
    }
    if Loopless(D, root) {
      assert Path(D, [root], root, root);
      var f := Unfold(D, root, root, {root}, Kids(D, root));
    }
  }
}
