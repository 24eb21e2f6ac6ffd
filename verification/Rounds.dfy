/** The loop of pass2 on the decoded tree, round by round, whatever the orphans'
  numbers and their stale `..` are. */
module Rounds {
  import opened DirBlock
  import opened Disk
  import opened Tree
  import opened Acyclic
  import opened Dots
  import opened Walk
  import opened LostFound
  import opened Rescue

  /** What the loop carries from round to round: the directories and the counters. */
  datatype Round = Round(D: Dirs, cnt: seq<nat>)

  /** The tree that a walk from `n` follows. */
  ghost function TreeAt(D: Dirs, n: nat): Forest {
    if Ends(D, n) then
      var f :| Unfolds(D, Kids(D, n), f);
      f
    else Nil
  }

  lemma TreeAtIs(D: Dirs, n: nat, f: Forest)
    requires Unfolds(D, Kids(D, n), f)
    ensures Ends(D, n) && TreeAt(D, n) == f
  {
    UnfoldsUnique(D, Kids(D, n), f, TreeAt(D, n));
  }

  lemma TreeUnfolds(D: Dirs, n: nat)
    requires Ends(D, n)
    ensures Unfolds(D, Kids(D, n), TreeAt(D, n))
  {
  }

  /** Directory `n` with everything below it. */
  ghost function Under(D: Dirs, n: nat): Forest { Dir(n, TreeAt(D, n), Nil) }

  /** The test of the loop: allocated, with links, and a counter that reads zero. */
  ghost predicate Unreferenced(c: Case, s: Round, i: nat) {
    i in c.live && i < |s.cnt| && Char(s.cnt[i]) == 0
  }

  ghost function AddRefs(D: Dirs, f: Forest, cnt: seq<nat>): (r: seq<nat>)
    ensures |r| == |cnt|
  {
    seq(|cnt|, x requires 0 <= x < |cnt| => cnt[x] + Refs(D, f, x))
  }

  /** Before the first round the tree has been walked. */
  ghost function Start(c: Case): Round {
    Round(c.D0, seq(c.n + 1, x requires 0 <= x < c.n + 1 => Refs(c.D0, Whole(c.F0), x)))
  }

  ghost predicate CanMove(D: Dirs, lf: nat, i: nat) {
    lf in D && (i in D ==> Rewritable(D[i])) && i != lf
  }

  /** Round `i`: an unreferenced directory is walked, inner directories rescued before it
      included, and an unreferenced inode goes to lost+found. */
  ghost function NextRound(c: Case, s: Round, i: nat): Round {
    if !Unreferenced(c, s, i) || !CanMove(s.D, c.lf, i) then s
    else
      Round(Rescued(s.D, c.lf, i, 0, EntryFor(c, i)),
            if i in c.dirs then AddRefs(s.D, Under(c.D0, i), s.cnt) else s.cnt)
  }

  /** Before round `i`. */
  ghost function RoundAt(c: Case, i: nat): Round {
    if i <= 1 then Start(c) else NextRound(c, RoundAt(c, i - 1), i - 1)
  }

  /** The loop finds inode `i` unreferenced. */
  ghost predicate Missing(c: Case, i: nat) { Unreferenced(c, RoundAt(c, i), i) }

  /** The inodes from `k` on that pass2 puts into lost+found, in order. */
  ghost function ToRescue(c: Case, k: nat): seq<nat>
    decreases c.n + 1 - k
  {
    if k > c.n then [] else (if Missing(c, k) then [k] else []) + ToRescue(c, k + 1)
  }

  /** lost+found after the entries of `ks`. */
  ghost function InsertAll(c: Case, bs: seq<seq<Entry>>, ks: seq<nat>): seq<seq<Entry>>
    decreases |ks|
  {
    if ks == [] then bs else InsertAll(c, Inserted(bs, 0, EntryFor(c, ks[0])), ks[1..])
  }

  /** Every entry finds room: the block it settles on has a complete chain, and in
      a later block a directory does not land among the first two entries (where
      the next run of pass1 would take it for a dot entry). */
  ghost predicate HasRoom(c: Case, bs: seq<seq<Entry>>, ks: seq<nat>)
    decreases |ks|
  {
    ks == [] || (
      var e := EntryFor(c, ks[0]);
      var cs := Inserted(bs, 0, e);
      Lands(bs, 0, e) && Headed(cs) && HasRoom(c, cs, ks[1..]))
  }

  /** An inode the loop may find unreferenced: a directory whose walk ends and does not
      come to lost+found, with a first record of 12 bytes; or no directory at all. */
  ghost predicate Rescuable(c: Case, i: nat) {
    if i in c.dirs then
      i in c.D0 && Rewritable(c.D0[i]) && Ends(c.D0, i) && c.lf !in Nodes(Under(c.D0, i))
    else i !in c.D0
  }

  /** The directory's first block holds an entry. */
  predicate Begun(bs: seq<seq<Entry>>) { |bs| > 0 && bs[0] != [] }

  /** What a run of the loop needs: nothing about the order of the orphans or about
      their second entries. */
  ghost predicate Runnable(c: Case) {
    && ROOT_INO in c.D0 && Unfolds(c.D0, Kids(c.D0, ROOT_INO), c.F0)
    && c.lf in c.D0 && c.lf in Nodes(c.F0) && c.lf != ROOT_INO && 0 < c.lf <= c.n && Begun(c.D0[c.lf])
    && InRange(c.D0, c.n + 1) && (forall i :: i in c.live ==> 1 <= i <= c.n)
    && (forall i :: i in c.live && Missing(c, i) ==> Rescuable(c, i))
  }

  lemma RootStays(c: Case)
    requires Runnable(c)
    ensures !Missing(c, ROOT_INO) && !Missing(c, c.lf)
  {
    TreeAtIs(c.D0, ROOT_INO, c.F0);
    assert c.lf in Nodes(Under(c.D0, ROOT_INO));
    assert c.lf in Nodes(Under(c.D0, c.lf));
  }

  /** What a round leaves as it was. */
  ghost predicate Kept(c: Case, i: nat, s: Round) {
    && |s.cnt| == c.n + 1 && s.D.Keys == c.D0.Keys && InRange(s.D, c.n + 1) && c.lf in s.D && Begun(s.D[c.lf])
    && (forall n :: n != c.lf ==> Kids(s.D, n) == Kids(c.D0, n))
    && (forall n :: n in c.D0 && n != c.lf ==>
          if n < i && Missing(c, n) then |c.D0[n]| > 0 && |c.D0[n][0]| > 1 && s.D[n] == SetIno(c.D0, n, 1, c.lf)[n]
          else s.D[n] == c.D0[n])
  }

  lemma {:induction false} RoundKeeps(c: Case, i: nat)
    requires Runnable(c) && 1 <= i
    ensures Kept(c, i, RoundAt(c, i))
  {
    hide *;
    if i == 1 {
      StartKept(c);
      AtStart(c);
    } else {
      RoundKeeps(c, i - 1);
      RoundFollows(c, i - 1);
      if Missing(c, i - 1) {
        MovedKept(c, i - 1, RoundAt(c, i - 1));
      } else {
        RoundSkips(c, i - 1);
        SkippedKept(c, i - 1, RoundAt(c, i - 1));
      }
    }
  }

  lemma AtStart(c: Case)
    ensures RoundAt(c, 1) == Start(c)
  {
  }

  lemma SkippedKept(c: Case, i: nat, s: Round)
    requires Kept(c, i, s) && !Missing(c, i)
    ensures Kept(c, i + 1, s)
  {
    hide Missing, InRange, Kids;
  }

  lemma StartKept(c: Case)
    requires Runnable(c)
    ensures Kept(c, 1, Start(c))
  {
    hide Missing, InRange;
    forall n | n in c.D0
      ensures !(n < 1 && Missing(c, n))
    {
      if Missing(c, n) { MissingLive(c, n); }
    }
  }

  lemma {:induction false} OnTheList(c: Case, k: nat, i: nat)
    ensures i in ToRescue(c, k) <==> k <= i <= c.n && Missing(c, i)
    decreases c.n + 1 - k
  {
    if k <= c.n { OnTheList(c, k + 1, i); }
  }

  lemma MissingIs(c: Case, i: nat)
    requires Missing(c, i)
    ensures Unreferenced(c, RoundAt(c, i), i)
  {
  }

  lemma MissingLive(c: Case, i: nat)
    requires Missing(c, i)
    ensures i in c.live
  {
  }

  /** A rescuable inode can be moved. */
  lemma RoundFollows(c: Case, i: nat)
    requires Runnable(c) && 1 <= i && Kept(c, i, RoundAt(c, i))
    ensures RoundAt(c, i + 1) == NextRound(c, RoundAt(c, i), i)
    ensures Missing(c, i) <==> Unreferenced(c, RoundAt(c, i), i)
    ensures Missing(c, i) ==> i in c.live && Rescuable(c, i) && i != c.lf && CanMove(RoundAt(c, i).D, c.lf, i)
    ensures Missing(c, i) && i in c.D0 ==> RoundAt(c, i).D[i] == c.D0[i]
  {
    hide RoundAt, InRange, NextRound, Unfolds;
    RoundStep(c, i);
    if Missing(c, i) { RootStays(c); }
  }

  lemma RoundStep(c: Case, i: nat)
    requires 1 <= i
    ensures RoundAt(c, i + 1) == NextRound(c, RoundAt(c, i), i)
  {
  }

  lemma RoundSkips(c: Case, i: nat)
    requires 1 <= i && !Missing(c, i)
    ensures RoundAt(c, i + 1) == RoundAt(c, i)
  {
  }

  lemma MovedKept(c: Case, i: nat, s: Round)
    requires Runnable(c) && Kept(c, i, s) && Missing(c, i) && Unreferenced(c, s, i) && CanMove(s.D, c.lf, i)
    requires i in c.D0 ==> s.D[i] == c.D0[i]
    ensures Kept(c, i + 1, NextRound(c, s, i))
  {
    hide Missing, Inserted, InRange, Unfolds, Rescuable, Kids, Under, AddRefs;
    var t := NextRound(c, s, i);
    assert 1 <= i <= c.n && 0 < c.lf <= c.n;
    hide Runnable;
    MovedInRange(s.D, c.lf, EntryFor(c, i), c.n + 1);
    StillBegun(s.D[c.lf], EntryFor(c, i));
    forall n | n != c.lf
      ensures Kids(t.D, n) == Kids(c.D0, n)
    {
      MovedBelow(s.D, c.lf, EntryFor(c, i), n);
    }
  }

  lemma StillBegun(bs: seq<seq<Entry>>, e: Entry)
    requires Begun(bs)
    ensures Begun(Inserted(bs, 0, e))
  {
  }

  /** A rescue leaves what the other directories hold below their dots. */
  lemma MovedBelow(D: Dirs, lf: nat, e: Entry, n: nat)
    requires CanMove(D, lf, e.ino) && n != lf
    ensures Kids(Rescued(D, lf, e.ino, 0, e), n) == Kids(D, n)
  {
    hide Inserted;
    if n == e.ino && n in D {
      var E := Rescued(D, lf, n, 0, e);
      assert Drop(E[n][0], 2) == Drop(D[n][0], 2) && E[n][1..] == D[n][1..];
    }
  }

  lemma MovedInRange(D: Dirs, lf: nat, e: Entry, limit: nat)
    requires CanMove(D, lf, e.ino) && InRange(D, limit) && 0 < e.ino < limit && 0 < lf < limit
    ensures InRange(Rescued(D, lf, e.ino, 0, e), limit)
  {
    hide Slot, Fits, Spliceable;
    var E := Rescued(D, lf, e.ino, 0, e);
    forall n, i | n in E && 0 <= i < |E[n]|
      ensures ListInRange(E[n][i], limit)
    {
      assert ListInRange(D[n][i], limit);
      if n == lf { SpliceOrInRange(D[lf][i], e, limit); }
    }
  }

  lemma SpliceOrInRange(es: seq<Entry>, e: Entry, limit: nat)
    requires ListInRange(es, limit) && 0 < e.ino < limit
    ensures ListInRange(SpliceOr(es, e), limit)
  {
  }

  /** What the loop knows when it is about to rescue inode `i`. */
  lemma RoundReady(c: Case, i: nat)
    requires Runnable(c) && 1 <= i && Missing(c, i)
    ensures var D := RoundAt(c, i).D;
            && i in c.live && Rescuable(c, i) && CanMove(D, c.lf, i) && i != ROOT_INO && ROOT_INO in D &&
               D[ROOT_INO] == c.D0[ROOT_INO]
            && (i in D <==> i in c.dirs) && InRange(D, c.n + 1) && c.lf in D
            && (i in D ==> Rewritable(D[i]) && Unfolds(D, Kids(D, i), TreeAt(c.D0, i)))
  {
    hide Missing, InRange, RoundAt;
    RoundKeeps(c, i);
    RoundFollows(c, i);
    RootStays(c);
    var D := RoundAt(c, i).D;
    if i in c.dirs {
      TreeUnfolds(c.D0, i);
      UnfoldsKeys(c.D0, Kids(c.D0, i), TreeAt(c.D0, i));
      UnfoldsFrame(c.D0, D, Kids(c.D0, i), TreeAt(c.D0, i));
    }
  }

  lemma RootUntouched(c: Case, i: nat)
    requires Runnable(c) && 1 <= i
    ensures ROOT_INO in RoundAt(c, i).D && RoundAt(c, i).D[ROOT_INO] == c.D0[ROOT_INO]
  {
    hide Missing, RoundAt;
    RoundKeeps(c, i);
    RootStays(c);
  }
}
