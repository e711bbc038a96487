/** Runs of the aggregator protocol: what all of them keep, and why the two hypotheses are needed. */
module AggregatorRuns {
  import opened ProofTable
  import opened AggregatorProtocol
  import opened AggregatorRows

  /** The aggregator starts on a table of disjoint proofs, with nobody at work. */
  ghost predicate Initial(s: State) {
    WellFormed(s.table) && s.workers == map[] && s.dropped <= s.verified
  }

  /** The events `es`, each enabled (and orderly, when asked), lead from `s` to `s'`. */
  ghost predicate Run(s: State, es: seq<Event>, s': State, orderly: bool)
    decreases es
  {
    if es == [] then s == s'
    else Enabled(s, es[0]) && (orderly ==> Orderly(s, es[0])) && Run(Apply(s, es[0]), es[1..], s', orderly)
  }

  lemma {:induction false} RunExtends(s: State, es: seq<Event>, s': State, e: Event, orderly: bool)
    requires Run(s, es, s', orderly) && Enabled(s', e) && (orderly ==> Orderly(s', e))
    ensures Run(s, es + [e], Apply(s', e), orderly)
    decreases es
  {
    if es == [] {
      assert (es + [e])[1..] == [];
    } else {
      assert (es + [e])[1..] == es[1..] + [e];
      RunExtends(Apply(s, es[0]), es[1..], s', e, orderly);
    }
  }

  lemma {:induction false} RunKeepsExclusive(s: State, es: seq<Event>, s': State)
    requires Exclusive(s) && s.dropped <= s.verified && Run(s, es, s', true)
    ensures Exclusive(s') && s'.dropped <= s'.verified
    decreases es
  {
    if es != [] {
      ApplyKeepsExclusive(s, es[0]);
      RunKeepsExclusive(Apply(s, es[0]), es[1..], s');
    }
  }

  /** In every orderly run stored ranges stay disjoint and no two workers, sender included, hold a common batch. */
  lemma ExclusiveProving(s: State, es: seq<Event>, s': State, w: nat, v: nat, r: Range, q: Range)
    requires Initial(s) && Run(s, es, s', true)
    requires w in s'.workers && r in Claims(s'.workers[w])
    requires v in s'.workers && q in Claims(s'.workers[v])
    ensures forall x, y :: x in s'.table && y in s'.table && x != y ==> Disjoint(x, y)
    ensures w != v || r != q ==> Disjoint(r, q)
    ensures HasLock(s'.workers[w]) && s'.dropped < r.hi ==> r in s'.table && s'.table[r]
  {
    RunKeepsExclusive(s, es, s');
    assert Backed(s', s'.workers[w], r);
  }

  // ---------- Unverified work is conserved ----------

  lemma MergeKeepsCoverage(s: State, w: nat, b: nat)
    requires Exclusive(s) && Enabled(s, Aggregated(w)) && s.dropped < b
    ensures Covered(Apply(s, Aggregated(w)).table, b) <==> Covered(s.table, b)
  {
    var s' := Apply(s, Aggregated(w));
    var Aggregating(p1, p2) := PcOf(s, w);
    var p := Range(p1.lo, p2.hi);
    MergeIsWellFormed(s, w, p1, p2);
    assert PcOk(s, s.workers[w]);
    assert Backed(s, s.workers[w], p1) && Backed(s, s.workers[w], p2);
    if Covered(s.table, b) {
      var r :| r in s.table && Covers(r, b);
      assert Covers(if r == p1 || r == p2 then p else r, b);
    }
    if Covered(s'.table, b) {
      var r :| r in s'.table && Covers(r, b);
      assert r == p ==> Covers(p1, b) || Covers(p2, b);
      assert r != p ==> r in s.table;
    }
  }

  /** The batch whose proof was just started. */
  predicate Covering(s: State, e: Event, b: nat) {
    e.AddBatch? && PcOf(s, e.w).FoundBatch? && e.ok && PcOf(s, e.w).batch == b
  }

  /** The batches of a proof that failed, or whose lock was stale. */
  predicate Uncovering(s: State, e: Event, b: nat) {
    || (e.ProofFailed? && PcOf(s, e.w).Proving? && e.ok && Covers(PcOf(s, e.w).p, b))
    || (e.CleanupLocked? && exists r <- e.stale :: Covers(r, b))
  }

  lemma SetLockKeepsCoverage(t: Table, p: Range, locked: bool, b: nat)
    ensures Covered(SetLock(t, p, locked), b) <==> Covered(t, b)
  {
    assert SetLock(t, p, locked).Keys == t.Keys;
    if Covered(t, b) { var r :| r in t && Covers(r, b); assert r in SetLock(t, p, locked); }
    if Covered(SetLock(t, p, locked), b) { var r :| r in SetLock(t, p, locked) && Covers(r, b); assert r in t; }
  }

  /** Dropping rows keeps the coverage of a batch none of the dropped rows covers. */
  lemma DeletionKeepsCoverage(t: Table, t': Table, b: nat)
    requires forall r <- t' :: r in t
    requires forall r <- t :: Covers(r, b) ==> r in t'
    ensures Covered(t', b) <==> Covered(t, b)
  {
  }

  /** No other event changes which unverified batches stored proofs cover. */
  lemma OthersKeepCoverage(s: State, e: Event, b: nat)
    requires Exclusive(s) && s.dropped <= s.verified && Enabled(s, e) && !Covering(s, e, b) && !Uncovering(s, e, b)
    requires Apply(s, e).verified < b
    ensures Covered(Apply(s, e).table, b) <==> Covered(s.table, b)
  {
    var s' := Apply(s, e);
    match e
    case Aggregated(w) => MergeKeepsCoverage(s, w, b);
    case LockPair(w, _) =>
      SetLockKeepsCoverage(s.table, PcOf(s, w).p1, true, b);
      SetLockKeepsCoverage(SetLock(s.table, PcOf(s, w).p1, true), PcOf(s, w).p2, true, b);
    case AggregationFailed(w, _) =>
      SetLockKeepsCoverage(s.table, PcOf(s, w).p1, false, b);
      SetLockKeepsCoverage(SetLock(s.table, PcOf(s, w).p1, false), PcOf(s, w).p2, false, b);
    case LockReady(w, _) => SetLockKeepsCoverage(s.table, PcOf(s, w).p, true, b);
    case Unlock(w, _) => SetLockKeepsCoverage(s.table, PcOf(s, w).p, false, b);
    case AddBatch(w, ok) =>
      if ok {
        var n := PcOf(s, w).batch;
        assert s'.table == s.table[Range(n, n) := true];
        if Covered(s.table, b) { var r :| r in s.table && Covers(r, b); assert r in s'.table; }
        if Covered(s'.table, b) { var r :| r in s'.table && Covers(r, b); assert r in s.table; }
      }
    case ProofFailed(_, _) | DiscardVerified(_, _) | Cleanup(_) | CleanupLocked(_) =>
      DeletionKeepsCoverage(s.table, s'.table, b);
    case _ =>
  }

  /** A deleted row was the only one to cover its batches. */
  lemma RemovedWasAlone(s: State, e: Event, p: Range, r: Range)
    requires Exclusive(s) && Enabled(s, e) && (e.ProofFailed? || e.CleanupLocked?) && Removes(s, e, p)
    requires r in Apply(s, e).table
    ensures Disjoint(r, p)
  {
    RowsAfter(s, e, r);
    if e.ProofFailed? {
      RowIsClaimedOrApart(s, e.w, p, r);
    }
  }

  lemma RemovedIsUncovered(s: State, e: Event, p: Range, b: nat)
    requires Exclusive(s) && Enabled(s, e) && (e.ProofFailed? || e.CleanupLocked?) && Removes(s, e, p) && Covers(p, b)
    ensures !Covered(Apply(s, e).table, b)
  {
    forall r <- Apply(s, e).table ensures !Covers(r, b) {
      RemovedWasAlone(s, e, p, r);
    }
  }

  /**
   The stored proofs cover an unverified batch after an event exactly when its proof was just started, or they covered it
   before and its proof neither failed nor lost a stale lock.
   */
  lemma CoverageIsConserved(s: State, e: Event, b: nat)
    requires Exclusive(s) && s.dropped <= s.verified && Enabled(s, e) && Apply(s, e).verified < b
    ensures Covered(Apply(s, e).table, b) <==> Covering(s, e, b) || (Covered(s.table, b) && !Uncovering(s, e, b))
  {
    if Covering(s, e, b) {
      RowsAfter(s, e, Range(b, b));
    } else if Uncovering(s, e, b) {
      if e.ProofFailed? {
        RemovedIsUncovered(s, e, PcOf(s, e.w).p, b);
      } else {
        var p :| p in e.stale && Covers(p, b);
        RemovedIsUncovered(s, e, p, b);
      }
    } else {
      OthersKeepCoverage(s, e, b);
    }
  }

  // ---------- Every lock is somebody's ----------

  /** No event of the run gives up a locked row without freeing it. */
  ghost predicate Tidy(s: State, es: seq<Event>)
    decreases es
  {
    es != [] ==> (forall r :: !LeavesLock(s, es[0], r)) && (Enabled(s, es[0]) ==> Tidy(Apply(s, es[0]), es[1..]))
  }

  lemma {:induction false} RunLeavesNoLock(s: State, es: seq<Event>, s': State, r: Range)
    requires Exclusive(s) && s.dropped <= s.verified && Run(s, es, s', true) && Tidy(s, es)
    ensures Stray(s', r) ==> Stray(s, r)
    decreases es
  {
    if es != [] {
      ApplyKeepsExclusive(s, es[0]);
      assert !LeavesLock(s, es[0], r);
      StrayIff(s, es[0], r);
      RunLeavesNoLock(Apply(s, es[0]), es[1..], s', r);
    }
  }

  /**
   In every orderly run in which no worker gives up a row without freeing it, a locked row has a worker on it, or was
   locked before the run: no batch is stuck.
   */
  lemma LocksAreHeld(s: State, es: seq<Event>, s': State, r: Range)
    requires Initial(s) && Run(s, es, s', true) && Tidy(s, es)
    requires r in s'.table && s'.table[r] && !(r in s.table && s.table[r])
    ensures exists w :: HasLock(PcOf(s', w)) && r in Claims(PcOf(s', w))
  {
    RunLeavesNoLock(s, es, s', r);
    var w :| HoldsLock(s', w, r);
    assert HasLock(PcOf(s', w)) && r in Claims(PcOf(s', w));
  }

  // ---------- Why the hypotheses are needed ----------

  const BOOT := State(map[], map[], 0, 0)
  const FIRST := Range(1, 1)

  datatype Trace = Trace(es: seq<Event>, s: State)

  lemma Do(x: Trace, e: Event, s: State) returns (y: Trace)
    requires Run(BOOT, x.es, x.s, false) && Enabled(x.s, e) && Apply(x.s, e) == s
    ensures Run(BOOT, y.es, y.s, false) && y == Trace(x.es + [e], s)
  {
    RunExtends(BOOT, x.es, x.s, e, false);
    y := Trace(x.es + [e], s);
  }

  lemma FirstProver() returns (x: Trace)
    ensures Run(BOOT, x.es, x.s, false)
    ensures x.s == State(map[FIRST := true], map[1 := Proving(FIRST)], 0, 0)
  {
    x := Trace([], BOOT);
    x := Do(x, ReadLastVerified(1), BOOT.(workers := map[1 := ReadVerified(0)]));
    x := Do(x, FindBatch(1, 1), BOOT.(workers := map[1 := FoundBatch(0, 1)]));
    x := Do(x, AddBatch(1, true), State(map[FIRST := true], map[1 := Proving(FIRST)], 0, 0));
  }

  /** The first prover's row is gone and a second prover looks for work. */
  lemma SecondProver(x0: Trace) returns (x: Trace)
    requires Run(BOOT, x0.es, x0.s, false) && x0.s.table == map[]
    requires PcOf(x0.s, 1) == Proving(FIRST) && PcOf(x0.s, 2) == ReadVerified(0)
    ensures Run(BOOT, x.es, x.s, false)
    ensures PcOf(x.s, 1) == Proving(FIRST) && PcOf(x.s, 2) == Proving(FIRST)
  {
    var s := Moved(x0.s, 2, FoundBatch(0, 1));
    x := Do(x0, FindBatch(2, 1), s);
    x := Do(x, AddBatch(2, true), Moved(s, 2, Proving(FIRST)).(table := map[FIRST := true]));
  }

  /** A lock cleaned up while its prover is still running: two provers work on the same batch. */
  lemma CleanedLockIsTakenAgain() returns (x: Trace)
    ensures Initial(BOOT) && Run(BOOT, x.es, x.s, false)
    ensures PcOf(x.s, 1) == Proving(FIRST) && PcOf(x.s, 2) == Proving(FIRST)
  {
    x := FirstProver();
    var s := x.s.(table := map[]);
    x := Do(x, CleanupLocked({FIRST}), s);
    x := Do(x, ReadLastVerified(2), Moved(s, 2, ReadVerified(0)));
    x := SecondProver(x);
  }

  /** A last verified batch read before a cleanup and used after it: the same happens. */
  lemma StaleReadingIsTakenAgain() returns (x: Trace)
    ensures Initial(BOOT) && Run(BOOT, x.es, x.s, false)
    ensures PcOf(x.s, 1) == Proving(FIRST) && PcOf(x.s, 2) == Proving(FIRST)
  {
    x := FirstProver();
    var s := Moved(x.s, 2, ReadVerified(0));
    x := Do(x, ReadLastVerified(2), s);
    x := Do(x, VerifiedUpTo(1), s.(verified := 1));
    x := Do(x, Cleanup(1), s.(verified := 1, dropped := 1, table := map[]));
    x := SecondProver(x);
  }
}
