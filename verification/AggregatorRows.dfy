/** What each event of the aggregator protocol does to each row of the proof table, and who answers for the locks. */
module AggregatorRows {
  import opened ProofTable
  import opened AggregatorProtocol

  // ---------- Row by row ----------

  predicate Removes(s: State, e: Event, r: Range) {
    match e
    case ProofFailed(w, ok) => ok && PcOf(s, w) == Proving(r)
    case Aggregated(w) => PcOf(s, w).Aggregating? && (r == PcOf(s, w).p1 || r == PcOf(s, w).p2)
    case DiscardVerified(w, ok) => ok && PcOf(s, w) == Holding(r)
    case Cleanup(n) => r.hi <= n
    case CleanupLocked(stale) => r in stale
    case _ => false
  }

  predicate Adds(s: State, e: Event, r: Range) {
    match e
    case AddBatch(w, ok) => ok && PcOf(s, w).FoundBatch? && r.lo == r.hi == PcOf(s, w).batch
    case Aggregated(w) => PcOf(s, w).Aggregating? && r.lo == PcOf(s, w).p1.lo && r.hi == PcOf(s, w).p2.hi
    case _ => false
  }

  predicate Locks(s: State, e: Event, r: Range) {
    match e
    case LockPair(w, ok) => ok && PcOf(s, w).FoundPair? && (r == PcOf(s, w).p1 || r == PcOf(s, w).p2)
    case LockReady(w, ok) => ok && PcOf(s, w) == FoundReady(r)
    case _ => false
  }

  predicate Unlocks(s: State, e: Event, r: Range) {
    match e
    case AggregationFailed(w, ok) => ok && PcOf(s, w).Aggregating? && (r == PcOf(s, w).p1 || r == PcOf(s, w).p2)
    case Unlock(w, ok) => ok && PcOf(s, w) == Holding(r)
    case _ => false
  }

  lemma AggregatedRows(s: State, e: Event, r: Range)
    requires Exclusive(s) && Enabled(s, e) && e.Aggregated?
    ensures r in Apply(s, e).table <==> (r in s.table && !Removes(s, e, r)) || Adds(s, e, r)
    ensures r in Apply(s, e).table ==> (Apply(s, e).table[r] <==> Adds(s, e, r) || s.table[r])
  {
    var Aggregating(p1, p2) := PcOf(s, e.w);
    MergeIsWellFormed(s, e.w, p1, p2);
    assert PcOk(s, s.workers[e.w]);
    assert Backed(s, s.workers[e.w], p1) && Backed(s, s.workers[e.w], p2);
  }

  lemma DeletedRows(s: State, e: Event, r: Range)
    requires Exclusive(s) && Enabled(s, e) && (e.ProofFailed? || e.DiscardVerified?)
    ensures r in Apply(s, e).table <==> r in s.table && !Removes(s, e, r)
    ensures r in Apply(s, e).table ==> Apply(s, e).table[r] == s.table[r]
  {
    var p := PcOf(s, e.w).p;
    assert Backed(s, s.workers[e.w], p);
    if r in s.table {
      RowIsClaimedOrApart(s, e.w, p, r);
      assert r.lo <= r.hi;
    }
  }

  /** The table after an event, row by row: deletes by range hit the worker's own rows only, and locks change as meant. */
  lemma RowsAfter(s: State, e: Event, r: Range)
    requires Exclusive(s) && Enabled(s, e)
    ensures r in Apply(s, e).table <==> (r in s.table && !Removes(s, e, r)) || Adds(s, e, r)
    ensures r in Apply(s, e).table ==>
      (Apply(s, e).table[r] <==> Adds(s, e, r) || (Locks(s, e, r) || (s.table[r] && !Unlocks(s, e, r))))
  {
    match e
    case Aggregated(_) => AggregatedRows(s, e, r);
    case ProofFailed(_, _) | DiscardVerified(_, _) => DeletedRows(s, e, r);
    case _ =>
  }

  // ---------- Who answers for a lock ----------

  predicate HoldsLock(s: State, w: nat, r: Range) {
    HasLock(PcOf(s, w)) && r in Claims(PcOf(s, w))
  }

  /** A locked row nobody works on: only the clean-up of stale locks frees its batches. */
  ghost predicate Stray(s: State, r: Range) {
    r in s.table && s.table[r] && forall w :: !HoldsLock(s, w, r)
  }

  /** The worker gives up its row and the statement that would free it fails or is never made. */
  predicate LeavesLock(s: State, e: Event, r: Range) {
    && (e.Stop? || ((e.ProofFailed? || e.AggregationFailed? || e.Unlock?) && !e.ok))
    && HoldsLock(s, e.w, r) && r in s.table
  }

  lemma HeldIsLocked(s: State, w: nat, r: Range)
    requires Exclusive(s) && HoldsLock(s, w, r) && r in s.table
    ensures s.table[r] && forall v | v != w :: !HoldsLock(s, v, r)
  {
    assert Backed(s, s.workers[w], r);
    forall v | v != w ensures !HoldsLock(s, v, r) {
      if HoldsLock(s, v, r) {
        NobodyElseClaims(s, w, v, r);
      }
    }
  }

  lemma LeftIsStray(s: State, e: Event, r: Range)
    requires Exclusive(s) && Enabled(s, e) && LeavesLock(s, e, r)
    ensures Stray(Apply(s, e), r) && !Stray(s, r)
  {
    var s' := Apply(s, e);
    HeldIsLocked(s, e.w, r);
    assert forall v :: HoldsLock(s', v, r) ==> v != e.w && HoldsLock(s, v, r);
  }

  /** A worker that holds a lock and keeps holding it, or passes it on. */
  lemma HeldStaysHeld(s: State, e: Event, r: Range, w: nat) returns (v: nat)
    requires Exclusive(s) && Enabled(s, e) && HoldsLock(s, w, r) && r in s.table && !LeavesLock(s, e, r)
    requires r in Apply(s, e).table && Apply(s, e).table[r]
    ensures HoldsLock(Apply(s, e), v, r)
  {
    HeldIsLocked(s, w, r);
    RowsAfter(s, e, r);
    v := if e.Offer? && e.w == w then SENDER else w;
  }

  /** A row that is added or locked is held by the worker that did it. */
  lemma TakenIsHeld(s: State, e: Event, r: Range)
    requires Enabled(s, e) && (Adds(s, e, r) || Locks(s, e, r))
    ensures HoldsLock(Apply(s, e), e.w, r)
  {
  }

  /** An event leaves a locked row without a worker exactly when a worker gives up its row and does not free it. */
  lemma StrayIff(s: State, e: Event, r: Range)
    requires Exclusive(s) && Enabled(s, e)
    ensures Stray(Apply(s, e), r) && !Stray(s, r) <==> LeavesLock(s, e, r)
  {
    if LeavesLock(s, e, r) {
      LeftIsStray(s, e, r);
    } else if Stray(Apply(s, e), r) && !Stray(s, r) {
      RowsAfter(s, e, r);
      if Adds(s, e, r) || Locks(s, e, r) {
        TakenIsHeld(s, e, r);
      } else {
        var w :| HoldsLock(s, w, r);
        var v := HeldStaysHeld(s, e, r, w);
      }
    }
  }
}
