/** tryAggregateProofs and its helpers (aggregator/aggregator.go:468-754) on the proof table, call by call. */
module Aggregation {
  import opened Wrappers
  import opened ProofTable

  datatype Error =
    | NotFound | QueryError | BeginError | UpdateError | RollbackError | CommitError
    | MarshalError | ProverError | WaitError | DeleteError | AddError

  /** A commit, or a statement outside a transaction, succeeds, is lost, or takes effect although the caller gets an error. */
  datatype Commit = Committed | Lost | Unacknowledged

  /** What the search for two proofs to aggregate answers. */
  datatype Search = Found(p1: Range, p2: Range) | NothingFound | SearchFailed

  /** The calls of the transactions that lock and unlock a pair of rows. */
  datatype PairCalls = PairCalls(beginOk: bool, update1Ok: bool, update2Ok: bool, rollbackOk: bool, commit: Commit)

  /** The calls between locking the inputs and having stored their aggregation. */
  datatype MergeCalls = MergeCalls(
    marshalOk: bool, aggregatedProofOk: bool, waitOk: bool,
    beginOk: bool, deleteOk: bool, addOk: bool, rollbackOk: bool, commit: Commit)

  /** What becomes of the aggregated proof: too early to verify one, a failure to build one, or a final proof sent on. */
  datatype FinalProof = NotNow | NotBuilt | Built

  /** The calls once the aggregation is stored. */
  datatype FinalCalls = FinalCalls(final: FinalProof, complete: bool, discarded: bool, update: Commit)

  predicate PairLands(c: PairCalls) {
    c.beginOk && c.update1Ok && c.update2Ok && !c.commit.Lost?
  }

  predicate Locks(search: Search, c: PairCalls) {
    search.Found? && PairLands(c) && c.commit.Committed?
  }

  predicate MergeLands(c: MergeCalls) {
    c.marshalOk && c.aggregatedProofOk && c.waitOk && c.beginOk && c.deleteOk && c.addOk && !c.commit.Lost?
  }

  function Fails(ok: bool, e: Error): Option<Error> {
    if ok then None else Some(e)
  }

  /** Two stored, unlocked and adjacent ranges, as GetProofsToAggregate selects them. */
  predicate Adjacent(t: Table, p1: Range, p2: Range) {
    && p1 in t && !t[p1] && p2 in t && !t[p2]
    && p1.hi == p2.lo - 1
  }

  function Union(p1: Range, p2: Range): Range {
    Range(p1.lo, p2.hi)
  }

  /** The two rows, where stored, have this lock and nothing else differs. */
  ghost predicate PairSet(t: Table, t': Table, p1: Range, p2: Range, locked: bool) {
    && t'.Keys == t.Keys
    && (forall r <- t :: t'[r] == if r == p1 || r == p2 then locked else t[r])
  }

  /** `p1` and `p2` are replaced by their union, unless that is all verified and was dropped. */
  ghost predicate Replaced(t: Table, t': Table, p1: Range, p2: Range, verified: nat, locked: bool) {
    var p := Union(p1, p2);
    && (t'.Keys == t.Keys - {p1, p2} + {p} || (p.hi <= verified && t'.Keys == t.Keys - {p1, p2}))
    && (p in t' ==> t'[p] == locked)
    && (forall r <- t | r != p1 && r != p2 :: r in t' && t'[r] == t[r])
  }

  ghost predicate SameCoverage(t: Table, t': Table, verified: nat) {
    forall b :: verified < b ==> (Covered(t', b) <==> Covered(t, b))
  }

  /** A final proof is under way for the union: it keeps its lock. */
  predicate HandedOver(f: FinalCalls, p1: Range, p2: Range, verified: nat) {
    f.final.Built? && f.complete && Covers(Union(p1, p2), verified + 1)
  }

  /** What tryAggregateProofs leaves of the table `t`, for every combination of outcomes of its calls. */
  ghost predicate Leaves(t: Table, t': Table, search: Search, lock: PairCalls, merge: MergeCalls, f: FinalCalls,
                         unlock: PairCalls, verified: nat)
  {
    // the inputs are never locked: nothing changed
    && (!search.Found? || !PairLands(lock) ==> t' == t)
    // locked, but the caller was told otherwise: both stay locked
    && (search.Found? && PairLands(lock) && !lock.commit.Committed? ==> PairSet(t, t', search.p1, search.p2, true))
    // locked, and a call up to the commit fails: as before, or both locked if the unlocking did not land either
    && (Locks(search, lock) && !MergeLands(merge) ==>
          if PairLands(unlock) then t' == t else PairSet(t, t', search.p1, search.p2, true))
    // otherwise the inputs are replaced by their union, locked while a final proof is under way or the unlocking failed
    && (Locks(search, lock) && MergeLands(merge) ==>
          Replaced(t, t', search.p1, search.p2, verified, KeepsLock(merge, f, search.p1, search.p2, verified)))
  }

  predicate KeepsLock(merge: MergeCalls, f: FinalCalls, p1: Range, p2: Range, verified: nat) {
    !merge.commit.Committed? || f.update.Lost? || HandedOver(f, p1, p2, verified)
  }

  class Aggregator {
    var table: Table
    /** The last verified batch as the synchronizer stored it. */
    var verified: nat

    /** Lines 468-498: a proof is eligible when it covers the next batch to verify and ends with a sequence. */
    method ValidateEligibleFinalProof(p: Range, complete: bool, deleteOk: bool) returns (eligible: bool)
      requires p.lo <= p.hi
      modifies this`table
      ensures eligible <==> Covers(p, verified + 1) && complete
      ensures table == if p.hi <= verified && deleteOk then DeleteInside(old(table), p.lo, p.hi) else old(table)
    {
      var toVerify := verified + 1;
      if p.lo != toVerify {
        if p.lo < toVerify && p.hi >= toVerify {
          // batches below the last verified one do not matter
        } else if p.hi < toVerify {
          if deleteOk {
            table := DeleteInside(table, p.lo, p.hi);
          }
          return false;
        } else {
          return false;
        }
      }
      eligible := complete;
    }

    /** Lines 553-598: find two proofs and lock both rows in one transaction. */
    method GetAndLockProofsToAggregate(search: Search, c: PairCalls) returns (pair: Option<(Range, Range)>, err: Option<Error>)
      requires search.Found? ==> Adjacent(table, search.p1, search.p2)
      modifies this`table
      ensures err.None? <==> search.Found? && PairLands(c) && c.commit.Committed?
      ensures err == Some(NotFound) <==> search.NothingFound?
      ensures pair == if err.None? then Some((search.p1, search.p2)) else None
      ensures if search.Found? && PairLands(c) then PairSet(old(table), table, search.p1, search.p2, true) else table == old(table)
    {
      if !search.Found? {
        return None, Some(if search.NothingFound? then NotFound else QueryError);
      }
      if !c.beginOk {
        return None, Some(BeginError);
      }
      var tx := table;
      err := Fails(c.update1Ok, UpdateError);
      if err.None? {
        tx := SetLock(tx, search.p1, true);
        err := Fails(c.update2Ok, UpdateError);
        if err.None? {
          tx := SetLock(tx, search.p2, true);
        }
      }
      if err.Some? {
        return None, if c.rollbackOk then err else Some(RollbackError);
      }
      if !c.commit.Lost? {
        table := tx;
      }
      if !c.commit.Committed? {
        return None, Some(CommitError);
      }
      return Some((search.p1, search.p2)), None;
    }

    /** Lines 521-551: unlock both rows in one transaction. */
    method UnlockProofsToAggregate(p1: Range, p2: Range, c: PairCalls) returns (err: Option<Error>)
      modifies this`table
      ensures err.None? <==> PairLands(c) && c.commit.Committed?
      ensures if PairLands(c) then PairSet(old(table), table, p1, p2, false) else table == old(table)
    {
      if !c.beginOk {
        return Some(BeginError);
      }
      var tx := table;
      err := Fails(c.update1Ok, UpdateError);
      if err.None? {
        tx := SetLock(tx, p1, false);
        err := Fails(c.update2Ok, UpdateError);
        if err.None? {
          tx := SetLock(tx, p2, false);
        }
      }
      if err.Some? {
        return if c.rollbackOk then err else Some(RollbackError);
      }
      if !c.commit.Lost? {
        table := tx;
      }
      err := Fails(c.commit.Committed?, CommitError);
    }

    /**
     Lines 631-724: prove the aggregation, then swap the rows in one transaction.  `err` is the variable the deferred
     function looks at, `returned` the error the caller gets: after a failed rollback these differ.
     */
    method ReplaceByAggregation(p1: Range, p2: Range, c: MergeCalls) returns (returned: Option<Error>, err: Option<Error>)
      modifies this`table
      ensures table == if MergeLands(c) then Merge(old(table), p1, p2) else old(table)
      ensures err.None? <==> MergeLands(c) && c.commit.Committed?
      ensures returned.None? <==> err.None?
    {
      err := Fails(c.marshalOk, MarshalError);
      if err.Some? {
        return err, err;
      }
      err := Fails(c.aggregatedProofOk, ProverError);
      if err.Some? {
        return err, err;
      }
      err := Fails(c.waitOk, WaitError);
      if err.Some? {
        return err, err;
      }
      err := Fails(c.beginOk, BeginError);
      if err.Some? {
        return err, err;
      }
      var tx := table;
      err := Fails(c.deleteOk, DeleteError);
      if err.Some? {
        var rollback := Fails(c.rollbackOk, RollbackError);
        if rollback.Some? {
          return rollback, err;
        }
        return err, err;
      }
      tx := DeleteInside(tx, p1.lo, p2.hi);
      err := Fails(c.addOk, AddError);
      if err.Some? {
        var rollback := Fails(c.rollbackOk, RollbackError);
        if rollback.Some? {
          return rollback, err;
        }
        return err, err;
      }
      tx := tx[Union(p1, p2) := true];
      if !c.commit.Lost? {
        table := tx;
      }
      err := Fails(c.commit.Committed?, CommitError);
      return err, err;
    }

    /** Lines 729-753: try to build the final proof, and unlock the aggregation if that was not done. */
    method Finish(p1: Range, p2: Range, f: FinalCalls) returns (generated: bool, returned: Option<Error>)
      requires p1.lo <= p2.hi && WellFormed(table) && Union(p1, p2) in table && table[Union(p1, p2)]
      modifies this`table
      ensures WellFormed(table) && SameCoverage(old(table), table, verified)
      ensures table.Keys == old(table).Keys || (p2.hi <= verified && table.Keys == old(table).Keys - {Union(p1, p2)})
      ensures Union(p1, p2) in table ==> table[Union(p1, p2)] == (f.update.Lost? || HandedOver(f, p1, p2, verified))
      ensures forall r <- table | r != Union(p1, p2) :: table[r] == old(table)[r]
      ensures generated <==> f.update.Committed? || HandedOver(f, p1, p2, verified)
      ensures returned.None? <==> generated
    {
      var p := Union(p1, p2);
      var built := false;
      if !f.final.NotNow? {
        var eligible := ValidateEligibleFinalProof(p, f.complete, f.discarded);
        built := eligible && f.final.Built?;
      }
      DiscardKeepsUnverified(old(table), p, verified);
      ghost var kept := table;
      if !built {
        if !f.update.Lost? {
          table := SetLock(table, p, false);
          KeysKeepCoverage(kept, table, verified);
        }
        if !f.update.Committed? {
          return false, Some(UpdateError);
        }
      }
      return true, None;
    }

    /** Lines 617-754, with both inputs locked: the deferred function unlocks them if the captured error is set. */
    method AggregateLocked(p1: Range, p2: Range, merge: MergeCalls, f: FinalCalls, unlock: PairCalls, ghost before: Table)
      returns (generated: bool, returned: Option<Error>)
      requires WellFormed(before) && Adjacent(before, p1, p2) && PairSet(before, table, p1, p2, true)
      modifies this`table
      ensures WellFormed(table) && SameCoverage(before, table, verified)
      ensures !MergeLands(merge) ==> if PairLands(unlock) then table == before else table == old(table)
      ensures MergeLands(merge) ==>
        Replaced(before, table, p1, p2, verified, KeepsLock(merge, f, p1, p2, verified))
      ensures generated <==>
        MergeLands(merge) && merge.commit.Committed? && (f.update.Committed? || HandedOver(f, p1, p2, verified))
      ensures returned.None? <==> generated
    {
      ghost var locked := table;
      KeysKeepCoverage(before, locked, verified);
      var err: Option<Error>;
      returned, err := ReplaceByAggregation(p1, p2, merge);
      if MergeLands(merge) {
        MergeReplaces(before, locked, table, p1, p2);
      }
      generated := false;
      ghost var merged := table;
      if returned.None? {
        generated, returned := Finish(p1, p2, f);
        FinishReplaces(before, merged, table, p1, p2, verified);
      }
      if err.Some? {
        var _ := UnlockProofsToAggregate(p1, p2, unlock);
        if PairLands(unlock) {
          UnlockRestores(before, locked, merged, table, p1, p2, MergeLands(merge));
        }
      }
    }

    /** Lines 600-754: what is left in the table for every combination of outcomes. */
    method TryAggregateProofs(search: Search, lock: PairCalls, merge: MergeCalls, f: FinalCalls, unlock: PairCalls)
      returns (generated: bool, returned: Option<Error>)
      requires WellFormed(table)
      requires search.Found? ==> Adjacent(table, search.p1, search.p2)
      modifies this`table
      ensures WellFormed(table)
      // in no case does a batch that still needs verification gain or lose its proof
      ensures SameCoverage(old(table), table, verified)
      ensures Leaves(old(table), table, search, lock, merge, f, unlock, verified)
      ensures generated <==>
        && Locks(search, lock) && MergeLands(merge) && merge.commit.Committed?
        && (f.update.Committed? || HandedOver(f, search.p1, search.p2, verified))
      ensures returned.None? <==> generated || search.NothingFound?
    {
      var pair, err0 := GetAndLockProofsToAggregate(search, lock);
      KeysKeepCoverage(old(table), table, verified);
      if err0 == Some(NotFound) {
        return false, None;
      }
      if err0.Some? {
        return false, err0;
      }
      generated, returned := AggregateLocked(pair.value.0, pair.value.1, merge, f, unlock, old(table));
    }
  }

  lemma KeysKeepCoverage(t: Table, t': Table, verified: nat)
    requires t'.Keys == t.Keys
    ensures WellFormed(t) ==> WellFormed(t')
    ensures SameCoverage(t, t', verified)
  {
    assert forall r :: r in t' <==> r in t;
  }

  /** Unlocking restores a pair that is still stored and misses one that is not. */
  lemma UnlockRestores(before: Table, locked: Table, t: Table, t': Table, p1: Range, p2: Range, merged: bool)
    requires Adjacent(before, p1, p2) && PairSet(before, locked, p1, p2, true) && PairSet(t, t', p1, p2, false)
    requires if merged then p1 !in t && p2 !in t else t == locked
    ensures t' == if merged then t else before
  {
  }

  /** Dropping or unlocking the union afterwards keeps it a replacement. */
  lemma FinishReplaces(before: Table, merged: Table, t: Table, p1: Range, p2: Range, verified: nat)
    requires merged.Keys == before.Keys - {p1, p2} + {Union(p1, p2)} && Union(p1, p2) !in before
    requires forall r <- before | r != p1 && r != p2 :: r in merged && merged[r] == before[r]
    requires t.Keys == merged.Keys || (p2.hi <= verified && t.Keys == merged.Keys - {Union(p1, p2)})
    requires forall r <- t | r != Union(p1, p2) :: t[r] == merged[r]
    ensures forall locked: bool :: (Union(p1, p2) in t ==> t[Union(p1, p2)] == locked) ==> Replaced(before, t, p1, p2, verified, locked)
  {
  }

  /** The only rows inside the union of two adjacent ranges are these two. */
  lemma OnlyTheInputsInside(t: Table, p1: Range, p2: Range)
    requires WellFormed(t) && p1 in t && p2 in t && p1.hi == p2.lo - 1
    ensures forall r <- t | r != p1 && r != p2 :: Disjoint(r, Union(p1, p2)) && !Inside(r, p1.lo, p2.hi)
    ensures Inside(p1, p1.lo, p2.hi) && Inside(p2, p1.lo, p2.hi)
  {
    forall r | r in t && r != p1 && r != p2
      ensures Disjoint(r, Union(p1, p2)) && !Inside(r, p1.lo, p2.hi)
    {
      assert Disjoint(r, p1) && Disjoint(r, p2);
    }
  }

  /** The committed transaction replaces the two inputs and covers exactly what they covered. */
  lemma MergeReplaces(before: Table, locked: Table, after: Table, p1: Range, p2: Range)
    requires WellFormed(before) && Adjacent(before, p1, p2)
    requires PairSet(before, locked, p1, p2, true) && after == Merge(locked, p1, p2)
    ensures WellFormed(after)
    ensures Union(p1, p2) in after && after[Union(p1, p2)]
    ensures p1 !in after && p2 !in after && Union(p1, p2) !in before
    ensures after.Keys == before.Keys - {p1, p2} + {Union(p1, p2)}
    ensures forall r <- before | r != p1 && r != p2 :: r in after && after[r] == before[r]
    ensures forall b :: Covered(after, b) <==> Covered(before, b)
  {
    OnlyTheInputsInside(before, p1, p2);
    forall b
      ensures Covered(after, b) <==> Covered(before, b)
    {
      UnionCovers(before, after, p1, p2, b);
    }
  }

  lemma UnionCovers(before: Table, after: Table, p1: Range, p2: Range, b: nat)
    requires p1 in before && p2 in before && p1.lo <= p1.hi == p2.lo - 1 && p2.lo <= p2.hi
    requires after.Keys == before.Keys - {p1, p2} + {Union(p1, p2)}
    ensures Covered(after, b) <==> Covered(before, b)
  {
    if Covered(before, b) {
      var r :| r in before && Covers(r, b);
      assert r in {p1, p2} ==> Covers(Union(p1, p2), b);
    }
    if Covered(after, b) {
      var r :| r in after && Covers(r, b);
      assert r == Union(p1, p2) ==> Covers(p1, b) || Covers(p2, b);
    }
  }

  lemma DiscardKeepsUnverified(t: Table, p: Range, verified: nat)
    requires WellFormed(t) && p in t
    ensures WellFormed(DeleteInside(t, p.lo, p.hi)) && DeleteInside(t, p.lo, p.hi).Keys == t.Keys - {p}
    ensures p.hi <= verified ==> SameCoverage(t, DeleteInside(t, p.lo, p.hi), verified)
  {
    var t' := DeleteInside(t, p.lo, p.hi);
    assert forall r <- t | r != p :: Disjoint(r, p);
    forall b | p.hi <= verified < b ensures Covered(t', b) <==> Covered(t, b) {
      if Covered(t, b) {
        var r :| r in t && Covers(r, b);
        assert r in t';
      }
    }
  }
}
