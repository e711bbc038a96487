/** One call of tryAggregateProofs, seen by the other workers: its changes to the table are events of the protocol. */
module AggregationRuns {
  import opened ProofTable
  import opened AggregatorProtocol
  import opened Aggregation
  import opened AggregatorRuns

  /** The events of a worker that aggregates two proofs. */
  predicate OfAggregation(e: Event, w: nat) {
    && (e.FindPair? || e.LockPair? || e.AggregationFailed? || e.Aggregated? || e.DiscardVerified? || e.Unlock?
        || e.Offer? || e.Stop?)
    && e.w == w
  }

  /** A run of such events from `s`, after which the table is `t` and nothing but the worker's place is different. */
  ghost predicate Reaches(s: State, x: Trace, w: nat, pc: Pc, t: Table) {
    && Run(s, x.es, x.s, true) && (forall e <- x.es :: OfAggregation(e, w))
    && x.s.table == t && PcOf(x.s, w) == pc && x.s.verified == s.verified
    && (forall v | v != w :: PcOf(x.s, v) == PcOf(s, v))
  }

  /** Nobody is at the mutex, neither `w` nor the sender has a proof, and `w` may know less than is verified. */
  ghost predicate Ready(s: State, w: nat, verified: nat) {
    && WellFormed(s.table) && verified <= s.verified
    && w != SENDER && PcOf(s, w).Idle? && PcOf(s, SENDER).Idle? && MutexFree(s)
  }

  /** One more event of worker `w`, the hand-over excepted. */
  lemma Then(s: State, x: Trace, w: nat, e: Event) returns (y: Trace)
    requires Reaches(s, x, w, PcOf(x.s, w), x.s.table) && OfAggregation(e, w) && !e.Offer? && Enabled(x.s, e)
    ensures y == Trace(x.es + [e], Apply(x.s, e)) && Reaches(s, y, w, PcOf(y.s, w), y.s.table)
  {
    RunExtends(s, x.es, x.s, e, true);
    y := Trace(x.es + [e], Apply(x.s, e));
  }

  function Both(t: Table, p1: Range, p2: Range, locked: bool): Table {
    SetLock(SetLock(t, p1, locked), p2, locked)
  }

  lemma PairIsBoth(t: Table, t': Table, p1: Range, p2: Range, locked: bool)
    requires PairSet(t, t', p1, p2, locked)
    ensures t' == Both(t, p1, p2, locked)
  {
  }

  lemma LockingIsUndone(t: Table, p1: Range, p2: Range)
    requires Adjacent(t, p1, p2)
    ensures PairSet(t, Both(t, p1, p2, true), p1, p2, true)
    ensures Both(Both(t, p1, p2, true), p1, p2, false) == t
  {
  }

  /** The inputs are found and locked. */
  lemma LockIsRun(s: State, w: nat, p1: Range, p2: Range) returns (x: Trace)
    requires Ready(s, w, 0) && Adjacent(s.table, p1, p2)
    ensures Reaches(s, x, w, Aggregating(p1, p2), Both(s.table, p1, p2, true))
  {
    x := Trace([], s);
    x := Then(s, x, w, FindPair(w, p1, p2));
    x := Then(s, x, w, LockPair(w, true));
  }

  /** The aggregation is stored, and locked. */
  lemma MergeIsRun(s: State, w: nat, p1: Range, p2: Range) returns (x: Trace)
    requires Ready(s, w, 0) && Adjacent(s.table, p1, p2)
    ensures Reaches(s, x, w, Holding(Union(p1, p2)), Merge(Both(s.table, p1, p2, true), p1, p2))
  {
    x := LockIsRun(s, w, p1, p2);
    x := Then(s, x, w, Aggregated(w));
  }

  /** A table in which the inputs are replaced is the merged one, with the union unlocked or dropped. */
  lemma ReplacedIsMerged(t: Table, t': Table, p1: Range, p2: Range, verified: nat, locked: bool)
    requires WellFormed(t) && Adjacent(t, p1, p2) && Replaced(t, t', p1, p2, verified, locked)
    ensures
      var p, m := Union(p1, p2), Merge(Both(t, p1, p2, true), p1, p2);
      && (p in t' ==> t' == if locked then m else SetLock(m, p, false))
      && (p !in t' ==> p.hi <= verified && t' == DeleteInside(m, p.lo, p.hi))
  {
    var p, m := Union(p1, p2), Merge(Both(t, p1, p2, true), p1, p2);
    LockingIsUndone(t, p1, p2);
    MergeReplaces(t, Both(t, p1, p2, true), m, p1, p2);
    DiscardKeepsUnverified(m, p, verified);
  }

  /** The final proof of the union goes to the sender. */
  predicate ToSender(search: Search, lock: PairCalls, merge: MergeCalls, f: FinalCalls, verified: nat) {
    Locks(search, lock) && MergeLands(merge) && merge.commit.Committed? && HandedOver(f, search.p1, search.p2, verified)
  }

  /** The run ends with the table `t'` and worker `w` idle; the sender is at `sender`, the others did not move. */
  ghost predicate Ends(s: State, x: Trace, w: nat, t': Table, sender: Pc) {
    && Run(s, x.es, x.s, true) && (forall e <- x.es :: OfAggregation(e, w))
    && x.s.table == t' && x.s.verified == s.verified
    && PcOf(x.s, w).Idle? && PcOf(x.s, SENDER) == sender
    && (forall v | v != w && v != SENDER :: PcOf(x.s, v) == PcOf(s, v))
  }

  lemma FailureIsRun(s: State, w: nat, search: Search, lock: PairCalls, merge: MergeCalls, f: FinalCalls,
                     unlock: PairCalls, verified: nat, t': Table)
    returns (x: Trace)
    requires Ready(s, w, verified) && (search.Found? ==> Adjacent(s.table, search.p1, search.p2))
    requires Leaves(s.table, t', search, lock, merge, f, unlock, verified) && !(Locks(search, lock) && MergeLands(merge))
    ensures Ends(s, x, w, t', Idle)
  {
    x := Trace([], s);
    if search.Found? {
      if !PairLands(lock) {
        x := Then(s, x, w, FindPair(w, search.p1, search.p2));
        x := Then(s, x, w, LockPair(w, false));
      } else {
        LockingIsUndone(s.table, search.p1, search.p2);
        x := LockIsRun(s, w, search.p1, search.p2);
        if Locks(search, lock) && PairLands(unlock) {
          x := Then(s, x, w, AggregationFailed(w, true));
        } else {
          PairIsBoth(s.table, t', search.p1, search.p2, true);
          x := Then(s, x, w, if Locks(search, lock) then AggregationFailed(w, false) else Stop(w));
        }
      }
    }
  }

  /** The worker hands the union over to the sender. */
  lemma OfferIsRun(s: State, x0: Trace, w: nat, p: Range, t: Table) returns (x: Trace)
    requires Ready(s, w, 0) && Reaches(s, x0, w, Holding(p), t)
    ensures Ends(s, x, w, t, Holding(p))
  {
    RunExtends(s, x0.es, x0.s, Offer(w), true);
    x := Trace(x0.es + [Offer(w)], Apply(x0.s, Offer(w)));
  }

  /** The union is all verified and dropped. */
  lemma DropIsRun(s: State, x0: Trace, w: nat, p: Range, t: Table, acked: bool) returns (x: Trace)
    requires w != SENDER && Reaches(s, x0, w, Holding(p), t) && p.lo <= p.hi <= s.verified
    ensures Ends(s, x, w, DeleteInside(t, p.lo, p.hi), PcOf(s, SENDER))
  {
    x := Then(s, x0, w, DiscardVerified(w, true));
    assert p !in x.s.table;
    x := Then(s, x, w, if acked then Unlock(w, true) else Stop(w));
  }

  lemma SuccessIsRun(s: State, w: nat, p1: Range, p2: Range, merge: MergeCalls, f: FinalCalls, verified: nat, t': Table)
    returns (x: Trace)
    requires Ready(s, w, verified) && Adjacent(s.table, p1, p2)
    requires Replaced(s.table, t', p1, p2, verified, KeepsLock(merge, f, p1, p2, verified))
    ensures Ends(s, x, w, t',
                 if merge.commit.Committed? && HandedOver(f, p1, p2, verified) then Holding(Union(p1, p2)) else Idle)
  {
    var p := Union(p1, p2);
    ReplacedIsMerged(s.table, t', p1, p2, verified, KeepsLock(merge, f, p1, p2, verified));
    x := MergeIsRun(s, w, p1, p2);
    if p !in t' {
      x := DropIsRun(s, x, w, p, x.s.table, merge.commit.Committed?);
    } else if !merge.commit.Committed? {
      x := Then(s, x, w, Stop(w));
    } else if HandedOver(f, p1, p2, verified) {
      x := OfferIsRun(s, x, w, p, t');
    } else {
      x := Then(s, x, w, Unlock(w, !f.update.Lost?));
    }
  }

  /**
   Whatever its calls answer, a call of tryAggregateProofs that nobody interrupts is a run of the protocol, an orderly
   one, made of this worker's events: all that holds of the runs holds of it.
   */
  lemma TryAggregateIsRun(s: State, w: nat, search: Search, lock: PairCalls, merge: MergeCalls, f: FinalCalls,
                          unlock: PairCalls, verified: nat, t': Table)
    returns (x: Trace)
    requires Ready(s, w, verified) && (search.Found? ==> Adjacent(s.table, search.p1, search.p2))
    requires Leaves(s.table, t', search, lock, merge, f, unlock, verified)
    ensures Ends(s, x, w, t',
                 if ToSender(search, lock, merge, f, verified) then Holding(Union(search.p1, search.p2)) else Idle)
  {
    if Locks(search, lock) && MergeLands(merge) {
      x := SuccessIsRun(s, w, search.p1, search.p2, merge, f, verified, t');
    } else {
      x := FailureIsRun(s, w, search, lock, merge, f, unlock, verified, t');
    }
  }
}
