/**
 The aggregator's workers (aggregator/aggregator.go) sharing the proof table.  Any number of workers look for
 work under the state mutex, prove or aggregate outside it, and hand finished ranges to the one sender.  Each
 event is one statement on the table, so a run may interleave the workers between any two statements.
 */
module AggregatorProtocol {
  import opened ProofTable
  import opened Wrappers

  datatype Pc =
    | Idle
    | ReadVerified(verified: nat)
    | FoundBatch(verified: nat, batch: nat)
    | Proving(p: Range)
    | FoundPair(p1: Range, p2: Range)
    | Aggregating(p1: Range, p2: Range)
    | FoundReady(p: Range)
    | Holding(p: Range)

  /** The ranges a worker is working on, or is about to lock. */
  function Claims(pc: Pc): set<Range> {
    match pc
    case Proving(p) => {p}
    case FoundReady(p) => {p}
    case Holding(p) => {p}
    case FoundPair(p1, p2) => {p1, p2}
    case Aggregating(p1, p2) => {p1, p2}
    case _ => {}
  }

  predicate HasLock(pc: Pc) {
    pc.Proving? || pc.Aggregating? || pc.Holding?
  }

  predicate InMutex(pc: Pc) {
    pc.ReadVerified? || pc.FoundBatch? || pc.FoundPair? || pc.FoundReady?
  }

  /** The sender of final proofs takes part as a worker that only ever holds. */
  const SENDER := 0

  /**
   `verified` is the last batch verified on L1, `dropped` the highest batch whose proofs were dropped because it
   was verified.
   */
  datatype State = State(table: Table, workers: map<nat, Pc>, verified: nat, dropped: nat)

  function PcOf(s: State, w: nat): Pc {
    if w in s.workers then s.workers[w] else Idle
  }

  function Moved(s: State, w: nat, pc: Pc): State {
    s.(workers := s.workers[w := pc])
  }

  datatype Event =
    | ReadLastVerified(w: nat)
    | FindBatch(w: nat, batch: nat)
    | AddBatch(w: nat, ok: bool)
    | FindPair(w: nat, p1: Range, p2: Range)
    | LockPair(w: nat, ok: bool)
    | FindReady(w: nat, p: Range)
    | LockReady(w: nat, ok: bool)
    | NothingFound(w: nat)
    | Proved(w: nat)
    | ProofFailed(w: nat, ok: bool)
    | AggregationFailed(w: nat, ok: bool)
    | Aggregated(w: nat)
    | DiscardVerified(w: nat, ok: bool)
    | Unlock(w: nat, ok: bool)
    | Offer(w: nat)
    | Stop(w: nat)
    | Cleanup(n: nat)
    | CleanupLocked(stale: set<Range>)
    | VerifiedUpTo(n: nat)

  ghost predicate MutexFree(s: State) {
    forall w <- s.workers :: !InMutex(s.workers[w])
  }

  ghost predicate Enabled(s: State, e: Event) {
    match e
    case ReadLastVerified(w) => w != SENDER && PcOf(s, w).Idle? && MutexFree(s)
    case FindBatch(w, b) => PcOf(s, w).ReadVerified? && PcOf(s, w).verified < b && !Covered(s.table, b)
    case AddBatch(w, ok) => PcOf(s, w).FoundBatch? && (ok ==> Range(PcOf(s, w).batch, PcOf(s, w).batch) !in s.table)
    case FindPair(w, p1, p2) =>
      && w != SENDER && PcOf(s, w).Idle? && MutexFree(s)
      && p1 in s.table && !s.table[p1] && p2 in s.table && !s.table[p2] && p1.hi == p2.lo - 1
    case LockPair(w, _) => PcOf(s, w).FoundPair?
    case FindReady(w, p) => w != SENDER && PcOf(s, w).Idle? && MutexFree(s) && p in s.table && !s.table[p]
    case LockReady(w, _) => PcOf(s, w).FoundReady?
    case NothingFound(w) => InMutex(PcOf(s, w))
    case Proved(w) => PcOf(s, w).Proving?
    case ProofFailed(w, _) => PcOf(s, w).Proving?
    case AggregationFailed(w, _) => PcOf(s, w).Aggregating?
    case Aggregated(w) => PcOf(s, w).Aggregating?
    case DiscardVerified(w, _) => PcOf(s, w).Holding? && PcOf(s, w).p.hi <= s.verified
    case Unlock(w, _) => PcOf(s, w).Holding?
    case Offer(w) => w != SENDER && PcOf(s, w).Holding? && PcOf(s, SENDER).Idle?
    case Stop(w) => true
    case Cleanup(n) => n <= s.verified
    case CleanupLocked(stale) => forall r <- stale :: r in s.table && s.table[r]
    case VerifiedUpTo(n) => s.verified <= n
  }

  ghost function Apply(s: State, e: Event): State
    requires Enabled(s, e)
  {
    match e
    case ReadLastVerified(w) => Moved(s, w, ReadVerified(s.verified))
    case FindBatch(w, b) => Moved(s, w, FoundBatch(PcOf(s, w).verified, b))
    case AddBatch(w, ok) =>
      var p := Range(PcOf(s, w).batch, PcOf(s, w).batch);
      if ok then Moved(s, w, Proving(p)).(table := s.table[p := true]) else Moved(s, w, Idle)
    case FindPair(w, p1, p2) => Moved(s, w, FoundPair(p1, p2))
    case LockPair(w, ok) =>
      var pc := PcOf(s, w);
      if ok then Moved(s, w, Aggregating(pc.p1, pc.p2)).(table := SetLock(SetLock(s.table, pc.p1, true), pc.p2, true))
      else Moved(s, w, Idle)
    case FindReady(w, p) => Moved(s, w, FoundReady(p))
    case LockReady(w, ok) =>
      var p := PcOf(s, w).p;
      if ok then Moved(s, w, Holding(p)).(table := SetLock(s.table, p, true)) else Moved(s, w, Idle)
    case NothingFound(w) => Moved(s, w, Idle)
    case Proved(w) => Moved(s, w, Holding(PcOf(s, w).p))
    case ProofFailed(w, ok) =>
      var p := PcOf(s, w).p;
      Moved(s, w, Idle).(table := if ok then DeleteInside(s.table, p.lo, p.hi) else s.table)
    case AggregationFailed(w, ok) =>
      var pc := PcOf(s, w);
      Moved(s, w, Idle).(table := if ok then SetLock(SetLock(s.table, pc.p1, false), pc.p2, false) else s.table)
    case Aggregated(w) =>
      var pc := PcOf(s, w);
      Moved(s, w, Holding(Range(pc.p1.lo, pc.p2.hi))).(table := Merge(s.table, pc.p1, pc.p2))
    case DiscardVerified(w, ok) =>
      var p := PcOf(s, w).p;
      if ok then s.(table := DeleteInside(s.table, p.lo, p.hi), dropped := Max(s.dropped, p.hi)) else s
    case Unlock(w, ok) =>
      Moved(s, w, Idle).(table := if ok then SetLock(s.table, PcOf(s, w).p, false) else s.table)
    case Offer(w) => Moved(Moved(s, SENDER, PcOf(s, w)), w, Idle)
    case Stop(w) => Moved(s, w, Idle)
    case Cleanup(n) => s.(table := CleanupUpTo(s.table, n), dropped := Max(s.dropped, n))
    case CleanupLocked(stale) => s.(table := map r | r in s.table && r !in stale :: s.table[r])
    case VerifiedUpTo(n) => s.(verified := n)
  }

  // ---------- Exclusive proving ----------

  /** A claimed range whose row was dropped as verified; nothing stored overlaps it. */
  ghost predicate Orphan(s: State, r: Range) {
    r.hi <= s.dropped && forall q <- s.table :: Disjoint(q, r)
  }

  /** A claim is backed by its row, locked once the worker is past the mutex, or its batches are verified. */
  ghost predicate Backed(s: State, pc: Pc, r: Range) {
    && r.lo <= r.hi
    && ((r in s.table && (HasLock(pc) ==> s.table[r])) || Orphan(s, r))
  }

  ghost predicate PcOk(s: State, pc: Pc) {
    && (forall r <- Claims(pc) :: Backed(s, pc, r))
    && (pc.FoundPair? || pc.Aggregating? ==> pc.p1.hi + 1 == pc.p2.lo)
    && (pc.FoundBatch? ==> pc.verified < pc.batch && (pc.batch <= s.dropped || !Covered(s.table, pc.batch)))
  }

  ghost predicate Apart(s: State) {
    forall w, v, r, q ::
      w in s.workers && v in s.workers && r in Claims(s.workers[w]) && q in Claims(s.workers[v]) && (w != v || r != q)
      ==> Disjoint(r, q)
  }

  ghost predicate Exclusive(s: State) {
    && WellFormed(s.table)
    && (forall w <- s.workers :: PcOk(s, s.workers[w]))
    && Apart(s)
    && (forall w, v :: w in s.workers && v in s.workers && InMutex(s.workers[w]) && InMutex(s.workers[v]) ==> w == v)
  }

  ghost predicate Abandoned(s: State, stale: set<Range>) {
    forall w, r :: w in s.workers && r in Claims(s.workers[w]) && r in stale ==> r.hi <= s.dropped
  }

  /**
   Locks are cleaned up only when nobody is working on them any more, or their batches are verified, and the batch that
   is added is above everything that was cleaned up as verified.
   */
  ghost predicate Orderly(s: State, e: Event) {
    && (e.CleanupLocked? ==> Abandoned(s, e.stale))
    && (e.AddBatch? && e.ok && PcOf(s, e.w).FoundBatch? ==> s.dropped < PcOf(s, e.w).batch)
  }

  /** Worker `w` moves to `pc`, the table becomes `t`, and everybody else stays where they are. */
  ghost predicate Change(s: State, w: nat, pc: Pc, t: Table, s': State) {
    && s' == Moved(s, w, pc).(table := t)
    && WellFormed(t)
    && PcOk(s', pc)
    && (forall v <- s.workers | v != w :: PcOk(s', s.workers[v]))
    && (InMutex(pc) && !InMutex(PcOf(s, w)) ==> MutexFree(s))
  }

  /** `w` claims nothing new. */
  lemma NarrowingKeepsExclusive(s: State, w: nat, pc: Pc, t: Table, s': State)
    requires Exclusive(s) && Change(s, w, pc, t, s') && Claims(pc) <= Claims(PcOf(s, w))
    ensures Exclusive(s')
  {
  }

  /** What `w` claims at `pc` is apart from itself and from every other claim. */
  ghost predicate Fresh(s: State, w: nat, pc: Pc) {
    && (forall v, r, q :: v in s.workers && v != w && q in Claims(s.workers[v]) && r in Claims(pc) ==> Disjoint(r, q))
    && (forall r, q :: r in Claims(pc) && q in Claims(pc) && r != q ==> Disjoint(r, q))
  }

  lemma ClaimingKeepsApart(s: State, w: nat, pc: Pc, t: Table)
    requires Apart(s) && Fresh(s, w, pc)
    ensures Apart(Moved(s, w, pc).(table := t))
  {
    var s' := Moved(s, w, pc).(table := t);
    forall x, y, r, q | x in s'.workers && y in s'.workers && r in Claims(s'.workers[x]) && q in Claims(s'.workers[y])
                        && (x != y || r != q)
      ensures Disjoint(r, q)
    {
      if x != w && y != w {
        assert x in s.workers && y in s.workers && r in Claims(s.workers[x]) && q in Claims(s.workers[y]);
      }
    }
  }

  lemma ClaimingKeepsExclusive(s: State, w: nat, pc: Pc, t: Table, s': State)
    requires Exclusive(s) && Change(s, w, pc, t, s') && Fresh(s, w, pc)
    ensures Exclusive(s')
  {
    ClaimingKeepsApart(s, w, pc, t);
  }

  /** An unlocked row is nobody's claim while the mutex is free. */
  lemma UnlockedIsUnclaimed(s: State, p: Range, v: nat, q: Range)
    requires Exclusive(s) && MutexFree(s) && p in s.table && !s.table[p]
    requires v in s.workers && q in Claims(s.workers[v])
    ensures Disjoint(p, q)
  {
    assert Backed(s, s.workers[v], q);
  }

  /** Rows only `w` claims may be locked, unlocked or deleted without disturbing anybody else. */
  ghost predicate OwnRows(s: State, w: nat, t: Table) {
    && WellFormed(t)
    && (forall r <- t :: r in s.table)
    && (forall r <- s.table :: r !in t || t[r] != s.table[r] ==> r in Claims(PcOf(s, w)))
  }

  lemma NobodyElseClaims(s: State, w: nat, v: nat, q: Range)
    requires Exclusive(s) && v in s.workers && v != w && q in Claims(s.workers[v])
    ensures q !in Claims(PcOf(s, w)) && Backed(s, s.workers[v], q)
  {
    assert Backed(s, s.workers[v], q);
    assert w in s.workers && q in Claims(s.workers[w]) ==> Disjoint(q, q);
  }

  lemma OwnRowsDisturbNobody(s: State, w: nat, pc: Pc, t: Table, v: nat)
    requires Exclusive(s) && OwnRows(s, w, t) && v in s.workers && v != w
    ensures PcOk(Moved(s, w, pc).(table := t), s.workers[v])
  {
    var s' := Moved(s, w, pc).(table := t);
    forall q <- Claims(s.workers[v]) ensures Backed(s', s.workers[v], q) {
      NobodyElseClaims(s, w, v, q);
    }
  }

  lemma OwnRowsKeepExclusive(s: State, w: nat, pc: Pc, t: Table)
    requires Exclusive(s) && OwnRows(s, w, t) && Claims(pc) <= Claims(PcOf(s, w)) && !InMutex(pc)
    requires PcOk(Moved(s, w, pc).(table := t), pc)
    ensures Exclusive(Moved(s, w, pc).(table := t))
  {
    forall v <- s.workers | v != w ensures PcOk(Moved(s, w, pc).(table := t), s.workers[v]) {
      OwnRowsDisturbNobody(s, w, pc, t, v);
    }
    NarrowingKeepsExclusive(s, w, pc, t, Moved(s, w, pc).(table := t));
  }

  lemma LocalKeepsExclusive(s: State, e: Event)
    requires Exclusive(s) && Enabled(s, e)
    requires e.ReadLastVerified? || e.FindBatch? || e.NothingFound? || e.Proved? || e.Stop? || (e.AddBatch? && !e.ok)
    ensures Exclusive(Apply(s, e))
  {
    var s' := Apply(s, e);
    forall v <- s.workers | v != e.w ensures PcOk(s', s.workers[v]) {
      OwnRowsDisturbNobody(s, e.w, s'.workers[e.w], s.table, v);
    }
    assert forall r <- Claims(s'.workers[e.w]) :: Backed(s, PcOf(s, e.w), r);
    NarrowingKeepsExclusive(s, e.w, s'.workers[e.w], s.table, s');
  }

  lemma LockKeepsExclusive(s: State, e: Event)
    requires Exclusive(s) && Enabled(s, e)
    requires e.LockPair? || e.LockReady? || e.AggregationFailed? || e.Unlock?
    ensures Exclusive(Apply(s, e))
  {
    var s' := Apply(s, e);
    OwnRowsKeepExclusive(s, e.w, s'.workers[e.w], s'.table);
  }

  lemma FindKeepsExclusive(s: State, e: Event)
    requires Exclusive(s) && Enabled(s, e) && (e.FindPair? || e.FindReady?)
    ensures Exclusive(Apply(s, e))
  {
    var s' := Apply(s, e);
    var pc := s'.workers[e.w];
    forall v <- s.workers | v != e.w ensures PcOk(s', s.workers[v]) {
      OwnRowsDisturbNobody(s, e.w, pc, s.table, v);
    }
    forall v, r, q | v in s.workers && q in Claims(s.workers[v]) && r in Claims(pc) ensures Disjoint(r, q) {
      UnlockedIsUnclaimed(s, r, v, q);
    }
    ClaimingKeepsExclusive(s, e.w, pc, s.table, s');
  }

  lemma AddKeepsExclusive(s: State, w: nat)
    requires Exclusive(s) && Enabled(s, AddBatch(w, true)) && s.dropped < PcOf(s, w).batch
    ensures Exclusive(Apply(s, AddBatch(w, true)))
  {
    var s' := Apply(s, AddBatch(w, true));
    var pc, b := s'.workers[w], PcOf(s, w).batch;
    assert forall r <- s.table :: !Covers(r, b);
    forall v <- s.workers | v != w ensures PcOk(s', s.workers[v]) {
      assert forall q <- Claims(s.workers[v]) :: Backed(s, s.workers[v], q);
    }
    forall v, q | v in s.workers && v != w && q in Claims(s.workers[v]) ensures Disjoint(pc.p, q) {
      assert Backed(s, s.workers[v], q);
    }
    ClaimingKeepsExclusive(s, w, pc, s'.table, s');
  }

  /** The worker at `w` found `batch` on this reading, with this table and this much cleaned up. */
  ghost predicate Sees(s: State, w: nat, t: Table, dropped: nat, reading: nat, batch: nat) {
    && Exclusive(s) && s.table == t && s.dropped == dropped
    && PcOf(s, w) == FoundBatch(reading, batch)
  }

  /** A state in which the same add gives two rows the batch. */
  lemma AddOverRow(t: Table, dropped: nat, reading: nat, batch: nat, r: Range) returns (s: State)
    requires WellFormed(t) && Range(batch, batch) !in t && reading < batch <= dropped
    requires r in t && Covers(r, batch)
    ensures Sees(s, 1, t, dropped, reading, batch) && !Exclusive(Apply(s, AddBatch(1, true)))
  {
    s := State(t, map[1 := FoundBatch(reading, batch)], dropped, dropped);
    var t' := Apply(s, AddBatch(1, true)).table;
    assert r in t' && Range(batch, batch) in t' && !Disjoint(r, Range(batch, batch));
  }

  lemma SharedClaim(s: State, w: nat, v: nat, p: Range)
    requires w in s.workers && v in s.workers && w != v && p.lo <= p.hi
    requires p in Claims(s.workers[w]) && p in Claims(s.workers[v])
    ensures !Exclusive(s)
  {
    assert !Disjoint(p, p);
  }

  /** A state in which it gives two workers the batch. */
  lemma AddOverWorker(t: Table, dropped: nat, reading: nat, batch: nat) returns (s: State)
    requires WellFormed(t) && !Covered(t, batch) && reading < batch <= dropped
    ensures Sees(s, 1, t, dropped, reading, batch) && Enabled(s, AddBatch(1, true)) && !Exclusive(Apply(s, AddBatch(1, true)))
  {
    var p := Range(batch, batch);
    s := State(t, map[1 := FoundBatch(reading, batch), 2 := Proving(p)], dropped, dropped);
    assert forall q <- t :: !Covers(q, batch);
    assert Orphan(s, p);
    SharedClaim(Apply(s, AddBatch(1, true)), 1, 2, p);
  }

  /**
   From what a worker can see, the table, its reading and how much was cleaned up, adding a batch is safe whatever
   the others are doing exactly when the batch is above what was cleaned up.
   */
  lemma AddIsSafeIff(t: Table, dropped: nat, reading: nat, batch: nat)
    requires WellFormed(t) && Range(batch, batch) !in t && reading < batch
    ensures (forall s, w | Sees(s, w, t, dropped, reading, batch) :: Exclusive(Apply(s, AddBatch(w, true))))
      <==> dropped < batch
  {
    if dropped < batch {
      forall s, w | Sees(s, w, t, dropped, reading, batch)
        ensures Exclusive(Apply(s, AddBatch(w, true)))
      {
        AddKeepsExclusive(s, w);
      }
    } else {
      if r :| r in t && Covers(r, batch) {
        var s := AddOverRow(t, dropped, reading, batch, r);
      } else {
        var s := AddOverWorker(t, dropped, reading, batch);
      }
    }
  }

  /** A stored row is claimed by `w` or apart from what `w` claims. */
  lemma RowIsClaimedOrApart(s: State, w: nat, p: Range, r: Range)
    requires Exclusive(s) && w in s.workers && p in Claims(s.workers[w]) && r in s.table
    ensures r == p || Disjoint(r, p)
  {
    assert Backed(s, s.workers[w], p);
  }

  lemma MergeIsWellFormed(s: State, w: nat, p1: Range, p2: Range)
    requires Exclusive(s) && PcOf(s, w) == Aggregating(p1, p2)
    ensures WellFormed(Merge(s.table, p1, p2))
    ensures forall r <- s.table :: r == p1 || r == p2 || (Disjoint(r, p1) && Disjoint(r, p2) && !Inside(r, p1.lo, p2.hi))
  {
    assert PcOk(s, s.workers[w]);
    assert Backed(s, s.workers[w], p1) && Backed(s, s.workers[w], p2);
    forall r <- s.table
      ensures r == p1 || r == p2 || (Disjoint(r, p1) && Disjoint(r, p2) && !Inside(r, p1.lo, p2.hi))
    {
      RowIsClaimedOrApart(s, w, p1, r);
      RowIsClaimedOrApart(s, w, p2, r);
    }
  }

  lemma AggregatedKeepsExclusive(s: State, e: Event)
    requires Exclusive(s) && Enabled(s, e) && e.Aggregated?
    ensures Exclusive(Apply(s, e))
  {
    var s' := Apply(s, e);
    var Aggregating(p1, p2) := PcOf(s, e.w);
    var p := Range(p1.lo, p2.hi);
    MergeIsWellFormed(s, e.w, p1, p2);
    assert Backed(s, s.workers[e.w], p1) && Backed(s, s.workers[e.w], p2);
    forall v, q | v in s.workers && v != e.w && q in Claims(s.workers[v]) ensures Disjoint(p, q) {
      assert Disjoint(p1, q) && Disjoint(p2, q);
      assert Backed(s, s.workers[v], q);
    }
    forall v <- s.workers | v != e.w ensures PcOk(s', s.workers[v]) {
      MergeDisturbsNobody(s, e.w, v);
    }
    ClaimingKeepsExclusive(s, e.w, Holding(p), s'.table, s');
  }

  lemma MergeDisturbsNobody(s: State, w: nat, v: nat)
    requires Exclusive(s) && Enabled(s, Aggregated(w)) && v in s.workers && v != w
    ensures PcOk(Apply(s, Aggregated(w)), s.workers[v])
  {
    var s' := Apply(s, Aggregated(w));
    var Aggregating(p1, p2) := PcOf(s, w);
    MergeIsWellFormed(s, w, p1, p2);
    assert Backed(s, s.workers[w], p1) && Backed(s, s.workers[w], p2);
    forall q <- Claims(s.workers[v]) ensures Backed(s', s.workers[v], q) {
      assert Backed(s, s.workers[v], q) && Disjoint(p1, q) && Disjoint(p2, q);
    }
    if s.workers[v].FoundBatch? && s.dropped < s.workers[v].batch {
      var b := s.workers[v].batch;
      assert forall r <- s.table :: !Covers(r, b);
      assert forall r <- s'.table :: !Covers(r, b);
    }
  }

  lemma OwnRowIsTheOnlyOneInside(s: State, w: nat, p: Range)
    requires Exclusive(s) && w in s.workers && p in Claims(s.workers[w])
    ensures OwnRows(s, w, DeleteInside(s.table, p.lo, p.hi))
    ensures forall r <- DeleteInside(s.table, p.lo, p.hi) :: Disjoint(r, p)
  {
    assert Backed(s, s.workers[w], p);
    forall r <- s.table ensures r == p || Disjoint(r, p) {
      RowIsClaimedOrApart(s, w, p, r);
    }
  }

  lemma ProofFailedKeepsExclusive(s: State, e: Event)
    requires Exclusive(s) && Enabled(s, e) && e.ProofFailed?
    ensures Exclusive(Apply(s, e))
  {
    OwnRowIsTheOnlyOneInside(s, e.w, PcOf(s, e.w).p);
    OwnRowsKeepExclusive(s, e.w, Idle, Apply(s, e).table);
  }

  lemma DropKeepsExclusive(s: State, e: Event)
    requires Exclusive(s) && Enabled(s, e) && Orderly(s, e)
    requires e.DiscardVerified? || e.Cleanup? || e.CleanupLocked? || e.VerifiedUpTo?
    ensures Exclusive(Apply(s, e))
  {
    var s' := Apply(s, e);
    if e.DiscardVerified? {
      OwnRowIsTheOnlyOneInside(s, e.w, PcOf(s, e.w).p);
    }
    forall w <- s'.workers ensures PcOk(s', s'.workers[w]) {
      forall q <- Claims(s'.workers[w]) ensures Backed(s', s'.workers[w], q) {
        assert Backed(s, s.workers[w], q);
        if e.DiscardVerified? && w != e.w {
          NobodyElseClaims(s, e.w, w, q);
        }
      }
    }
  }

  /** Cleaning up locks is safe exactly when those still worked on are of verified batches. */
  lemma CleanupIsSafeIff(s: State, stale: set<Range>)
    requires Exclusive(s) && Enabled(s, CleanupLocked(stale))
    ensures Exclusive(Apply(s, CleanupLocked(stale))) <==> Abandoned(s, stale)
  {
    if Abandoned(s, stale) {
      DropKeepsExclusive(s, CleanupLocked(stale));
    } else {
      var w, r :| w in s.workers && r in Claims(s.workers[w]) && r in stale && s.dropped < r.hi;
      assert !Backed(Apply(s, CleanupLocked(stale)), s.workers[w], r);
    }
  }

  lemma OfferKeepsExclusive(s: State, e: Event)
    requires Exclusive(s) && Enabled(s, e) && e.Offer?
    ensures Exclusive(Apply(s, e))
  {
  }

  lemma ApplyKeepsExclusive(s: State, e: Event)
    requires Exclusive(s) && Enabled(s, e) && Orderly(s, e)
    ensures Exclusive(Apply(s, e))
  {
    match e
    case ReadLastVerified(_) | FindBatch(_, _) | NothingFound(_) | Proved(_) | Stop(_) => LocalKeepsExclusive(s, e);
    case AddBatch(_, ok) => if ok { AddKeepsExclusive(s, e.w); } else { LocalKeepsExclusive(s, e); }
    case LockPair(_, _) | LockReady(_, _) | AggregationFailed(_, _) | Unlock(_, _) => LockKeepsExclusive(s, e);
    case FindPair(_, _, _) | FindReady(_, _) => FindKeepsExclusive(s, e);
    case Aggregated(_) => AggregatedKeepsExclusive(s, e);
    case ProofFailed(_, _) => ProofFailedKeepsExclusive(s, e);
    case DiscardVerified(_, _) | Cleanup(_) | CleanupLocked(_) | VerifiedUpTo(_) =>
      DropKeepsExclusive(s, e);
    case Offer(_) => OfferKeepsExclusive(s, e);
  }
}
