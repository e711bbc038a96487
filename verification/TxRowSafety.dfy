/** What every step of the row machine keeps, whatever the other actors do. */
module TxRowSafety {
  import opened Wrappers
  import opened MonitoredTxs
  import opened TxRowMachine

  // ---------- Write-ahead history ----------

  /** Only the write that precedes a broadcast extends the history, and a broadcast names a stored transaction. */
  ghost predicate HistoryOk(t: Thread) {
    && (t.phase.Storing? && t.phase.next.Broadcasting?
        ==> t.mTx.history == t.synced.history + {t.phase.next.tx})
    && (!(t.phase.Storing? && t.phase.next.Broadcasting?) ==> t.mTx.history == t.synced.history)
    && (t.phase.Broadcasting? || t.phase.Awaiting? ==> t.phase.tx in t.synced.history)
    && (t.phase.Storing? && t.phase.next.Awaiting? ==> t.phase.next.tx in t.synced.history)
    && (t.phase.Storing? ==> !t.phase.next.Storing? && !t.phase.next.Scanning? && !t.phase.next.ReviewingNonce?)
    && (t.phase.Scanning? ==> t.phase.todo <= t.mTx.history)
    && !t.phase.Finished?
  }

  /** A goroutine that started from a row still being sent is the only writer of that row. */
  ghost predicate OpenThread(m: MonitoredTx, t: Thread) {
    && m == t.synced
    && t.synced.block.None?
    && (t.phase != Storing(Finished) ==> t.mTx.block.None? && (t.mTx.status == t.synced.status || t.mTx.status.Sent?))
    && (t.phase == Storing(Finished) ==> t.mTx.status.Confirmed? || t.mTx.status.Failed?)
    && (t.phase == Storing(Finished) ==> t.mTx.block.Some?)
  }

  /** A goroutine that started from a reorged row never signs or sends, so the history stays as it was. */
  ghost predicate ReorgedThread(m: MonitoredTx, t: Thread) {
    && !Open(m.status)
    && t.synced.history == m.history
    && (t.phase.Scanning? || t.phase.ReviewingNonce? || t.phase.Deciding? || t.phase.Storing?)
    && (t.phase.Storing? ==> t.phase.next.Deciding? || t.phase.next.Finished?)
    && (t.phase != Storing(Finished) ==> t.mTx.status == Reorged && t.mTx.block.None?)
    && (t.phase == Storing(Finished) ==> t.mTx.status.Confirmed? && t.mTx.block.Some?)
    && t.synced.status == Reorged
  }

  ghost predicate ThreadOk(m: MonitoredTx, t: Thread) {
    && HistoryOk(t)
    && (Open(t.synced.status) ==> OpenThread(m, t))
    && (!Open(t.synced.status) ==> ReorgedThread(m, t))
  }

  ghost predicate ProcessorOk(m: MonitoredTx, p: Processor) {
    && (p.Getting? || p == Listed(Confirmed) ==> !Open(m.status))
    && (p.Marking? ==> !Open(m.status) && p.mTx.history == m.history && !Open(p.mTx.status))
  }

  ghost predicate Safe(r: RowState) {
    match r.row
    case None => r.thread.None? && r.reorg.None? && (r.processor.Idle? || r.processor.Looping?) && r.sent == {}
    case Some(m) =>
      && (Waiting(m.status) ==> m.block.None?)
      && r.sent <= m.history
      && (r.thread.Some? ==> ThreadOk(m, r.thread.value))
      && (r.reorg.Some? ==> !Open(m.status) && r.reorg.value.history == m.history)
      && ProcessorOk(m, r.processor)
  }

  /** A step that keeps `Safe`, loses no stored history and forgets no broadcast. */
  ghost predicate SafeStep(r: RowState, r': RowState) {
    && Safe(r')
    && r.sent <= r'.sent
    && (r.row.Some? ==> r'.row.Some? && r.row.value.history <= r'.row.value.history)
  }

  lemma CheckKeepsSafe(l1: L1, r: RowState, tx: SignedTx, errored: bool)
    requires Safe(r) && r.thread.Some? && ScanStep(l1, r, r.thread.value, Check(tx, errored)).Some?
    ensures SafeStep(r, ScanStep(l1, r, r.thread.value, Check(tx, errored)).value)
  {
  }

  lemma ReviewKeepsSafe(l1: L1, r: RowState, a: Action)
    requires Safe(r) && r.thread.Some? && ScanStep(l1, r, r.thread.value, a).Some? && !a.Check?
    ensures SafeStep(r, ScanStep(l1, r, r.thread.value, a).value)
  {
  }

  lemma ScanKeepsSafe(l1: L1, r: RowState, a: Action)
    requires Safe(r) && r.thread.Some? && ScanStep(l1, r, r.thread.value, a).Some?
    ensures SafeStep(r, ScanStep(l1, r, r.thread.value, a).value)
  {
    if a.Check? { CheckKeepsSafe(l1, r, a.tx, a.errored); } else { ReviewKeepsSafe(l1, r, a); }
  }

  lemma PrepareKeepsSafe(limit: nat, r: RowState, a: Action)
    requires Safe(r) && r.thread.Some? && PrepareStep(limit, r, r.thread.value, a).Some?
    ensures SafeStep(r, PrepareStep(limit, r, r.thread.value, a).value)
  {
  }

  lemma SendKeepsSafe(l1: L1, r: RowState, a: Action)
    requires Safe(r) && r.thread.Some? && SendStep(l1, r, r.thread.value, a).Some?
    ensures SafeStep(r, SendStep(l1, r, r.thread.value, a).value)
  {
  }

  lemma StoreKeepsSafe(r: RowState, a: Action)
    requires Safe(r) && r.thread.Some? && StoreStep(r, r.thread.value, a).Some?
    ensures SafeStep(r, StoreStep(r, r.thread.value, a).value)
  {
  }

  lemma ProcessorKeepsSafe(r: RowState, a: Action)
    requires Safe(r) && ProcessorStep(r, a).Some?
    ensures SafeStep(r, ProcessorStep(r, a).value)
  {
  }

  /** Every step of every actor keeps `Safe`; with it, stored histories only grow and nothing unrecorded is sent. */
  lemma StepKeepsSafe(limit: nat, l1: L1, r: RowState, a: Action)
    requires Safe(r) && Step(limit, l1, r, a).Some?
    ensures SafeStep(r, Step(limit, l1, r, a).value)
  {
    if r.thread.Some? {
      if ScanStep(l1, r, r.thread.value, a).Some? { ScanKeepsSafe(l1, r, a); }
      if PrepareStep(limit, r, r.thread.value, a).Some? { PrepareKeepsSafe(limit, r, a); }
      if SendStep(l1, r, r.thread.value, a).Some? { SendKeepsSafe(l1, r, a); }
      if StoreStep(r, r.thread.value, a).Some? { StoreKeepsSafe(r, a); }
    }
    if ProcessorStep(r, a).Some? { ProcessorKeepsSafe(r, a); }
  }

  // ---------- No duplicate success ----------

  /** Transactions below the row's nonce are known to have failed, so only the current nonce can still succeed. */
  ghost predicate SafeHistory(l1: L1, m: MonitoredTx) {
    forall t <- m.history ::
      t.from == m.from && t.nonce <= m.nonce && (t.nonce < m.nonce ==> MinedAndFailed(l1, t))
  }

  predicate AllFailed(l1: L1, history: set<SignedTx>) {
    forall x <- history :: MinedAndFailed(l1, x)
  }

  /** Every copy of the row that some actor may still write is safe. */
  ghost predicate Nonced(l1: L1, r: RowState) {
    && (r.row.Some? ==> SafeHistory(l1, r.row.value))
    && (r.thread.Some? ==> SafeHistory(l1, r.thread.value.mTx))
    && (r.thread.Some? && r.thread.value.phase.ReviewingNonce? ==> AllFailed(l1, r.thread.value.mTx.history))
    && (r.reorg.Some? ==> SafeHistory(l1, r.reorg.value))
    && (r.processor.Marking? ==> SafeHistory(l1, r.processor.mTx))
  }

  ghost predicate Extends(l1: L1, l1': L1) {
    forall t <- l1.receipts :: t in l1'.receipts && l1'.receipts[t] == l1.receipts[t]
  }

  lemma ExtensionKeepsNonced(l1: L1, l1': L1, r: RowState)
    requires Nonced(l1, r) && Extends(l1, l1')
    ensures Nonced(l1', r)
  {
  }

  /** A scan that ends in a review of the nonce meets a history that was all mined and failed. */
  predicate ReviewSound(l1: L1, r: RowState, a: Action) {
    && a.EndScan? && r.thread.Some? && r.thread.value.phase.Scanning?
    && r.thread.value.phase.hasFailed && r.thread.value.phase.allMined
    ==> AllFailed(l1, r.thread.value.mTx.history)
  }

  lemma CheckKeepsNonced(l1: L1, r: RowState, tx: SignedTx, errored: bool)
    requires Nonced(l1, r) && r.thread.Some? && ScanStep(l1, r, r.thread.value, Check(tx, errored)).Some?
    ensures Nonced(l1, ScanStep(l1, r, r.thread.value, Check(tx, errored)).value)
  {
  }

  /** The end of the scan, and the review of the nonce. */
  lemma ReviewKeepsNonced(l1: L1, r: RowState, a: Action)
    requires ValidChain(l1) && Nonced(l1, r) && r.thread.Some? && ScanStep(l1, r, r.thread.value, a).Some? && !a.Check?
    requires ReviewSound(l1, r, a)
    ensures Nonced(l1, ScanStep(l1, r, r.thread.value, a).value)
  {
  }

  lemma ScanKeepsNonced(l1: L1, r: RowState, a: Action)
    requires ValidChain(l1) && Nonced(l1, r) && r.thread.Some? && ScanStep(l1, r, r.thread.value, a).Some?
    requires ReviewSound(l1, r, a)
    ensures Nonced(l1, ScanStep(l1, r, r.thread.value, a).value)
  {
    if a.Check? { CheckKeepsNonced(l1, r, a.tx, a.errored); } else { ReviewKeepsNonced(l1, r, a); }
  }

  lemma PrepareKeepsNonced(limit: nat, l1: L1, r: RowState, a: Action)
    requires Nonced(l1, r) && r.thread.Some? && PrepareStep(limit, r, r.thread.value, a).Some?
    ensures Nonced(l1, PrepareStep(limit, r, r.thread.value, a).value)
  {
  }

  lemma SendKeepsNonced(l1: L1, r: RowState, a: Action)
    requires Nonced(l1, r) && r.thread.Some? && SendStep(l1, r, r.thread.value, a).Some?
    ensures Nonced(l1, SendStep(l1, r, r.thread.value, a).value)
  {
  }

  lemma StoreKeepsNonced(l1: L1, r: RowState, a: Action)
    requires Safe(r) && Nonced(l1, r) && r.thread.Some? && StoreStep(r, r.thread.value, a).Some?
    ensures Nonced(l1, StoreStep(r, r.thread.value, a).value)
  {
  }

  lemma ProcessorKeepsNonced(l1: L1, r: RowState, a: Action)
    requires Nonced(l1, r) && ProcessorStep(r, a).Some?
    ensures Nonced(l1, ProcessorStep(r, a).value)
  {
  }

  /** Unless it starts a review too early, a step keeps the copies safe. */
  lemma StepKeepsNonced(limit: nat, l1: L1, r: RowState, a: Action)
    requires ValidChain(l1) && Safe(r) && Nonced(l1, r) && Step(limit, l1, r, a).Some?
    requires ReviewSound(l1, r, a)
    ensures Nonced(l1, Step(limit, l1, r, a).value)
  {
    if ProcessorStep(r, a).Some? {
      ProcessorKeepsNonced(l1, r, a);
    } else if r.thread.Some? {
      if ScanStep(l1, r, r.thread.value, a).Some? {
        ScanKeepsNonced(l1, r, a);
      } else if PrepareStep(limit, r, r.thread.value, a).Some? {
        PrepareKeepsNonced(limit, l1, r, a);
      } else if SendStep(l1, r, r.thread.value, a).Some? {
        SendKeepsNonced(l1, r, a);
      } else if StoreStep(r, r.thread.value, a).Some? {
        StoreKeepsNonced(l1, r, a);
      }
    }
  }

  lemma AtMostOneSuccess(l1: L1, m: MonitoredTx, t: SignedTx, u: SignedTx)
    requires ValidChain(l1) && SafeHistory(l1, m)
    requires t in m.history && u in m.history && Succeeded(l1, t) && Succeeded(l1, u)
    ensures t == u
  {
  }

  /** While the scan takes everything to be mined, what it has looked at was mined and failed. */
  ghost predicate Scanned(l1: L1, r: RowState) {
    r.thread.Some? && r.thread.value.phase.Scanning? && r.thread.value.phase.allMined ==>
      AllFailed(l1, r.thread.value.mTx.history - r.thread.value.phase.todo)
  }

  lemma ExtensionKeepsScanned(l1: L1, l1': L1, r: RowState)
    requires Scanned(l1, r) && Extends(l1, l1')
    ensures Scanned(l1', r)
  {
  }

  lemma CheckKeepsScanned(l1: L1, r: RowState, tx: SignedTx)
    requires Scanned(l1, r) && r.thread.Some? && ScanStep(l1, r, r.thread.value, Check(tx, false)).Some?
    ensures Scanned(l1, ScanStep(l1, r, r.thread.value, Check(tx, false)).value)
  {
    var t := r.thread.value;
    assert forall x <- t.mTx.history - (t.phase.todo - {tx}) :: x == tx || x in t.mTx.history - t.phase.todo;
  }

  /** When every query is answered, no scan ends in a review too early. */
  lemma StepKeepsScanned(limit: nat, l1: L1, r: RowState, a: Action)
    requires Safe(r) && Scanned(l1, r) && Step(limit, l1, r, a).Some?
    requires a.Check? ==> !a.errored
    ensures Scanned(l1, Step(limit, l1, r, a).value) && ReviewSound(l1, r, a)
  {
    if a.Check? {
      assert a == Check(a.tx, false);
      CheckKeepsScanned(l1, r, a.tx);
    } else if a.EndScan? {
      var t := r.thread.value;
      assert t.phase.Scanning? ==> t.mTx.history - t.phase.todo == t.mTx.history;
    }
  }

  // ---------- Receipts behind the final statuses ----------

  ghost predicate Attested(seen: set<(SignedTx, Receipt)>, m: MonitoredTx) {
    m.status.Confirmed? || m.status.Failed? ==>
      && m.block.Some?
      && exists t :: t in m.history && (t, Receipt(m.status.Confirmed?, m.block.value)) in seen
  }

  ghost predicate Witnessed(seen: set<(SignedTx, Receipt)>, r: RowState) {
    && (r.row.Some? ==> Attested(seen, r.row.value))
    && (r.thread.Some? ==> Attested(seen, r.thread.value.mTx))
  }

  lemma ScanKeepsWitnessed(l1: L1, seen: set<(SignedTx, Receipt)>, r: RowState, a: Action)
    requires Safe(r) && Witnessed(seen, r) && l1.receipts.Items <= seen
    requires r.thread.Some? && ScanStep(l1, r, r.thread.value, a).Some?
    ensures Witnessed(seen, ScanStep(l1, r, r.thread.value, a).value)
  {
    if a.Check? && a.tx in l1.receipts {
      assert (a.tx, l1.receipts[a.tx]) in l1.receipts.Items;
      assert l1.receipts[a.tx] == Receipt(l1.receipts[a.tx].success, l1.receipts[a.tx].block);
    }
  }

  lemma SendKeepsWitnessed(l1: L1, seen: set<(SignedTx, Receipt)>, r: RowState, a: Action)
    requires Safe(r) && Witnessed(seen, r) && l1.receipts.Items <= seen
    requires r.thread.Some? && SendStep(l1, r, r.thread.value, a).Some?
    ensures Witnessed(seen, SendStep(l1, r, r.thread.value, a).value)
  {
    var tx := r.thread.value.phase.tx;
    if tx in l1.receipts {
      assert (tx, l1.receipts[tx]) in l1.receipts.Items;
      assert l1.receipts[tx] == Receipt(l1.receipts[tx].success, l1.receipts[tx].block);
    }
  }

  lemma StepKeepsWitnessed(limit: nat, l1: L1, seen: set<(SignedTx, Receipt)>, r: RowState, a: Action)
    requires Safe(r) && Witnessed(seen, r) && l1.receipts.Items <= seen && Step(limit, l1, r, a).Some?
    ensures Witnessed(seen, Step(limit, l1, r, a).value)
  {
    if r.thread.Some? {
      if ScanStep(l1, r, r.thread.value, a).Some? { ScanKeepsWitnessed(l1, seen, r, a); }
      if SendStep(l1, r, r.thread.value, a).Some? { SendKeepsWitnessed(l1, seen, r, a); }
    }
  }

  // ---------- Status discipline ----------

  /** The status changes the manager is meant to make. */
  predicate Allowed(from: Status, to: Status) {
    || from == to
    || (from.Created? && (to.Sent? || to.Confirmed? || to.Failed?))
    || (from.Sent? && (to.Confirmed? || to.Failed?))
    || (from.Reorged? && to.Confirmed?)
    || (from.Confirmed? && (to.Done? || to.Reorged?))
    || ((from.Failed? || from.Done?) && to.Reorged?)
  }

  ghost predicate Numbered(m: MonitoredTx) {
    m.block.None? <==> Waiting(m.status)
  }

  /**
   Rows without a block number are exactly the ones being monitored, a goroutine's view of its row is never
   out of date, and Reorg never has a row in hand that a goroutine is working on.
   */
  ghost predicate Disciplined(r: RowState) {
    && (r.row.Some? ==> Numbered(r.row.value))
    && (r.thread.Some? ==> r.row == Some(r.thread.value.synced) && Waiting(r.thread.value.synced.status))
    && (r.reorg.Some? ==> r.thread.None? && r.row.Some? && r.row.value.block.Some?)
    && (r.processor.Marking? ==> Numbered(r.processor.mTx))
  }

  ghost predicate StatusKept(r: RowState, r': RowState) {
    r.row.Some? ==> r'.row.Some? && Allowed(r.row.value.status, r'.row.value.status)
  }

  /** A Done write that takes effect on a stored row. */
  predicate Marks(r: RowState, a: Action) {
    a.Mark? && !a.outcome.Rejected? && r.processor.Marking? && r.row.Some?
  }

  /** A Done write that takes effect writes a row that was read with a block over one that is still Confirmed, or Done. */
  predicate StillConfirmed(r: RowState, a: Action) {
    Marks(r, a) ==>
      !Waiting(r.processor.mTx.status) && (r.row.value.status.Confirmed? || r.row.value.status.Done?)
  }

  ghost predicate DisciplinedStep(r: RowState, r': RowState) {
    Disciplined(r') && StatusKept(r, r')
  }

  lemma MonitorKeepsDisciplined(limit: nat, l1: L1, r: RowState, a: Action)
    requires Safe(r) && Disciplined(r) && r.thread.Some? && !a.Store?
    requires MonitorStep(limit, l1, r, r.thread.value, a).Some?
    ensures DisciplinedStep(r, MonitorStep(limit, l1, r, r.thread.value, a).value)
  {
  }

  lemma StoreKeepsDisciplined(r: RowState, a: Action)
    requires Safe(r) && Disciplined(r) && r.thread.Some? && StoreStep(r, r.thread.value, a).Some?
    ensures DisciplinedStep(r, StoreStep(r, r.thread.value, a).value)
  {
  }

  lemma StepKeepsDisciplined(limit: nat, l1: L1, r: RowState, a: Action)
    requires Safe(r) && Disciplined(r) && Step(limit, l1, r, a).Some?
    requires StillConfirmed(r, a)
    ensures DisciplinedStep(r, Step(limit, l1, r, a).value)
  {
    if r.thread.Some? {
      if a.Store? {
        if StoreStep(r, r.thread.value, a).Some? { StoreKeepsDisciplined(r, a); }
      } else if MonitorStep(limit, l1, r, r.thread.value, a).Some? {
        MonitorKeepsDisciplined(limit, l1, r, a);
      }
    }
  }

  /** setStatusDone writes whatever row it read.  Statuses and numbering stay in order exactly under this condition. */
  lemma MarkIsDisciplinedIff(r: RowState, outcome: Outcome)
    requires Safe(r) && Disciplined(r) && r.processor.Marking? && r.row.Some?
    ensures DisciplinedStep(r, ProcessorStep(r, Mark(outcome)).value) <==> StillConfirmed(r, Mark(outcome))
  {
  }

  // ---------- Blocks and nonces ----------

  predicate SameBlock(r: RowState, a: Action) {
    Marks(r, a) ==> r.processor.mTx.block == r.row.value.block
  }

  predicate SameNonce(r: RowState, a: Action) {
    Marks(r, a) ==> r.processor.mTx.nonce == r.row.value.nonce
  }

  /** A mined row leaves its block without being marked Reorged. */
  predicate LosesBlock(r: RowState, r': RowState) {
    && r.row.Some? && r'.row.Some? && r.row.value.block.Some?
    && !r'.row.value.status.Reorged? && r'.row.value.block != r.row.value.block
  }

  predicate LosesNonce(r: RowState, r': RowState) {
    r.row.Some? && r'.row.Some? && r'.row.value.nonce < r.row.value.nonce
  }

  /** Of the copies that may still be written, only the one the owner's processor holds may be behind the row's nonce. */
  ghost predicate Ordered(r: RowState) {
    && (r.thread.Some? ==> r.thread.value.synced.nonce <= r.thread.value.mTx.nonce)
    && (r.reorg.Some? ==> r.row.Some? && r.row.value.nonce <= r.reorg.value.nonce)
    && (r.processor.Marking? ==> r.row.Some? && r.processor.mTx.nonce <= r.row.value.nonce)
  }

  lemma MonitorKeepsOrdered(limit: nat, l1: L1, r: RowState, a: Action)
    requires Safe(r) && Disciplined(r) && Ordered(r) && r.thread.Some? && !a.Store?
    requires MonitorStep(limit, l1, r, r.thread.value, a).Some?
    ensures var r' := MonitorStep(limit, l1, r, r.thread.value, a).value; Ordered(r') && !LosesNonce(r, r')
  {
  }

  lemma StepKeepsOrdered(limit: nat, l1: L1, r: RowState, a: Action)
    requires Safe(r) && Disciplined(r) && Ordered(r) && Step(limit, l1, r, a).Some? && StillConfirmed(r, a)
    ensures Ordered(Step(limit, l1, r, a).value)
  {
    if r.thread.Some? && !a.Store? && MonitorStep(limit, l1, r, r.thread.value, a).Some? {
      MonitorKeepsOrdered(limit, l1, r, a);
    }
  }

  /** A step takes a nonce back exactly when it is a Done write of a row read with a lower one. */
  lemma NonceDropsIff(limit: nat, l1: L1, r: RowState, a: Action)
    requires Safe(r) && Disciplined(r) && Ordered(r) && Step(limit, l1, r, a).Some?
    ensures LosesNonce(r, Step(limit, l1, r, a).value) <==> Marks(r, a) && r.processor.mTx.nonce < r.row.value.nonce
  {
    if r.thread.Some? && !a.Store? && MonitorStep(limit, l1, r, r.thread.value, a).Some? {
      MonitorKeepsOrdered(limit, l1, r, a);
    }
  }

  lemma MonitorKeepsBlock(limit: nat, l1: L1, r: RowState, a: Action)
    requires Safe(r) && Disciplined(r) && r.thread.Some? && MonitorStep(limit, l1, r, r.thread.value, a).Some?
    ensures !LosesBlock(r, MonitorStep(limit, l1, r, r.thread.value, a).value)
  {
  }

  /** A step moves a mined row out of its block exactly when it is a Done write of a row read in another. */
  lemma BlockDropsIff(limit: nat, l1: L1, r: RowState, a: Action)
    requires Safe(r) && Disciplined(r) && Step(limit, l1, r, a).Some?
    ensures LosesBlock(r, Step(limit, l1, r, a).value)
      <==> Marks(r, a) && r.row.value.block.Some? && r.processor.mTx.block != r.row.value.block
  {
    if r.thread.Some? && MonitorStep(limit, l1, r, r.thread.value, a).Some? {
      MonitorKeepsBlock(limit, l1, r, a);
    }
  }

  /**
   A Done write loses nothing, neither the status nor the block nor the nonce, exactly when the stored row is still
   Confirmed (or Done) and the row read agrees with it on the block and the nonce.
   */
  lemma MarkLosesNothingIff(r: RowState, outcome: Outcome)
    requires Safe(r) && Disciplined(r) && r.processor.Marking? && r.row.Some?
    ensures
      var r' := ProcessorStep(r, Mark(outcome)).value;
      DisciplinedStep(r, r') && r'.row.value.block == r.row.value.block && r'.row.value.nonce == r.row.value.nonce
      <==> StillConfirmed(r, Mark(outcome)) && SameBlock(r, Mark(outcome)) && SameNonce(r, Mark(outcome))
  {
  }

  // ---------- Fees ----------

  predicate SameFees(m: MonitoredTx, m': MonitoredTx) {
    m.gas == m'.gas && m.gasPrice == m'.gasPrice
  }

  predicate NoLess(m: MonitoredTx, m': MonitoredTx) {
    m.gas <= m'.gas && m.gasPrice <= m'.gasPrice
  }

  predicate Within(limit: nat, m: MonitoredTx) {
    m.gasPrice < TWO_64 && (limit > 0 ==> m.gasPrice <= limit)
  }

  /** Only a goroutine of a row still being sent may raise its fees; every other copy has those of the row. */
  ghost predicate Priced(limit: nat, r: RowState) {
    r.row.Some? ==>
      var m := r.row.value;
      && Within(limit, m)
      && (r.thread.Some? ==> Within(limit, r.thread.value.mTx) && NoLess(m, r.thread.value.mTx))
      && (r.thread.Some? && !Open(r.thread.value.synced.status) ==> SameFees(m, r.thread.value.mTx))
      && (r.reorg.Some? ==> SameFees(m, r.reorg.value))
      && (r.processor.Marking? ==> SameFees(m, r.processor.mTx))
  }

  /** The price this action brings in fits the 64 bits it is stored in; with a limit of 64 bits it always does. */
  predicate PriceFits(limit: nat, a: Action) {
    && (a.Add? ==> Capped(a.suggested, limit) < TWO_64)
    && (a.Decide? && a.price.Some? ==> Capped(a.price.value, limit) < TWO_64)
  }

  ghost predicate PricedStep(limit: nat, r: RowState, r': RowState) {
    && Priced(limit, r')
    && (r.row.Some? ==> r'.row.Some? && NoLess(r.row.value, r'.row.value))
  }

  lemma ScanKeepsPriced(limit: nat, l1: L1, r: RowState, a: Action)
    requires Safe(r) && Priced(limit, r) && r.thread.Some? && ScanStep(l1, r, r.thread.value, a).Some?
    ensures PricedStep(limit, r, ScanStep(l1, r, r.thread.value, a).value)
  {
  }

  lemma PrepareKeepsPriced(limit: nat, r: RowState, a: Action)
    requires Safe(r) && Priced(limit, r) && r.thread.Some? && PrepareStep(limit, r, r.thread.value, a).Some? && PriceFits(limit, a)
    ensures PricedStep(limit, r, PrepareStep(limit, r, r.thread.value, a).value)
  {
  }

  lemma SendKeepsPriced(limit: nat, l1: L1, r: RowState, a: Action)
    requires Safe(r) && Priced(limit, r) && r.thread.Some? && SendStep(l1, r, r.thread.value, a).Some?
    ensures PricedStep(limit, r, SendStep(l1, r, r.thread.value, a).value)
  {
  }

  lemma StoreKeepsPriced(limit: nat, r: RowState, a: Action)
    requires Safe(r) && Priced(limit, r) && r.thread.Some? && StoreStep(r, r.thread.value, a).Some?
    ensures PricedStep(limit, r, StoreStep(r, r.thread.value, a).value)
  {
  }

  lemma ProcessorKeepsPriced(limit: nat, r: RowState, a: Action)
    requires Safe(r) && Priced(limit, r) && ProcessorStep(r, a).Some?
    ensures PricedStep(limit, r, ProcessorStep(r, a).value)
  {
  }

  /** No write of any actor lowers a price or a gas amount, stale Done writes included. */
  lemma StepKeepsPriced(limit: nat, l1: L1, r: RowState, a: Action)
    requires Safe(r) && Priced(limit, r) && Step(limit, l1, r, a).Some? && PriceFits(limit, a)
    ensures PricedStep(limit, r, Step(limit, l1, r, a).value)
  {
    if r.thread.Some? {
      if ScanStep(l1, r, r.thread.value, a).Some? { ScanKeepsPriced(limit, l1, r, a); }
      if PrepareStep(limit, r, r.thread.value, a).Some? { PrepareKeepsPriced(limit, r, a); }
      if SendStep(l1, r, r.thread.value, a).Some? { SendKeepsPriced(limit, l1, r, a); }
      if StoreStep(r, r.thread.value, a).Some? { StoreKeepsPriced(limit, r, a); }
    }
    if ProcessorStep(r, a).Some? { ProcessorKeepsPriced(limit, r, a); }
  }

  // ---------- What a row is about ----------

  /** Both are the same call, by the same account. */
  predicate SameCall(m: MonitoredTx, m': MonitoredTx) {
    m.from == m'.from && m.to == m'.to && m.value == m'.value && m.data == m'.data && m.gasOffset == m'.gasOffset
  }

  /** Every copy of the row is of its call, and the value is one that storage keeps. */
  ghost predicate Identified(r: RowState) {
    r.row.Some? ==>
      var m := r.row.value;
      && (m.value.Some? ==> m.value.value < TWO_64)
      && (r.thread.Some? ==> SameCall(m, r.thread.value.mTx))
      && (r.reorg.Some? ==> SameCall(m, r.reorg.value))
      && (r.processor.Marking? ==> SameCall(m, r.processor.mTx))
  }

  ghost predicate IdentifiedStep(r: RowState, r': RowState) {
    Identified(r') && (r.row.Some? ==> r'.row.Some? && SameCall(r.row.value, r'.row.value))
  }

  /** Only the goroutine's copy may differ, and it is of the same call. */
  predicate OnlyCopy(r: RowState, r': RowState) {
    && r'.row == r.row && r'.reorg == r.reorg && r'.processor == r.processor
    && (r'.thread.Some? ==> r.thread.Some? && SameCall(r.thread.value.mTx, r'.thread.value.mTx))
  }

  lemma ScanKeepsCall(l1: L1, r: RowState, a: Action)
    requires r.thread.Some? && ScanStep(l1, r, r.thread.value, a).Some?
    ensures OnlyCopy(r, ScanStep(l1, r, r.thread.value, a).value)
  {
  }

  lemma PrepareKeepsCall(limit: nat, r: RowState, a: Action)
    requires r.thread.Some? && PrepareStep(limit, r, r.thread.value, a).Some?
    ensures OnlyCopy(r, PrepareStep(limit, r, r.thread.value, a).value)
  {
  }

  lemma SendKeepsCall(l1: L1, r: RowState, a: Action)
    requires r.thread.Some? && SendStep(l1, r, r.thread.value, a).Some?
    ensures OnlyCopy(r, SendStep(l1, r, r.thread.value, a).value)
  {
  }

  lemma StoreKeepsCall(r: RowState, a: Action)
    requires Safe(r) && Identified(r) && r.thread.Some? && StoreStep(r, r.thread.value, a).Some?
    ensures IdentifiedStep(r, StoreStep(r, r.thread.value, a).value)
  {
  }

  lemma ProcessorKeepsCall(r: RowState, a: Action)
    requires Safe(r) && Identified(r) && ProcessorStep(r, a).Some?
    ensures IdentifiedStep(r, ProcessorStep(r, a).value)
  {
  }

  /** No write of any actor changes what the row sends, and from which account. */
  lemma StepKeepsCall(limit: nat, l1: L1, r: RowState, a: Action)
    requires Safe(r) && Identified(r) && Step(limit, l1, r, a).Some?
    ensures IdentifiedStep(r, Step(limit, l1, r, a).value)
  {
    if ProcessorStep(r, a).Some? {
      ProcessorKeepsCall(r, a);
    } else if r.thread.Some? {
      if ScanStep(l1, r, r.thread.value, a).Some? {
        ScanKeepsCall(l1, r, a);
      } else if PrepareStep(limit, r, r.thread.value, a).Some? {
        PrepareKeepsCall(limit, r, a);
      } else if SendStep(l1, r, r.thread.value, a).Some? {
        SendKeepsCall(l1, r, a);
      } else if StoreStep(r, r.thread.value, a).Some? {
        StoreKeepsCall(r, a);
      }
    }
  }
}
