/**
 The life of one monitored row as a state machine.  Three actors work on the row: a monitor goroutine
 (ethtxmanager/ethtxmanager.go:281), the synchronizer's Reorg (226) and the owner's
 ProcessPendingMonitoredTxs (616).  Each step is one call to storage or to L1, so a run may interleave the
 actors at every such call.  Rows meet only through L1, which TxSystem adds.
 */
module TxRowMachine {
  import opened Wrappers
  import opened MonitoredTxs

  /** What the monitor goroutine does next. */
  datatype Phase =
    | Scanning(todo: set<SignedTx>, hasFailed: bool, allMined: bool)
    | ReviewingNonce
    | Deciding
    | Signing
    | Broadcasting(tx: SignedTx)
    | Awaiting(tx: SignedTx)
    | Storing(next: Phase)
    | Finished

  /** A goroutine: its copy of the row, and the row as it last read or wrote it. */
  datatype Thread = Thread(mTx: MonitoredTx, phase: Phase, synced: MonitoredTx)

  /** The processor of the row's owner, as far as this row is concerned. */
  datatype Processor =
    | Idle
    | Looping
    | Listed(status: Status)
    | Getting
    | Marking(mTx: MonitoredTx)
    | Handling

  /**
   `sent` holds every transaction ever handed to the network for this row, `reports` counts the times the
   owner was told the row is confirmed.
   */
  datatype RowState = RowState(
    row: Option<MonitoredTx>,
    thread: Option<Thread>,
    reorg: Option<MonitoredTx>,
    processor: Processor,
    sent: set<SignedTx>,
    reports: nat)

  const NO_ROW := RowState(None, None, None, Idle, {}, 0)

  /** A storage write succeeds, fails, or takes effect although the caller gets an error. */
  datatype Outcome = Written | Rejected | WrittenUnacked

  datatype Reply = Found | Accepted | Refused

  datatype Action =
    | Add(mTx: MonitoredTx, suggested: nat)
    | Start
    | Check(tx: SignedTx, errored: bool)
    | EndScan
    | CurrentNonce(ok: bool)
    | Decide(gas: Option<nat>, price: Option<nat>)
    | Sign(signed: Option<SignedTx>)
    | Broadcast(reply: Reply)
    | Await(mined: bool, keepMonitoring: bool)
    | Store(outcome: Outcome)
    | ReorgRead(fromBlock: nat)
    | ReorgWrite(outcome: Outcome)
    | Launch
    | List
    | Take
    | Get(ok: bool)
    | Mark(outcome: Outcome)
    | Handle
    | Return

  /** suggestedGasPrice after the margin factor: the configured limit caps it when there is one. */
  function Capped(price: nat, limit: nat): nat {
    if limit > 0 && price > limit then limit else price
  }

  function ToPhase(r: RowState, t: Thread, next: Phase): RowState {
    if next.Finished? then r.(thread := None) else r.(thread := Some(t.(phase := next)))
  }

  /** The goroutine found the receipt that decides the row. */
  function Settle(r: RowState, t: Thread, status: Status, block: Uint64): RowState {
    r.(thread := Some(t.(mTx := t.mTx.(status := status, block := Some(block)), phase := Storing(Finished))))
  }

  /** `Step` is None when the action is not enabled. */
  function Step(limit: nat, l1: L1, r: RowState, a: Action): Option<RowState> {
    match a
    case Add(m, suggested) =>
      if r.row.None? && m.status == Created && m.block.None? && m.history == {} && m.gasPrice == Capped(suggested, limit)
      then Some(r.(row := Some(Persist(m)))) else None
    case Start =>
      if r.row.Some? && Waiting(r.row.value.status) && r.thread.None? then
        var m := r.row.value;
        Some(r.(thread := Some(Thread(m, Scanning(m.history, false, true), m))))
      else None
    case Check(_, _) | EndScan | CurrentNonce(_) | Decide(_, _) | Sign(_) | Broadcast(_) | Await(_, _) | Store(_) =>
      if r.thread.Some? then MonitorStep(limit, l1, r, r.thread.value, a) else None
    case ReorgRead(from) =>
      if r.row.Some? && r.row.value.block.Some? && from <= r.row.value.block.value && r.reorg.None?
      then Some(r.(reorg := r.row)) else None
    case ReorgWrite(outcome) =>
      if r.reorg.None? then None
      else
        var m := r.reorg.value.(block := None, status := Reorged);
        Some(r.(reorg := None, row := if outcome.Rejected? then r.row else Some(Persist(m))))
    case Launch | List | Take | Get(_) | Mark(_) | Handle | Return => ProcessorStep(r, a)
  }

  /** One call of monitorTx to L1 or to storage. */
  function MonitorStep(limit: nat, l1: L1, r: RowState, t: Thread, a: Action): Option<RowState> {
    if t.phase.Scanning? || t.phase.ReviewingNonce? then ScanStep(l1, r, t, a)
    else if t.phase.Deciding? || t.phase.Signing? then PrepareStep(limit, r, t, a)
    else if t.phase.Storing? then StoreStep(r, t, a)
    else SendStep(l1, r, t, a)
  }

  /** The loop over the history, and the nonce review it may ask for. */
  function ScanStep(l1: L1, r: RowState, t: Thread, a: Action): Option<RowState> {
    match (t.phase, a)
    case (Scanning(todo, hasFailed, allMined), Check(tx, errored)) =>
      if tx !in todo then None
      else if errored then Some(ToPhase(r, t, Scanning(todo - {tx}, hasFailed, allMined)))
      else if tx !in l1.receipts then Some(ToPhase(r, t, Scanning(todo - {tx}, hasFailed, false)))
      else if l1.receipts[tx].success then Some(Settle(r, t, Confirmed, l1.receipts[tx].block))
      else Some(ToPhase(r, t, Scanning(todo - {tx}, true, allMined)))
    case (Scanning(todo, hasFailed, allMined), EndScan) =>
      if todo != {} then None
      else Some(ToPhase(r, t, if hasFailed && allMined then ReviewingNonce else Deciding))
    case (ReviewingNonce, CurrentNonce(ok)) =>
      if !ok then Some(ToPhase(r, t, Finished))
      else Some(ToPhase(r, t.(mTx := t.mTx.(nonce := Max(t.mTx.nonce, NonceOf(l1, t.mTx.from)))), Storing(Deciding)))
    case _ => None
  }

  /** Re-pricing a row that was sent before, then building and signing its next transaction. */
  function PrepareStep(limit: nat, r: RowState, t: Thread, a: Action): Option<RowState> {
    match (t.phase, a)
    case (Deciding, Decide(gas, price)) =>
      if t.mTx.status == Reorged then Some(ToPhase(r, t, Finished))
      else if t.mTx.status != Sent then Some(ToPhase(r, t, Signing))
      else if gas.None? || price.None? then Some(ToPhase(r, t, Finished))
      else
        var m := t.mTx.(gas := Max(t.mTx.gas, gas.value), gasPrice := Max(t.mTx.gasPrice, Capped(price.value, limit)));
        Some(ToPhase(r, t.(mTx := m), Storing(Signing)))
    case (Signing, Sign(signed)) =>
      if signed.None? then Some(ToPhase(r, t, Finished))
      else if signed.value.from != t.mTx.from || signed.value.nonce != t.mTx.nonce then None
      else if signed.value in t.mTx.history then Some(ToPhase(r, t, Broadcasting(signed.value)))
      else
        var m := t.mTx.(history := t.mTx.history + {signed.value});
        Some(ToPhase(r, t.(mTx := m), Storing(Broadcasting(signed.value))))
    case _ => None
  }

  function SendStep(l1: L1, r: RowState, t: Thread, a: Action): Option<RowState> {
    match (t.phase, a)
    case (Broadcasting(tx), Broadcast(reply)) =>
      if reply.Found? then Some(ToPhase(r, t, Awaiting(tx)))
      else
        var r' := r.(sent := r.sent + {tx});
        if reply.Refused? then Some(ToPhase(r', t, Finished))
        else if t.mTx.status == Created then
          Some(ToPhase(r', t.(mTx := t.mTx.(status := Sent)), Storing(Awaiting(tx))))
        else Some(ToPhase(r', t, Awaiting(tx)))
    case (Awaiting(tx), Await(mined, keepMonitoring)) =>
      if !mined || tx !in l1.receipts then Some(ToPhase(r, t, Finished))
      else if l1.receipts[tx].success then Some(Settle(r, t, Confirmed, l1.receipts[tx].block))
      else if keepMonitoring then Some(ToPhase(r, t, Finished))
      else Some(Settle(r, t, Failed, l1.receipts[tx].block))
    case _ => None
  }

  /** A whole-row write; the goroutine gives up when it is told the write failed. */
  function StoreStep(r: RowState, t: Thread, a: Action): Option<RowState> {
    if !t.phase.Storing? || !a.Store? then None
    else
      var m := Persist(t.mTx);
      if a.outcome.Rejected? then Some(ToPhase(r, t, Finished))
      else Some(ToPhase(r.(row := Some(m)), t.(synced := m), if a.outcome.Written? then t.phase.next else Finished))
  }

  /** One call of ProcessPendingMonitoredTxs, seen from this row. */
  function ProcessorStep(r: RowState, a: Action): Option<RowState> {
    match (r.processor, a)
    case (Idle, Launch) => Some(r.(processor := Looping))
    case (Looping, List) =>
      if r.row.Some? && r.row.value.status != Done then Some(r.(processor := Listed(r.row.value.status))) else Some(r)
    case (Looping, Return) =>
      if r.row.Some? && r.row.value.status != Done then None else Some(r.(processor := Idle))
    case (Listed(status), Take) =>
      if status == Confirmed then Some(r.(processor := Getting))
      else if status == Failed then Some(r.(processor := Looping))
      else if r.row.Some? && (r.row.value.status == Confirmed || r.row.value.status == Failed)
      then Some(r.(processor := Looping)) else Some(r)
    case (Getting, Get(ok)) =>
      Some(r.(processor := if ok && r.row.Some? then Marking(r.row.value) else Looping))
    case (Marking(m), Mark(outcome)) =>
      var row := if outcome.Rejected? then r.row else Some(Persist(m.(status := Done)));
      Some(r.(row := row, processor := if outcome.Written? then Handling else Looping))
    case (Handling, Handle) => Some(r.(reports := r.reports + 1, processor := Looping))
    case _ => None
  }
}
