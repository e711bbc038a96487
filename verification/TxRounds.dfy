/** What one decision of the monitor goroutine leaves in the table, whatever the other actors do before it is written. */
module TxRounds {
  import opened Wrappers
  import opened MonitoredTxs
  import opened TxRowMachine
  import opened TxSystem

  predicate StoresRow(e: Event, k: Key) {
    e.Acted? && e.key == k && e.action.Store?
  }

  /** The goroutine of `k` holds a copy it is about to write. */
  predicate AboutToStore(s: System, k: Key) {
    RowAt(s, k).thread.Some? && RowAt(s, k).thread.value.phase.Storing?
  }

  lemma OthersLeaveTheCopy(limit: nat, l1: L1, r: RowState, a: Action)
    requires r.thread.Some? && r.thread.value.phase.Storing? && !a.Store? && Step(limit, l1, r, a).Some?
    ensures Step(limit, l1, r, a).value.thread == r.thread
  {
  }

  lemma {:induction false} CopyWaits(limit: nat, s: System, es: seq<Event>, k: Key)
    requires AboutToStore(s, k) && Run(limit, s, es).Some? && forall e <- es :: !StoresRow(e, k)
    ensures RowAt(Run(limit, s, es).value, k).thread == RowAt(s, k).thread
    decreases es
  {
    if es != [] {
      assert !StoresRow(es[0], k);
      if es[0].Acted? && es[0].key == k {
        OthersLeaveTheCopy(limit, s.l1, RowAt(s, k), es[0].action);
      }
      CopyWaits(limit, Apply(limit, s, es[0]).value, es[1..], k);
    }
  }

  /** `first`, then `es` without a write of this goroutine, then its write. */
  ghost predicate DecidesAndStores(limit: nat, s: System, first: Action, es: seq<Event>, k: Key, outcome: Outcome) {
    && RowAt(s, k).thread.Some? && Apply(limit, s, Acted(k, first)).Some?
    && (forall e <- es :: !StoresRow(e, k))
    && Run(limit, Apply(limit, s, Acted(k, first)).value, es + [Acted(k, Store(outcome))]).Some?
  }

  ghost function RowAfter(limit: nat, s: System, first: Action, es: seq<Event>, k: Key, outcome: Outcome): Option<MonitoredTx>
    requires DecidesAndStores(limit, s, first, es, k, outcome)
  {
    RowAt(Run(limit, Apply(limit, s, Acted(k, first)).value, es + [Acted(k, Store(outcome))]).value, k).row
  }

  lemma CopyIsStored(limit: nat, s: System, first: Action, es: seq<Event>, k: Key, outcome: Outcome)
    requires DecidesAndStores(limit, s, first, es, k, outcome) && !outcome.Rejected?
    requires AboutToStore(Apply(limit, s, Acted(k, first)).value, k)
    ensures RowAfter(limit, s, first, es, k, outcome)
      == Some(Persist(RowAt(Apply(limit, s, Acted(k, first)).value, k).thread.value.mTx))
  {
    var s' := Apply(limit, s, Acted(k, first)).value;
    RunSplits(limit, s', es, [Acted(k, Store(outcome))]);
    CopyWaits(limit, s', es, k);
    RunOne(limit, Run(limit, s', es).value, Acted(k, Store(outcome)));
  }

  /**
   A review of the nonce that is written leaves the larger of the row's nonce and the account's at the time it was read,
   and changes nothing else.
   */
  lemma NonceReviewIsStored(limit: nat, s: System, es: seq<Event>, k: Key, outcome: Outcome)
    requires DecidesAndStores(limit, s, CurrentNonce(true), es, k, outcome) && !outcome.Rejected?
    ensures
      var m, row := RowAt(s, k).thread.value.mTx, RowAfter(limit, s, CurrentNonce(true), es, k, outcome);
      var account := NonceOf(s.l1, m.from);
      && row.Some? && m.nonce <= row.value.nonce && account <= row.value.nonce
      && (row.value.nonce == m.nonce || row.value.nonce == account)
      && row.value == Persist(m).(nonce := row.value.nonce)
  {
    CopyIsStored(limit, s, CurrentNonce(true), es, k, outcome);
  }

  /**
   A review of gas and price that is written leaves the larger of the row's gas and the estimate, and, mod 2^64, the larger
   of the row's price and the suggested one, or the limit where the suggestion exceeds it.
   */
  lemma FeeReviewIsStored(limit: nat, s: System, es: seq<Event>, k: Key, gas: nat, suggested: nat, outcome: Outcome)
    returns (price: nat)
    requires DecidesAndStores(limit, s, Decide(Some(gas), Some(suggested)), es, k, outcome) && !outcome.Rejected?
    requires RowAt(s, k).thread.value.mTx.status.Sent?
    ensures
      var m, row := RowAt(s, k).thread.value.mTx, RowAfter(limit, s, Decide(Some(gas), Some(suggested)), es, k, outcome);
      && row.Some? && m.gas <= row.value.gas && gas <= row.value.gas && (row.value.gas == m.gas || row.value.gas == gas)
      && row.value.gasPrice == price % TWO_64 && m.gasPrice <= price
      && (limit == 0 || suggested <= limit ==> suggested <= price && (price == m.gasPrice || price == suggested))
      && (0 < limit < suggested ==> limit <= price && (price == m.gasPrice || price == limit))
      && row.value == Persist(m).(gas := row.value.gas, gasPrice := row.value.gasPrice)
  {
    CopyIsStored(limit, s, Decide(Some(gas), Some(suggested)), es, k, outcome);
    price := RowAt(Apply(limit, s, Acted(k, Decide(Some(gas), Some(suggested)))).value, k).thread.value.mTx.gasPrice;
  }

  /** The receipt of the transaction just sent settles the row: it succeeded, or it failed and is not to be sent again. */
  predicate Settles(l1: L1, tx: SignedTx, mined: bool, keepMonitoring: bool) {
    mined && tx in l1.receipts && (l1.receipts[tx].success || !keepMonitoring)
  }

  /** A receipt that settles the row leaves it Confirmed on success and Failed on failure, in the receipt's block. */
  lemma SettlementIsStored(limit: nat, s: System, es: seq<Event>, k: Key, mined: bool, keepMonitoring: bool, outcome: Outcome)
    requires DecidesAndStores(limit, s, Await(mined, keepMonitoring), es, k, outcome) && !outcome.Rejected?
    requires RowAt(s, k).thread.value.phase.Awaiting?
    requires Settles(s.l1, RowAt(s, k).thread.value.phase.tx, mined, keepMonitoring)
    ensures
      var m, row := RowAt(s, k).thread.value.mTx, RowAfter(limit, s, Await(mined, keepMonitoring), es, k, outcome);
      var receipt := s.l1.receipts[RowAt(s, k).thread.value.phase.tx];
      && row.Some? && row.value == Persist(m).(status := row.value.status, block := Some(receipt.block))
      && (receipt.success ==> row.value.status == Confirmed)
      && (!receipt.success ==> row.value.status == Failed)
  {
    CopyIsStored(limit, s, Await(mined, keepMonitoring), es, k, outcome);
  }

  /** Without such a receipt the goroutine ends and the row stays for the next round. */
  lemma UnsettledIsLeft(limit: nat, s: System, k: Key, mined: bool, keepMonitoring: bool)
    requires RowAt(s, k).thread.Some? && RowAt(s, k).thread.value.phase.Awaiting?
    requires Apply(limit, s, Acted(k, Await(mined, keepMonitoring))).Some?
    ensures
      var r, r' := RowAt(s, k), RowAt(Apply(limit, s, Acted(k, Await(mined, keepMonitoring))).value, k);
      && r'.row == r.row
      && (r'.thread.None? <==> !Settles(s.l1, r.thread.value.phase.tx, mined, keepMonitoring))
  {
  }

  /**
   The transaction is handed to the network unless that has it already, and its receipt is awaited, right away or after
   the write, unless the network refused it.
   */
  lemma BroadcastThenAwait(limit: nat, l1: L1, r: RowState, reply: Reply)
    requires r.thread.Some? && r.thread.value.phase.Broadcasting? && Step(limit, l1, r, Broadcast(reply)).Some?
    ensures
      var tx, r' := r.thread.value.phase.tx, Step(limit, l1, r, Broadcast(reply)).value;
      && r'.row == r.row && r'.sent == (if reply == Found then r.sent else r.sent + {tx})
      && (r'.thread.None? <==> reply == Refused)
      && (reply != Refused ==>
            r'.thread.value.phase == Awaiting(tx) || r'.thread.value.phase == Storing(Awaiting(tx)))
  {
  }

  /** The first broadcast the network accepts marks the row Sent; a row that was sent before stays as it is. */
  lemma SentIsStored(limit: nat, s: System, es: seq<Event>, k: Key, outcome: Outcome)
    requires DecidesAndStores(limit, s, Broadcast(Accepted), es, k, outcome) && !outcome.Rejected?
    requires RowAt(s, k).thread.value.phase.Broadcasting? && RowAt(s, k).thread.value.mTx.status.Created?
    ensures RowAfter(limit, s, Broadcast(Accepted), es, k, outcome)
      == Some(Persist(RowAt(s, k).thread.value.mTx).(status := Sent))
  {
    CopyIsStored(limit, s, Broadcast(Accepted), es, k, outcome);
  }
}
