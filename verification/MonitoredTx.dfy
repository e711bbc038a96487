/**
 The rows of the transaction manager (ethtxmanager/monitoredtx.go), the way they are written to
 storage (ethtxmanager/pgstorage.go), and the L1 chain the manager watches.
 */
module MonitoredTxs {
  import opened Wrappers

  type Address = string

  /** A signed L1 transaction.  Hashes are taken to be collision free, so a transaction stands for its hash. */
  datatype SignedTx = SignedTx(from: Address, nonce: nat, to: Option<Address>, data: seq<bv8>, gas: nat, gasPrice: nat)

  datatype Receipt = Receipt(success: bool, block: Uint64)

  datatype Status = Created | Sent | Failed | Confirmed | Reorged | Done

  /** The owner and the id of a row are its key in the table.  Both clocks of the row are left out. */
  datatype MonitoredTx = MonitoredTx(
    from: Address,
    to: Option<Address>,
    nonce: nat,
    value: Option<nat>,
    data: seq<bv8>,
    gas: nat,
    gasOffset: nat,
    gasPrice: nat,
    status: Status,
    block: Option<Uint64>,
    history: set<SignedTx>)

  /** Statuses in which the manager may still broadcast transactions. */
  predicate Open(s: Status) {
    s.Created? || s.Sent?
  }

  /** The statuses a monitoring round selects. */
  predicate Waiting(s: Status) {
    Open(s) || s.Reorged?
  }

  /** What a storage write leaves in the table: big integers pass through an unsigned 64-bit column value. */
  function Persist(m: MonitoredTx): MonitoredTx {
    m.(gasPrice := m.gasPrice % TWO_64,
       value := if m.value.Some? then Some(m.value.value % TWO_64) else None)
  }

  /** Writing a row and reading it back gives the row exactly when its price and value fit 64 bits. */
  lemma PersistRoundTrip(m: MonitoredTx)
    ensures Persist(m) == m <==> m.gasPrice < TWO_64 && (m.value.Some? ==> m.value.value < TWO_64)
    ensures Persist(Persist(m)) == Persist(m)
    ensures Persist(m).gasPrice < TWO_64 && (m.gasPrice - Persist(m).gasPrice) % TWO_64 == 0
    ensures m.value.Some? ==>
      && Persist(m).value.Some? && Persist(m).value.value < TWO_64
      && (m.value.value - Persist(m).value.value) % TWO_64 == 0
  {
    if m.value.Some? {
      assert m.value == Some(m.value.value);
    }
  }

  // ---------- L1 ----------

  /** The chain as the manager sees it: account nonces, and the receipts of the mined transactions. */
  datatype L1 = L1(nonces: map<Address, nat>, receipts: map<SignedTx, Receipt>)

  function NonceOf(l1: L1, a: Address): nat {
    if a in l1.nonces then l1.nonces[a] else 0
  }

  /** A mined transaction used up its sender's nonce, and no nonce is used twice. */
  ghost predicate ValidChain(l1: L1) {
    && (forall t <- l1.receipts :: t.nonce < NonceOf(l1, t.from))
    && (forall t, u | t in l1.receipts && u in l1.receipts && t.from == u.from && t.nonce == u.nonce :: t == u)
  }

  predicate Succeeded(l1: L1, t: SignedTx) {
    t in l1.receipts && l1.receipts[t].success
  }

  predicate MinedAndFailed(l1: L1, t: SignedTx) {
    t in l1.receipts && !l1.receipts[t].success
  }

  /** A block includes `t`: only the transaction carrying the account's current nonce can be mined. */
  function Mine(l1: L1, t: SignedTx, receipt: Receipt): Option<L1> {
    if t in l1.receipts || t.nonce != NonceOf(l1, t.from) then None
    else Some(L1(l1.nonces[t.from := t.nonce + 1], l1.receipts[t := receipt]))
  }

  lemma MineKeepsValid(l1: L1, t: SignedTx, receipt: Receipt)
    requires ValidChain(l1) && Mine(l1, t, receipt).Some?
    ensures ValidChain(Mine(l1, t, receipt).value)
  {
  }
}
