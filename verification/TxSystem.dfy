/**
 The transaction manager as a whole: any number of rows, each stepped as in TxRowMachine, over one L1 chain.
 A run interleaves the steps of all rows with new blocks and chain reorganisations in any order.
 */
module TxSystem {
  import opened Wrappers
  import opened MonitoredTxs
  import opened TxRowMachine
  import opened TxRowSafety

  datatype Key = Key(owner: string, id: string)

  /** `seen` collects every receipt L1 ever showed. */
  datatype System = System(l1: L1, seen: set<(SignedTx, Receipt)>, rows: map<Key, RowState>)

  datatype Event =
    | Mined(tx: SignedTx, receipt: Receipt)
    | Reorganised(l1: L1)
    | Acted(key: Key, action: Action)

  function RowAt(s: System, k: Key): RowState {
    if k in s.rows then s.rows[k] else NO_ROW
  }

  function WithChain(s: System, l1: L1): System {
    s.(l1 := l1, seen := s.seen + l1.receipts.Items)
  }

  ghost function Apply(limit: nat, s: System, e: Event): Option<System> {
    match e
    case Mined(tx, receipt) =>
      var l1 := Mine(s.l1, tx, receipt);
      if l1.Some? then Some(WithChain(s, l1.value)) else None
    case Reorganised(l1) => if ValidChain(l1) then Some(WithChain(s, l1)) else None
    case Acted(k, a) =>
      var r := Step(limit, s.l1, RowAt(s, k), a);
      if r.Some? then Some(s.(rows := s.rows[k := r.value])) else None
  }

  /** The state after the events, or None when one of them was not enabled. */
  ghost function Run(limit: nat, s: System, es: seq<Event>): Option<System>
    decreases es
  {
    if es == [] then Some(s)
    else
      var s' := Apply(limit, s, es[0]);
      if s'.Some? then Run(limit, s'.value, es[1..]) else None
  }

  /** Every event of the run satisfies `ok` in the state it meets. */
  ghost predicate Along(limit: nat, s: System, es: seq<Event>, ok: (System, Event) -> bool)
    decreases es
  {
    es != [] ==>
      ok(s, es[0]) && (Apply(limit, s, es[0]).Some? ==> Along(limit, Apply(limit, s, es[0]).value, es[1..], ok))
  }

  lemma RunOne(limit: nat, s: System, e: Event)
    ensures Run(limit, s, [e]) == Apply(limit, s, e)
  {
    assert [e][1..] == [];
  }

  lemma {:induction false} RunSplits(limit: nat, s: System, es: seq<Event>, fs: seq<Event>)
    requires Run(limit, s, es + fs).Some?
    ensures Run(limit, s, es).Some? && Run(limit, Run(limit, s, es).value, fs) == Run(limit, s, es + fs)
    decreases es
  {
    if es == [] {
      assert es + fs == fs;
    } else {
      assert (es + fs)[1..] == es[1..] + fs;
      RunSplits(limit, Apply(limit, s, es[0]).value, es[1..], fs);
    }
  }

  function Boot(l1: L1): System {
    System(l1, l1.receipts.Items, map[])
  }

  // ---------- Every run ----------

  ghost predicate Sound(s: System) {
    && ValidChain(s.l1)
    && s.l1.receipts.Items <= s.seen
    && forall k <- s.rows :: Safe(s.rows[k]) && Witnessed(s.seen, s.rows[k])
  }

  lemma ApplyKeepsSound(limit: nat, s: System, e: Event)
    requires Sound(s) && Apply(limit, s, e).Some?
    ensures Sound(Apply(limit, s, e).value)
    ensures forall k :: SafeStep(RowAt(s, k), RowAt(Apply(limit, s, e).value, k))
  {
    assert Safe(NO_ROW);
    match e
    case Mined(tx, receipt) => MineKeepsValid(s.l1, tx, receipt);
    case Reorganised(_) =>
    case Acted(k, a) =>
      StepKeepsSafe(limit, s.l1, RowAt(s, k), a);
      StepKeepsWitnessed(limit, s.l1, s.seen, RowAt(s, k), a);
  }

  lemma {:induction false} RunKeepsSound(limit: nat, s: System, es: seq<Event>)
    requires Sound(s) && Run(limit, s, es).Some?
    ensures Sound(Run(limit, s, es).value)
    ensures forall k :: SafeStep(RowAt(s, k), RowAt(Run(limit, s, es).value, k))
    decreases es
  {
    if es == [] {
      assert Safe(NO_ROW);
    } else {
      ApplyKeepsSound(limit, s, es[0]);
      RunKeepsSound(limit, Apply(limit, s, es[0]).value, es[1..]);
    }
  }

  /** Whatever was handed to the network for a row had its hash stored first, and stays in the stored history. */
  lemma WriteAheadHistory(limit: nat, l1: L1, es: seq<Event>, later: seq<Event>, k: Key)
    requires ValidChain(l1) && Run(limit, Boot(l1), es).Some?
    requires Run(limit, Run(limit, Boot(l1), es).value, later).Some?
    ensures
      var r := RowAt(Run(limit, Boot(l1), es).value, k);
      var r' := RowAt(Run(limit, Run(limit, Boot(l1), es).value, later).value, k);
      && (r.sent != {} ==> r.row.Some?)
      && (r.row.Some? ==> r.sent <= r.row.value.history)
      && (r.row.Some? ==> r'.row.Some? && r.row.value.history <= r'.row.value.history)
  {
    RunKeepsSound(limit, Boot(l1), es);
    RunKeepsSound(limit, Run(limit, Boot(l1), es).value, later);
  }

  /** A Confirmed row has a successful receipt, which L1 showed, of a hash in its history and in its block. */
  lemma ConfirmedRowsHaveReceipts(limit: nat, l1: L1, es: seq<Event>, k: Key)
    requires ValidChain(l1) && Run(limit, Boot(l1), es).Some?
    requires RowAt(Run(limit, Boot(l1), es).value, k).row.Some?
    ensures
      var s := Run(limit, Boot(l1), es).value;
      var m := RowAt(s, k).row.value;
      m.status.Confirmed? || m.status.Failed? ==>
        && m.block.Some?
        && exists t :: t in m.history && (t, Receipt(m.status.Confirmed?, m.block.value)) in s.seen
  {
    RunKeepsSound(limit, Boot(l1), es);
    var m := RowAt(Run(limit, Boot(l1), es).value, k).row.value;
    assert Attested(Run(limit, Boot(l1), es).value.seen, m);
  }

  // ---------- Runs with stable receipts and sound nonce reviews ----------

  /** Receipts stay, and a scan leads to a review of the nonce only if the whole history was mined and failed. */
  predicate SoundReviews(s: System, e: Event) {
    && !e.Reorganised?
    && (e.Acted? ==> ReviewSound(s.l1, RowAt(s, e.key), e.action))
  }

  ghost predicate AllNonced(s: System) {
    forall k <- s.rows :: Nonced(s.l1, s.rows[k])
  }

  lemma {:induction false} RunKeepsNonced(limit: nat, s: System, es: seq<Event>)
    requires Sound(s) && AllNonced(s) && Run(limit, s, es).Some? && Along(limit, s, es, SoundReviews)
    ensures AllNonced(Run(limit, s, es).value)
    decreases es
  {
    if es != [] {
      var s' := Apply(limit, s, es[0]).value;
      ApplyKeepsSound(limit, s, es[0]);
      match es[0] {
        case Mined(tx, receipt) =>
          forall k <- s.rows ensures Nonced(s'.l1, s'.rows[k]) { ExtensionKeepsNonced(s.l1, s'.l1, s.rows[k]); }
        case Reorganised(_) =>
        case Acted(k, a) =>
          assert Safe(RowAt(s, k)) && Nonced(s.l1, RowAt(s, k));
          StepKeepsNonced(limit, s.l1, RowAt(s, k), a);
      }
      RunKeepsNonced(limit, s', es[1..]);
    }
  }

  /** At most one of all the transactions ever recorded or sent for a row succeeds. */
  lemma NoDuplicateSuccess(limit: nat, l1: L1, es: seq<Event>, k: Key, t: SignedTx, u: SignedTx)
    requires ValidChain(l1) && Run(limit, Boot(l1), es).Some? && Along(limit, Boot(l1), es, SoundReviews)
    requires
      var r := RowAt(Run(limit, Boot(l1), es).value, k);
      && r.row.Some?
      && t in r.row.value.history + r.sent && u in r.row.value.history + r.sent
    requires var chain := Run(limit, Boot(l1), es).value.l1; Succeeded(chain, t) && Succeeded(chain, u)
    ensures t == u
  {
    RunKeepsSound(limit, Boot(l1), es);
    RunKeepsNonced(limit, Boot(l1), es);
    var s := Run(limit, Boot(l1), es).value;
    AtMostOneSuccess(s.l1, RowAt(s, k).row.value, t, u);
  }

  /** Receipts stay, and every receipt query is answered. */
  predicate StableEvent(s: System, e: Event) {
    && !e.Reorganised?
    && (e.Acted? && e.action.Check? ==> !e.action.errored)
  }

  ghost predicate AllScanned(s: System) {
    forall k <- s.rows :: Scanned(s.l1, s.rows[k])
  }

  lemma ApplyKeepsScanned(limit: nat, s: System, e: Event)
    requires Sound(s) && AllScanned(s) && Apply(limit, s, e).Some? && StableEvent(s, e)
    ensures AllScanned(Apply(limit, s, e).value) && SoundReviews(s, e)
  {
    var s' := Apply(limit, s, e).value;
    match e
    case Mined(tx, receipt) =>
      forall k <- s.rows ensures Scanned(s'.l1, s'.rows[k]) { ExtensionKeepsScanned(s.l1, s'.l1, s.rows[k]); }
    case Acted(k, a) =>
      assert Safe(RowAt(s, k)) && Scanned(s.l1, RowAt(s, k));
      StepKeepsScanned(limit, s.l1, RowAt(s, k), a);
    case _ =>
  }

  /** In such a run no review comes too early, so `NoDuplicateSuccess` applies. */
  lemma {:induction false} AnsweredRunsAreSound(limit: nat, s: System, es: seq<Event>)
    requires Sound(s) && AllScanned(s) && Run(limit, s, es).Some? && Along(limit, s, es, StableEvent)
    ensures Along(limit, s, es, SoundReviews)
    decreases es
  {
    if es != [] {
      ApplyKeepsSound(limit, s, es[0]);
      ApplyKeepsScanned(limit, s, es[0]);
      AnsweredRunsAreSound(limit, Apply(limit, s, es[0]).value, es[1..]);
    }
  }

  // ---------- Runs in which the owner's Done writes find the row still Confirmed ----------

  predicate DoneWhileConfirmed(s: System, e: Event) {
    e.Acted? ==> StillConfirmed(RowAt(s, e.key), e.action)
  }

  ghost predicate AllDisciplined(s: System) {
    forall k <- s.rows :: Disciplined(s.rows[k])
  }

  lemma ApplyKeepsDisciplined(limit: nat, s: System, e: Event)
    requires Sound(s) && AllDisciplined(s) && Apply(limit, s, e).Some? && DoneWhileConfirmed(s, e)
    ensures AllDisciplined(Apply(limit, s, e).value)
    ensures forall k :: StatusKept(RowAt(s, k), RowAt(Apply(limit, s, e).value, k))
  {
    if e.Acted? {
      assert Safe(RowAt(s, e.key)) && Disciplined(RowAt(s, e.key));
      StepKeepsDisciplined(limit, s.l1, RowAt(s, e.key), e.action);
    }
  }

  lemma {:induction false} RunKeepsDisciplined(limit: nat, s: System, es: seq<Event>)
    requires Sound(s) && AllDisciplined(s) && Run(limit, s, es).Some? && Along(limit, s, es, DoneWhileConfirmed)
    ensures Sound(Run(limit, s, es).value) && AllDisciplined(Run(limit, s, es).value)
    decreases es
  {
    if es != [] {
      ApplyKeepsSound(limit, s, es[0]);
      ApplyKeepsDisciplined(limit, s, es[0]);
      RunKeepsDisciplined(limit, Apply(limit, s, es[0]).value, es[1..]);
    }
  }

  /**
   Statuses stay in order: after any such run a stored row lacks a block number exactly when it is being monitored,
   each goroutine's view of its row is the stored row, Reorg holds no row of a running goroutine, and the next
   event changes statuses only as intended.
   */
  lemma StatusesStayInOrder(limit: nat, l1: L1, es: seq<Event>, e: Event, k: Key)
    requires ValidChain(l1) && Run(limit, Boot(l1), es).Some? && Along(limit, Boot(l1), es, DoneWhileConfirmed)
    requires Apply(limit, Run(limit, Boot(l1), es).value, e).Some?
    requires DoneWhileConfirmed(Run(limit, Boot(l1), es).value, e)
    ensures
      var r := RowAt(Run(limit, Boot(l1), es).value, k);
      var r' := RowAt(Apply(limit, Run(limit, Boot(l1), es).value, e).value, k);
      && (r.row.Some? ==> (r.row.value.block.None? <==> Waiting(r.row.value.status)))
      && (r.thread.Some? ==> r.row == Some(r.thread.value.synced))
      && (r.reorg.Some? ==> r.thread.None?)
      && (e == Acted(k, ReorgWrite(Written)) ==> r.thread.None? && r'.row.value.status.Reorged?)
      && (r.row.Some? ==> r'.row.Some? && Allowed(r.row.value.status, r'.row.value.status))
  {
    RunKeepsDisciplined(limit, Boot(l1), es);
    ApplyKeepsDisciplined(limit, Run(limit, Boot(l1), es).value, e);
  }

  /**
   No reorg is lost: after any such run the next event moves a mined row out of its block without marking it Reorged
   exactly when it is a Done write of a row that was read in another block.
   */
  lemma NoLostReorg(limit: nat, l1: L1, es: seq<Event>, e: Event, k: Key)
    requires ValidChain(l1) && Run(limit, Boot(l1), es).Some? && Along(limit, Boot(l1), es, DoneWhileConfirmed)
    requires Apply(limit, Run(limit, Boot(l1), es).value, e).Some?
    ensures
      var r := RowAt(Run(limit, Boot(l1), es).value, k);
      LosesBlock(r, RowAt(Apply(limit, Run(limit, Boot(l1), es).value, e).value, k))
      <==> && e.Acted? && e.key == k && Marks(r, e.action)
           && r.row.value.block.Some? && r.processor.mTx.block != r.row.value.block
  {
    RunKeepsDisciplined(limit, Boot(l1), es);
    var s := Run(limit, Boot(l1), es).value;
    if e.Acted? && e.key == k {
      assert Safe(RowAt(s, k)) && Disciplined(RowAt(s, k));
      BlockDropsIff(limit, s.l1, RowAt(s, k), e.action);
    }
  }

  ghost predicate AllOrdered(s: System) {
    forall k <- s.rows :: Disciplined(s.rows[k]) && Ordered(s.rows[k])
  }

  lemma ApplyKeepsOrdered(limit: nat, s: System, e: Event)
    requires Sound(s) && AllOrdered(s) && Apply(limit, s, e).Some? && DoneWhileConfirmed(s, e)
    ensures AllOrdered(Apply(limit, s, e).value)
  {
    ApplyKeepsDisciplined(limit, s, e);
    if e.Acted? {
      assert Safe(RowAt(s, e.key)) && Disciplined(RowAt(s, e.key)) && Ordered(RowAt(s, e.key));
      StepKeepsOrdered(limit, s.l1, RowAt(s, e.key), e.action);
    }
  }

  lemma {:induction false} RunKeepsOrdered(limit: nat, s: System, es: seq<Event>)
    requires Sound(s) && AllOrdered(s) && Run(limit, s, es).Some? && Along(limit, s, es, DoneWhileConfirmed)
    ensures Sound(Run(limit, s, es).value) && AllOrdered(Run(limit, s, es).value)
    decreases es
  {
    if es != [] {
      ApplyKeepsSound(limit, s, es[0]);
      ApplyKeepsOrdered(limit, s, es[0]);
      RunKeepsOrdered(limit, Apply(limit, s, es[0]).value, es[1..]);
    }
  }

  /** The Done write of a row that was read with a lower nonce than the stored one. */
  predicate MarksOlderNonce(s: System, e: Event, k: Key) {
    && e.Acted? && e.key == k && Marks(RowAt(s, k), e.action)
    && RowAt(s, k).processor.mTx.nonce < RowAt(s, k).row.value.nonce
  }

  lemma EventDropsNonceIff(limit: nat, s: System, e: Event, k: Key)
    requires Sound(s) && AllOrdered(s) && Apply(limit, s, e).Some?
    ensures LosesNonce(RowAt(s, k), RowAt(Apply(limit, s, e).value, k)) <==> MarksOlderNonce(s, e, k)
  {
    if e.Acted? && e.key == k {
      assert Safe(RowAt(s, k)) && Disciplined(RowAt(s, k)) && Ordered(RowAt(s, k));
      NonceDropsIff(limit, s.l1, RowAt(s, k), e.action);
    }
  }

  /** No nonce is taken back: after any such run the next event lowers it exactly when it is such a Done write. */
  lemma NoLostNonce(limit: nat, l1: L1, es: seq<Event>, e: Event, k: Key)
    requires ValidChain(l1) && Run(limit, Boot(l1), es).Some? && Along(limit, Boot(l1), es, DoneWhileConfirmed)
    requires Apply(limit, Run(limit, Boot(l1), es).value, e).Some?
    ensures
      var s := Run(limit, Boot(l1), es).value;
      LosesNonce(RowAt(s, k), RowAt(Apply(limit, s, e).value, k)) <==> MarksOlderNonce(s, e, k)
  {
    RunKeepsOrdered(limit, Boot(l1), es);
    EventDropsNonceIff(limit, Run(limit, Boot(l1), es).value, e, k);
  }

  // ---------- Runs in which they also write the nonce that is stored ----------

  predicate DoneKeepsNonce(s: System, e: Event) {
    e.Acted? ==> StillConfirmed(RowAt(s, e.key), e.action) && SameNonce(RowAt(s, e.key), e.action)
  }

  lemma {:induction false} RunKeepsNonces(limit: nat, s: System, es: seq<Event>, k: Key)
    requires Sound(s) && AllOrdered(s) && Run(limit, s, es).Some? && Along(limit, s, es, DoneKeepsNonce)
    ensures
      var r, r' := RowAt(s, k), RowAt(Run(limit, s, es).value, k);
      r.row.Some? ==> r'.row.Some? && r.row.value.nonce <= r'.row.value.nonce
    decreases es
  {
    if es != [] {
      var s' := Apply(limit, s, es[0]).value;
      ApplyKeepsSound(limit, s, es[0]);
      ApplyKeepsOrdered(limit, s, es[0]);
      EventDropsNonceIff(limit, s, es[0], k);
      assert SafeStep(RowAt(s, k), RowAt(s', k)) && !LosesNonce(RowAt(s, k), RowAt(s', k));
      RunKeepsNonces(limit, s', es[1..], k);
    }
  }

  /** Over any stretch in which they do, the stored nonce never decreases. */
  lemma NoncesNeverDecrease(limit: nat, l1: L1, es: seq<Event>, later: seq<Event>, k: Key)
    requires ValidChain(l1) && Run(limit, Boot(l1), es).Some? && Along(limit, Boot(l1), es, DoneWhileConfirmed)
    requires
      var s := Run(limit, Boot(l1), es).value;
      Run(limit, s, later).Some? && Along(limit, s, later, DoneKeepsNonce) && RowAt(s, k).row.Some?
    ensures
      var m := RowAt(Run(limit, Boot(l1), es).value, k).row.value;
      var r' := RowAt(Run(limit, Run(limit, Boot(l1), es).value, later).value, k);
      r'.row.Some? && m.nonce <= r'.row.value.nonce
  {
    RunKeepsOrdered(limit, Boot(l1), es);
    RunKeepsNonces(limit, Run(limit, Boot(l1), es).value, later, k);
  }

  // ---------- Fees ----------

  ghost predicate AllPriced(limit: nat, s: System) {
    forall k <- s.rows :: Priced(limit, s.rows[k])
  }

  predicate EventFits(limit: nat, e: Event) {
    e.Acted? ==> PriceFits(limit, e.action)
  }

  lemma ApplyKeepsPriced(limit: nat, s: System, e: Event)
    requires Sound(s) && AllPriced(limit, s) && Apply(limit, s, e).Some? && EventFits(limit, e)
    ensures AllPriced(limit, Apply(limit, s, e).value)
    ensures forall k :: PricedStep(limit, RowAt(s, k), RowAt(Apply(limit, s, e).value, k))
  {
    if e.Acted? {
      assert Safe(RowAt(s, e.key)) && Priced(limit, RowAt(s, e.key));
      StepKeepsPriced(limit, s.l1, RowAt(s, e.key), e.action);
    }
  }

  lemma {:induction false} RunKeepsPriced(limit: nat, s: System, es: seq<Event>, k: Key)
    requires Sound(s) && AllPriced(limit, s) && Run(limit, s, es).Some? && forall e <- es :: EventFits(limit, e)
    ensures Sound(Run(limit, s, es).value) && AllPriced(limit, Run(limit, s, es).value)
    ensures PricedStep(limit, RowAt(s, k), RowAt(Run(limit, s, es).value, k))
    decreases es
  {
    if es != [] {
      ApplyKeepsSound(limit, s, es[0]);
      ApplyKeepsPriced(limit, s, es[0]);
      assert PricedStep(limit, RowAt(s, k), RowAt(Apply(limit, s, es[0]).value, k));
      RunKeepsPriced(limit, Apply(limit, s, es[0]).value, es[1..], k);
    }
  }

  /**
   In every run with a price limit, and in every run whose prices fit 64 bits, stored gas and prices never decrease
   and no stored price exceeds a limit.
   */
  lemma MonotoneCappedFees(limit: nat, l1: L1, es: seq<Event>, later: seq<Event>, k: Key)
    requires 0 < limit < TWO_64 || forall e <- es + later :: EventFits(limit, e)
    requires ValidChain(l1) && Run(limit, Boot(l1), es).Some?
    requires
      var s := Run(limit, Boot(l1), es).value;
      Run(limit, s, later).Some? && RowAt(s, k).row.Some?
    ensures
      var m := RowAt(Run(limit, Boot(l1), es).value, k).row.value;
      var r' := RowAt(Run(limit, Run(limit, Boot(l1), es).value, later).value, k);
      && r'.row.Some?
      && m.gas <= r'.row.value.gas && m.gasPrice <= r'.row.value.gasPrice
      && (limit > 0 ==> r'.row.value.gasPrice <= limit)
  {
    assert forall e <- es :: e in es + later;
    assert forall e <- later :: e in es + later;
    RunKeepsPriced(limit, Boot(l1), es, k);
    RunKeepsPriced(limit, Run(limit, Boot(l1), es).value, later, k);
  }

  // ---------- What a row is about ----------

  ghost predicate AllIdentified(s: System) {
    forall k <- s.rows :: Identified(s.rows[k])
  }

  lemma ApplyKeepsCall(limit: nat, s: System, e: Event)
    requires Sound(s) && AllIdentified(s) && Apply(limit, s, e).Some?
    ensures AllIdentified(Apply(limit, s, e).value)
    ensures forall k :: IdentifiedStep(RowAt(s, k), RowAt(Apply(limit, s, e).value, k))
  {
    if e.Acted? {
      assert Safe(RowAt(s, e.key)) && Identified(RowAt(s, e.key));
      StepKeepsCall(limit, s.l1, RowAt(s, e.key), e.action);
    }
  }

  lemma {:induction false} RunKeepsCall(limit: nat, s: System, es: seq<Event>, k: Key)
    requires Sound(s) && AllIdentified(s) && Run(limit, s, es).Some?
    ensures Sound(Run(limit, s, es).value) && AllIdentified(Run(limit, s, es).value)
    ensures IdentifiedStep(RowAt(s, k), RowAt(Run(limit, s, es).value, k))
    decreases es
  {
    if es != [] {
      ApplyKeepsSound(limit, s, es[0]);
      ApplyKeepsCall(limit, s, es[0]);
      assert IdentifiedStep(RowAt(s, k), RowAt(Apply(limit, s, es[0]).value, k));
      RunKeepsCall(limit, Apply(limit, s, es[0]).value, es[1..], k);
    }
  }

  /** In every run a stored row keeps its account, its target, its value and its data, whoever writes it. */
  lemma CallsNeverChange(limit: nat, l1: L1, es: seq<Event>, later: seq<Event>, k: Key)
    requires ValidChain(l1) && Run(limit, Boot(l1), es).Some?
    requires var s := Run(limit, Boot(l1), es).value; Run(limit, s, later).Some? && RowAt(s, k).row.Some?
    ensures
      var m := RowAt(Run(limit, Boot(l1), es).value, k).row.value;
      var r' := RowAt(Run(limit, Run(limit, Boot(l1), es).value, later).value, k);
      && r'.row.Some?
      && r'.row.value.from == m.from && r'.row.value.to == m.to && r'.row.value.value == m.value
      && r'.row.value.data == m.data && r'.row.value.gasOffset == m.gasOffset
  {
    RunKeepsCall(limit, Boot(l1), es, k);
    RunKeepsCall(limit, Run(limit, Boot(l1), es).value, later, k);
  }
}
