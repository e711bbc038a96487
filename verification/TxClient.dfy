/**
 The client's own code (ethtxmanager/ethtxmanager.go) over the monitored_txs table.  Answers of L1, of the signer
 and of the network are parameters.  A call of MonitorTx that nobody interrupts is a run of the row machine.
 */
module TxClient {
  import opened Wrappers
  import opened MonitoredTxs
  import opened TxRowMachine
  import opened TxRowSafety
  import opened TxSystem
  import opened TxRounds

  // ---------- The loop over the history ----------

  /** What the loop over the history leaves: `receipt` is the last one looked at. */
  datatype Scan = Scan(confirmed: bool, receipt: Option<Receipt>, hasFailed: bool, allMined: bool)

  predicate NeedsNonceReview(x: Scan) {
    !x.confirmed && x.hasFailed && x.allMined
  }

  predicate Success(found: map<SignedTx, Receipt>, t: SignedTx) {
    t in found && found[t].success
  }

  predicate Failure(found: map<SignedTx, Receipt>, t: SignedTx) {
    t in found && !found[t].success
  }

  /** What the loop is for, given the receipts its queries find, without the order it visits the history in. */
  ghost predicate Describes(found: map<SignedTx, Receipt>, history: set<SignedTx>, unanswered: set<SignedTx>, x: Scan) {
    var answered := history - unanswered;
    && (x.confirmed <==> exists t :: t in answered && Success(found, t))
    && (x.confirmed ==> x.receipt.Some? && exists t :: t in answered && Success(found, t) && found[t] == x.receipt.value)
    && (!x.confirmed ==> (x.hasFailed <==> exists t :: t in answered && Failure(found, t)))
    && (!x.confirmed ==> (x.allMined <==> forall t :: t in answered ==> t in found))
  }

  /** Neither decision taken from the loop depends on the map's iteration order. */
  lemma OrderDoesNotMatter(found: map<SignedTx, Receipt>, history: set<SignedTx>, unanswered: set<SignedTx>, x: Scan, y: Scan)
    requires Describes(found, history, unanswered, x) && Describes(found, history, unanswered, y)
    ensures x.confirmed == y.confirmed && NeedsNonceReview(x) == NeedsNonceReview(y)
    ensures x.confirmed && (forall t, u | t in history && u in history && Success(found, t) && Success(found, u) :: t == u)
      ==> x.receipt == y.receipt
  {
  }

  lemma AnsweredReviewIsSound(found: map<SignedTx, Receipt>, history: set<SignedTx>, unanswered: set<SignedTx>, x: Scan)
    requires history !! unanswered || history <= unanswered
    requires Describes(found, history, unanswered, x) && NeedsNonceReview(x)
    ensures forall t <- history :: Failure(found, t)
  {
    assert history !! unanswered ==> history - unanswered == history;
    assert history <= unanswered ==> history - unanswered == {};
  }

  /** Two answered transactions that cannot both be mined. */
  ghost predicate Competing(answered: set<SignedTx>) {
    exists t, u :: t in answered && u in answered && t != u && t.from == u.from && t.nonce == u.nonce
  }

  /** A chain on which exactly these transactions were mined and failed. */
  lemma {:induction false} ChainOfFailures(txs: set<SignedTx>) returns (l1: L1)
    requires !Competing(txs)
    ensures ValidChain(l1) && l1.receipts.Keys == txs && forall t <- txs :: MinedAndFailed(l1, t)
    decreases txs
  {
    if txs == {} {
      l1 := L1(map[], map[]);
    } else {
      var t :| t in txs;
      assert forall u <- txs - {t} :: u in txs;
      var l := ChainOfFailures(txs - {t});
      l1 := L1(l.nonces[t.from := Max(NonceOf(l, t.from), t.nonce + 1)], l.receipts[t := Receipt(false, 0)]);
      assert forall u <- l.receipts :: u in txs && NonceOf(l, u.from) <= NonceOf(l1, u.from);
    }
  }

  lemma CompetingAreNotAllMined(l1: L1, found: map<SignedTx, Receipt>, history: set<SignedTx>, unanswered: set<SignedTx>, x: Scan)
    requires ValidChain(l1) && found.Keys <= l1.receipts.Keys
    requires Competing(history - unanswered) && Describes(found, history, unanswered, x)
    ensures !NeedsNonceReview(x)
  {
    var t, u :| t in history - unanswered && u in history - unanswered && t != u && t.from == u.from && t.nonce == u.nonce;
    assert !(t in found && u in found);
  }

  /**
   The nonce may be reviewed only when every history transaction was mined and failed.  The loop guarantees that
   on every chain there can be exactly when all receipt queries were answered, or none was, or two of the answered
   transactions exclude each other, so that they are never all mined.
   */
  lemma ReviewIsSoundIff(history: set<SignedTx>, unanswered: set<SignedTx>)
    ensures
      (forall l1, x | ValidChain(l1) && Describes(l1.receipts, history, unanswered, x) && NeedsNonceReview(x) ::
         forall t <- history :: MinedAndFailed(l1, t))
      <==> history !! unanswered || history <= unanswered || Competing(history - unanswered)
  {
    if history !! unanswered || history <= unanswered || Competing(history - unanswered) {
      forall l1, x | ValidChain(l1) && Describes(l1.receipts, history, unanswered, x) && NeedsNonceReview(x)
        ensures forall t <- history :: MinedAndFailed(l1, t)
      {
        if Competing(history - unanswered) {
          CompetingAreNotAllMined(l1, l1.receipts, history, unanswered, x);
        } else {
          AnsweredReviewIsSound(l1.receipts, history, unanswered, x);
          assert forall t <- history :: Failure(l1.receipts, t);
        }
      }
    } else {
      var l1, x, hidden := UnsoundReview(history, unanswered);
    }
  }

  /** One query unanswered, one answered: a chain on which the review is wrong. */
  lemma UnsoundReview(history: set<SignedTx>, unanswered: set<SignedTx>) returns (l1: L1, x: Scan, hidden: SignedTx)
    requires !(history !! unanswered) && !(history <= unanswered) && !Competing(history - unanswered)
    ensures ValidChain(l1) && Describes(l1.receipts, history, unanswered, x) && NeedsNonceReview(x)
    ensures hidden in history && !MinedAndFailed(l1, hidden)
  {
    hidden :| hidden in history && hidden in unanswered;
    var shown :| shown in history && shown !in unanswered;
    l1 := ChainOfFailures(history - unanswered);
    x := Scan(false, Some(Receipt(false, 0)), true, true);
    assert shown in history - unanswered && Failure(l1.receipts, shown);
    assert forall t <- history - unanswered :: MinedAndFailed(l1, t) && !Success(l1.receipts, t);
  }

  /** The receipts found when each transaction is looked up on the chain of its moment. */
  function FoundBy(scan: SignedTx -> L1, history: set<SignedTx>): map<SignedTx, Receipt> {
    map t | t in history && t in scan(t).receipts :: scan(t).receipts[t]
  }

  /** A chain that grows while the history is scanned changes nothing: under the same condition the review is sound. */
  lemma ReviewOfGrowingChainIsSound(scan: SignedTx -> L1, l1: L1, history: set<SignedTx>, unanswered: set<SignedTx>, x: Scan)
    requires history !! unanswered || history <= unanswered || Competing(history - unanswered)
    requires Describes(FoundBy(scan, history), history, unanswered, x) && NeedsNonceReview(x)
    requires ValidChain(l1) && forall t <- history :: Extends(scan(t), l1)
    ensures AllFailed(l1, history)
  {
    var found := FoundBy(scan, history);
    assert forall t <- found :: t in scan(t).receipts && Extends(scan(t), l1);
    if Competing(history - unanswered) {
      CompetingAreNotAllMined(l1, found, history, unanswered, x);
    } else {
      AnsweredReviewIsSound(found, history, unanswered, x);
    }
  }

  /** So the scan of a row that ends this way is one that `NoDuplicateSuccess` allows. */
  lemma ScanEndsSoundly(scan: SignedTx -> L1, l1: L1, r: RowState, unanswered: set<SignedTx>, x: Scan)
    requires r.thread.Some? && r.thread.value.phase == Scanning({}, x.hasFailed, x.allMined) && !x.confirmed
    requires
      var history := r.thread.value.mTx.history;
      && (history !! unanswered || history <= unanswered || Competing(history - unanswered))
      && Describes(FoundBy(scan, history), history, unanswered, x)
      && forall t <- history :: Extends(scan(t), l1)
    requires ValidChain(l1)
    ensures ReviewSound(l1, r, EndScan)
  {
    if NeedsNonceReview(x) {
      ReviewOfGrowingChainIsSound(scan, l1, r.thread.value.mTx.history, unanswered, x);
    }
  }

  /** Lines 294-320, visiting the history in the order given; L1 may change between two queries. */
  method ScanHistory(scan: SignedTx -> L1, history: set<SignedTx>, order: seq<SignedTx>, unanswered: set<SignedTx>)
    returns (x: Scan)
    requires forall t :: t in order <==> t in history
    ensures Describes(FoundBy(scan, history), history, unanswered, x)
  {
    ghost var found := FoundBy(scan, history);
    var receipt: Option<Receipt>, hasFailed, allMined := None, false, true;
    for i := 0 to |order|
      invariant forall t :: t in order[..i] && t !in unanswered ==> !Success(found, t)
      invariant hasFailed <==> exists t :: t in order[..i] && t !in unanswered && Failure(found, t)
      invariant allMined <==> forall t :: t in order[..i] && t !in unanswered ==> t in found
    {
      assert order[..i + 1] == order[..i] + [order[i]];
      if order[i] in unanswered {
        continue;
      }
      var receipts := scan(order[i]).receipts;
      assert order[i] in found <==> order[i] in receipts;
      if order[i] !in receipts {
        allMined := false;
        continue;
      }
      receipt := Some(receipts[order[i]]);
      if receipt.value.success {
        assert order[i] in history - unanswered && Success(found, order[i]);
        return Scan(true, receipt, hasFailed, allMined);
      }
      hasFailed := true;
    }
    assert order[..|order|] == order;
    x := Scan(false, receipt, hasFailed, allMined);
  }

  // ---------- Runs of the row machine ----------

  /**
   The answers one call of monitorTx gets, and the fate of the write that precedes each phase.  Each call to L1 meets
   the chain of its moment: `scan` for the receipt queries, `reviewed` for the nonce, `awaited` for the receipt of the
   transaction sent.  The signer must
   return a transaction with the row's sender and nonce (ethtxmanager/custodialassetshttp_xlayer.go:308), so only
   the rest of `signed` is free.
   */
  datatype World = World(
    scan: SignedTx -> L1,
    reviewed: L1,
    awaited: L1,
    order: seq<SignedTx>,
    unanswered: set<SignedTx>,
    nonceOk: bool,
    gas: Option<nat>,
    price: Option<nat>,
    signed: Option<SignedTx>,
    reply: Reply,
    mined: bool,
    keepMonitoring: bool,
    writes: Phase -> Outcome)

  function SignedFor(w: World, m: MonitoredTx): Option<SignedTx> {
    if w.signed.Some? then Some(w.signed.value.(from := m.from, nonce := m.nonce)) else None
  }

  /** The action is the one these answers lead to. */
  predicate Follows(w: World, r: RowState, a: Action) {
    match a
    case Check(tx, errored) => errored <==> tx in w.unanswered
    case CurrentNonce(ok) => ok == w.nonceOk
    case Decide(gas, price) => gas == w.gas && price == w.price
    case Sign(signed) => r.thread.Some? && signed == SignedFor(w, r.thread.value.mTx)
    case Broadcast(reply) => reply == w.reply
    case Await(mined, keepMonitoring) => mined == w.mined && keepMonitoring == w.keepMonitoring
    case Store(outcome) => r.thread.Some? && r.thread.value.phase.Storing? && outcome == w.writes(r.thread.value.phase.next)
    case _ => true
  }

  function ChainFor(w: World, a: Action): L1 {
    match a
    case Check(tx, _) => w.scan(tx)
    case CurrentNonce(_) => w.reviewed
    case _ => w.awaited
  }

  /** Steps of one row that follow the answers of `w`, each on the chain of its call. */
  ghost function Steps(limit: nat, w: World, r: RowState, actions: seq<Action>): Option<RowState>
    decreases |actions|
  {
    if actions == [] then Some(r)
    else
      var a, init := actions[|actions| - 1], Steps(limit, w, r, actions[..|actions| - 1]);
      if init.Some? && Follows(w, init.value, a) then Step(limit, ChainFor(w, a), init.value, a) else None
  }

  /** The actions taken so far, and the row they lead to. */
  datatype Log = Log(actions: seq<Action>, r: RowState)

  ghost predicate Valid(limit: nat, w: World, r0: RowState, log: Log) {
    Steps(limit, w, r0, log.actions) == Some(log.r)
  }

  ghost function Next(limit: nat, w: World, r0: RowState, log: Log, a: Action, r: RowState): (log': Log)
    requires Valid(limit, w, r0, log) && Follows(w, log.r, a) && Step(limit, ChainFor(w, a), log.r, a) == Some(r)
    ensures Valid(limit, w, r0, log') && log'.r == r
  {
    assert (log.actions + [a])[..|log.actions + [a]| - 1] == log.actions;
    Log(log.actions + [a], r)
  }

  lemma StartScan(limit: nat, w: World, r: RowState, m: MonitoredTx) returns (log: Log)
    requires r.row == Some(m) && Waiting(m.status) && r.thread.None?
    ensures Valid(limit, w, r, log)
    ensures log.r == At(r, m, r.sent, m, Scanning(m.history, false, true))
  {
    log := Next(limit, w, r, Log([], r), TxRowMachine.Action.Start, At(r, m, r.sent, m, Scanning(m.history, false, true)));
  }

  lemma EndScanning(limit: nat, w: World, r0: RowState, log0: Log, t: Thread) returns (log: Log)
    requires Valid(limit, w, r0, log0) && log0.r.thread == Some(t) && t.phase.Scanning? && t.phase.todo == {}
    ensures Valid(limit, w, r0, log)
    ensures log.r == ToPhase(log0.r, t, if t.phase.hasFailed && t.phase.allMined then ReviewingNonce else Deciding)
  {
    log := Next(limit, w, r0, log0, EndScan,
                ToPhase(log0.r, t, if t.phase.hasFailed && t.phase.allMined then ReviewingNonce else Deciding));
  }

  lemma ReadForDone(limit: nat, w: World, r0: RowState, log0: Log, ok: bool) returns (log: Log)
    requires Valid(limit, w, r0, log0) && log0.r.processor.Getting? && log0.r.row.Some?
    ensures Valid(limit, w, r0, log)
    ensures log.r == log0.r.(processor := if ok then Marking(log0.r.row.value) else Looping)
  {
    log := Next(limit, w, r0, log0, Get(ok), log0.r.(processor := if ok then Marking(log0.r.row.value) else Looping));
  }

  lemma WriteDone(limit: nat, w: World, r0: RowState, log0: Log, outcome: Outcome, row: MonitoredTx) returns (log: Log)
    requires Valid(limit, w, r0, log0) && log0.r.processor.Marking? && log0.r.row.Some?
    requires row == if outcome.Rejected? then log0.r.row.value else Persist(log0.r.processor.mTx.(status := Done))
    ensures Valid(limit, w, r0, log)
    ensures log.r == log0.r.(row := Some(row), processor := if outcome.Written? then Handling else Looping)
  {
    log := Next(limit, w, r0, log0, Mark(outcome),
                log0.r.(row := Some(row), processor := if outcome.Written? then Handling else Looping));
  }

  lemma TakeConfirmed(limit: nat, w: World, r0: RowState, log0: Log) returns (log: Log)
    requires Valid(limit, w, r0, log0) && log0.r.processor == Listed(Confirmed)
    ensures Valid(limit, w, r0, log) && log.r == log0.r.(processor := Getting)
  {
    log := Next(limit, w, r0, log0, Take, log0.r.(processor := Getting));
  }

  lemma CallHandler(limit: nat, w: World, r0: RowState, log0: Log) returns (log: Log)
    requires Valid(limit, w, r0, log0) && log0.r.processor.Handling?
    ensures Valid(limit, w, r0, log) && log.r == log0.r.(processor := Looping, reports := log0.r.reports + 1)
  {
    log := Next(limit, w, r0, log0, Handle, log0.r.(processor := Looping, reports := log0.r.reports + 1));
  }

  lemma CheckOne(limit: nat, w: World, r0: RowState, log0: Log, t: Thread, found: map<SignedTx, Receipt>, u: SignedTx)
    returns (log: Log)
    requires Valid(limit, w, r0, log0) && log0.r.thread == Some(t) && t.phase.Scanning?
    requires found == FoundBy(w.scan, t.mTx.history) && u in t.phase.todo && u in t.mTx.history
    requires u in w.unanswered || !Success(found, u)
    ensures Valid(limit, w, r0, log)
    ensures
      var missed := u in w.unanswered;
      log.r == ToPhase(log0.r, t, Scanning(t.phase.todo - {u}, t.phase.hasFailed || (!missed && u in found),
                                           t.phase.allMined && (missed || u in found)))
  {
    var missed := u in w.unanswered;
    var next := Scanning(t.phase.todo - {u}, t.phase.hasFailed || (!missed && u in found),
                         t.phase.allMined && (missed || u in found));
    log := Next(limit, w, r0, log0, Check(u, missed), ToPhase(log0.r, t, next));
  }

  /** Checking the remaining transactions one by one, none of them a success. */
  lemma {:induction false} CheckAll(limit: nat, w: World, r0: RowState, log0: Log, t: Thread, found: map<SignedTx, Receipt>)
    returns (log: Log)
    requires Valid(limit, w, r0, log0) && log0.r.thread == Some(t) && t.phase.Scanning?
    requires found == FoundBy(w.scan, t.mTx.history) && t.phase.todo <= t.mTx.history
    requires forall u <- t.phase.todo - w.unanswered :: !Success(found, u)
    ensures Valid(limit, w, r0, log)
    ensures
      var answered := t.phase.todo - w.unanswered;
      log.r == ToPhase(log0.r, t, Scanning({},
        t.phase.hasFailed || (exists u :: u in answered && Failure(found, u)),
        t.phase.allMined && (forall u :: u in answered ==> u in found)))
    decreases t.phase.todo
  {
    var Scanning(todo, hasFailed, allMined) := t.phase;
    if todo == {} {
      assert todo - w.unanswered == {};
      log := log0;
    } else {
      var u :| u in todo;
      var missed := u in w.unanswered;
      assert !missed ==> u in todo - w.unanswered;
      var next := Scanning(todo - {u}, hasFailed || (!missed && u in found), allMined && (missed || u in found));
      log := CheckOne(limit, w, r0, log0, t, found, u);
      assert forall v <- todo - {u} - w.unanswered :: v in todo - w.unanswered;
      assert forall v <- todo - w.unanswered :: v == u || v in todo - {u} - w.unanswered;
      log := CheckAll(limit, w, r0, log, t.(phase := next), found);
    }
  }

  /** Whatever the loop returns, the row machine gets to. */
  lemma ScanIsRun(limit: nat, w: World, r0: RowState, log0: Log, m: MonitoredTx, x: Scan)
    returns (log: Log)
    requires Valid(limit, w, r0, log0) && log0.r.thread == Some(Thread(m, Scanning(m.history, false, true), m))
    requires Describes(FoundBy(w.scan, m.history), m.history, w.unanswered, x)
    ensures Valid(limit, w, r0, log)
    ensures log.r == if x.confirmed then Settle(log0.r, log0.r.thread.value, Confirmed, x.receipt.value.block)
                     else ToPhase(log0.r, log0.r.thread.value, Scanning({}, x.hasFailed, x.allMined))
  {
    var t, found := log0.r.thread.value, FoundBy(w.scan, m.history);
    if x.confirmed {
      var u :| u in m.history - w.unanswered && Success(found, u) && found[u] == x.receipt.value;
      log := Next(limit, w, r0, log0, Check(u, false), Settle(log0.r, t, Confirmed, x.receipt.value.block));
    } else {
      log := CheckAll(limit, w, r0, log0, t, found);
    }
  }

  /** The row of `r` as stored, with a goroutine at work on its copy. */
  function At(r: RowState, stored: MonitoredTx, sent: set<SignedTx>, mTx: MonitoredTx, phase: Phase): RowState {
    r.(row := Some(stored), sent := sent, thread := Some(Thread(mTx, phase, stored)))
  }

  /** The same once the goroutine has returned. */
  function Left(r: RowState, stored: MonitoredTx, sent: set<SignedTx>): RowState {
    r.(row := Some(stored), sent := sent, thread := None)
  }

  predicate MinedFrom(table: map<Key, MonitoredTx>, k: Key, fromBlock: nat) {
    k in table && table[k].block.Some? && fromBlock <= table[k].block.value
  }

  function AsReorged(m: MonitoredTx): MonitoredTx {
    Persist(m.(block := None, status := Reorged))
  }

  /** How many writes of Reorg take effect: the first error ends it, though its write may have. */
  function Landed(found: seq<Key>, outcomes: Key -> Outcome): (n: nat)
    ensures n <= |found|
  {
    if found == [] || outcomes(found[0]).Rejected? then 0
    else if outcomes(found[0]).WrittenUnacked? then 1
    else 1 + Landed(found[1..], outcomes)
  }

  /** A row is written exactly when all writes before it succeeded and its own is not lost. */
  lemma {:induction false} LandedIff(found: seq<Key>, outcomes: Key -> Outcome, i: nat)
    requires i < |found|
    ensures i < Landed(found, outcomes)
      <==> (forall j :: 0 <= j < i ==> outcomes(found[j]).Written?) && !outcomes(found[i]).Rejected?
    decreases i
  {
    if i > 0 {
      LandedIff(found[1..], outcomes, i - 1);
      assert forall j :: 0 < j < |found| ==> found[j] == found[1..][j - 1];
      if !outcomes(found[0]).Written? {
        assert !forall j :: 0 <= j < i ==> outcomes(found[j]).Written?;
      } else if forall j :: 0 <= j < i - 1 ==> outcomes(found[1..][j]).Written? {
        assert forall j :: 0 < j < i ==> outcomes(found[j]).Written?;
      } else {
        var j :| 0 <= j < i - 1 && !outcomes(found[1..][j]).Written?;
        assert !outcomes(found[j + 1]).Written?;
      }
    }
  }

  /** The table with the rows of `keys` marked reorged. */
  function MarkedReorged(table: map<Key, MonitoredTx>, keys: seq<Key>): map<Key, MonitoredTx> {
    map k <- table :: if k in keys then AsReorged(table[k]) else table[k]
  }

  function AfterReorg(m: MonitoredTx, outcome: Outcome): MonitoredTx {
    if outcome.Rejected? then m else AsReorged(m)
  }

  /** The row machine reads such a row and writes it back to the same effect. */
  lemma ReorgIsSteps(limit: nat, l1: L1, fromBlock: nat, r: RowState, outcome: Outcome)
    requires r.row.Some? && r.row.value.block.Some? && fromBlock <= r.row.value.block.value && r.reorg.None?
    ensures Step(limit, l1, r, ReorgRead(fromBlock)) == Some(r.(reorg := r.row))
    ensures Step(limit, l1, r.(reorg := r.row), ReorgWrite(outcome)) == Some(r.(row := Some(AfterReorg(r.row.value, outcome))))
  {
  }

  /** What the owner asks to be sent. */
  datatype Call = Call(from: Address, to: Option<Address>, value: Option<nat>, data: seq<bv8>, gasOffset: nat)

  function NewRow(c: Call, nonce: nat, gas: nat, price: nat): MonitoredTx {
    MonitoredTx(c.from, c.to, nonce, c.value, c.data, gas, c.gasOffset, price, Created, None, {})
  }

  class Client {
    const limit: nat
    var storage: map<Key, MonitoredTx>

    /** Only the row of `k` may differ from `before`. */
    predicate OnlyRow(k: Key, before: map<Key, MonitoredTx>)
      reads this
    {
      k in storage && storage == before[k := storage[k]]
    }

    /** The row machine got from `log0` to where this call is: at `phase`, or done when it gave up. */
    ghost predicate Reached(k: Key, w: World, r: RowState, log: Log, sent: set<SignedTx>, mTx: MonitoredTx, phase: Phase)
      reads this
    {
      && k in storage
      && Valid(limit, w, r, log)
      && log.r == if phase.Finished? then Left(r, storage[k], sent) else At(r, storage[k], sent, mTx, phase)
    }

    /** A whole-row write; the caller learns whether it got an error. */
    method Update(k: Key, mTx: MonitoredTx, next: Phase, w: World, ghost r: RowState, ghost log0: Log)
      returns (ok: bool, ghost log: Log)
      requires Reached(k, w, r, log0, log0.r.sent, mTx, Storing(next))
      modifies this
      ensures OnlyRow(k, old(storage))
      ensures ok <==> w.writes(next).Written?
      ensures storage[k] == if w.writes(next).Rejected? then old(storage)[k] else Persist(mTx)
      ensures Reached(k, w, r, log, log0.r.sent, mTx, if ok then next else Finished)
    {
      var outcome := w.writes(next);
      if !outcome.Rejected? {
        storage := storage[k := Persist(mTx)];
      }
      ok := outcome.Written?;
      log := Next(limit, w, r, log0, Store(outcome),
                  if ok && !next.Finished? then At(r, storage[k], log0.r.sent, mTx, next) else Left(r, storage[k], log0.r.sent));
    }

    /** Lines 333-345 with reviewMonitoredTxNonce. */
    method ReviewNonce(k: Key, m: MonitoredTx, w: World, ghost r: RowState, ghost log0: Log)
      returns (mTx: MonitoredTx, ok: bool, ghost log: Log)
      requires Reached(k, w, r, log0, log0.r.sent, m, ReviewingNonce)
      modifies this
      ensures OnlyRow(k, old(storage))
      // the larger of the row's nonce and the account's, once that is read, and nothing else
      ensures mTx == m.(nonce := mTx.nonce)
      ensures w.nonceOk ==>
        && m.nonce <= mTx.nonce && NonceOf(w.reviewed, m.from) <= mTx.nonce
        && (mTx.nonce == m.nonce || mTx.nonce == NonceOf(w.reviewed, m.from))
      ensures ok <==> w.nonceOk && w.writes(Deciding).Written?
      ensures storage[k] == if w.nonceOk && !w.writes(Deciding).Rejected? then Persist(mTx) else old(storage)[k]
      ensures Reached(k, w, r, log, log0.r.sent, mTx, if ok then Deciding else Finished)
    {
      mTx := m;
      if !w.nonceOk {
        log := Next(limit, w, r, log0, CurrentNonce(false), Left(r, storage[k], log0.r.sent));
        return mTx, false, log;
      }
      var nonce := NonceOf(w.reviewed, mTx.from);
      if nonce > mTx.nonce {
        mTx := mTx.(nonce := nonce);
      }
      log := Next(limit, w, r, log0, CurrentNonce(true), At(r, storage[k], log0.r.sent, mTx, Storing(Deciding)));
      ok, log := Update(k, mTx, Deciding, w, r, log);
    }

    /** Lines 365-381 with reviewMonitoredTx. */
    method ReviewFees(k: Key, m: MonitoredTx, w: World, ghost r: RowState, ghost log0: Log)
      returns (mTx: MonitoredTx, ok: bool, ghost log: Log)
      requires Reached(k, w, r, log0, log0.r.sent, m, Deciding)
      modifies this
      ensures OnlyRow(k, old(storage))
      // only a row that was sent is re-priced: no gas below the estimate, no price below the suggestion within the limit
      ensures ok && m.status.Sent? ==>
        && w.gas.Some? && m.gas <= mTx.gas && w.gas.value <= mTx.gas && (mTx.gas == m.gas || mTx.gas == w.gas.value)
        && w.price.Some? && m.gasPrice <= mTx.gasPrice
        && (limit == 0 || w.price.value <= limit ==>
              w.price.value <= mTx.gasPrice && (mTx.gasPrice == m.gasPrice || mTx.gasPrice == w.price.value))
        && (0 < limit < w.price.value ==> limit <= mTx.gasPrice && (mTx.gasPrice == m.gasPrice || mTx.gasPrice == limit))
      ensures mTx == m.(gas := mTx.gas, gasPrice := mTx.gasPrice)
      ensures ok && m.status.Sent? ==> storage[k] == Persist(mTx)
      ensures !m.status.Sent? ==> mTx == m && storage == old(storage) && (ok <==> !m.status.Reorged?)
      ensures ok <==> !m.status.Reorged? && (m.status.Sent? ==> w.gas.Some? && w.price.Some? && w.writes(Signing).Written?)
      ensures Reached(k, w, r, log, log0.r.sent, mTx, if ok then Signing else Finished)
    {
      mTx := m;
      if mTx.status == Reorged {
        log := Next(limit, w, r, log0, Decide(w.gas, w.price), Left(r, storage[k], log0.r.sent));
        return mTx, false, log;
      }
      if mTx.status == Sent {
        if w.gas.None? {
          log := Next(limit, w, r, log0, Decide(w.gas, w.price), Left(r, storage[k], log0.r.sent));
          return mTx, false, log;
        }
        if w.gas.value > mTx.gas {
          mTx := mTx.(gas := w.gas.value);
        }
        if w.price.None? {
          log := Next(limit, w, r, log0, Decide(w.gas, w.price), Left(r, storage[k], log0.r.sent));
          return mTx, false, log;
        }
        var price := Capped(w.price.value, limit);
        if price > mTx.gasPrice {
          mTx := mTx.(gasPrice := price);
        }
        log := Next(limit, w, r, log0, Decide(w.gas, w.price), At(r, storage[k], log0.r.sent, mTx, Storing(Signing)));
        ok, log := Update(k, mTx, Signing, w, r, log);
        return;
      }
      log := Next(limit, w, r, log0, Decide(w.gas, w.price), At(r, storage[k], log0.r.sent, mTx, Signing));
      ok := true;
    }

    /** Lines 384-418: sign, record the hash, store it. */
    method Record(k: Key, m: MonitoredTx, w: World, ghost r: RowState, ghost log0: Log)
      returns (mTx: MonitoredTx, tx: Option<SignedTx>, ghost log: Log)
      requires Reached(k, w, r, log0, log0.r.sent, m, Signing)
      modifies this
      ensures OnlyRow(k, old(storage))
      ensures Reached(k, w, r, log, log0.r.sent, mTx, if tx.Some? then Broadcasting(tx.value) else Finished)
    {
      mTx := m;
      tx := SignedFor(w, mTx);
      if tx.None? {
        log := Next(limit, w, r, log0, Sign(None), Left(r, storage[k], log0.r.sent));
      } else if tx.value in mTx.history {
        log := Next(limit, w, r, log0, Sign(tx), At(r, storage[k], log0.r.sent, mTx, Broadcasting(tx.value)));
      } else {
        mTx := mTx.(history := mTx.history + {tx.value});
        log := Next(limit, w, r, log0, Sign(tx), At(r, storage[k], log0.r.sent, mTx, Storing(Broadcasting(tx.value))));
        var ok;
        ok, log := Update(k, mTx, Broadcasting(tx.value), w, r, log);
        if !ok {
          tx := None;
        }
      }
    }

    /** Lines 421-444: send it unless the network has it, and note that it was sent. */
    method Send(k: Key, m: MonitoredTx, tx: SignedTx, w: World, ghost r: RowState, ghost log0: Log)
      returns (mTx: MonitoredTx, ok: bool, ghost sent: set<SignedTx>, ghost log: Log)
      requires Reached(k, w, r, log0, log0.r.sent, m, Broadcasting(tx))
      modifies this
      ensures OnlyRow(k, old(storage))
      ensures sent == if w.reply.Found? then log0.r.sent else log0.r.sent + {tx}
      ensures Reached(k, w, r, log, sent, mTx, if ok then Awaiting(tx) else Finished)
    {
      mTx, ok := m, true;
      sent := if w.reply.Found? then log0.r.sent else log0.r.sent + {tx};
      if w.reply.Refused? {
        log := Next(limit, w, r, log0, Broadcast(w.reply), Left(r, storage[k], sent));
        ok := false;
      } else if w.reply.Accepted? && mTx.status == Created {
        mTx := mTx.(status := Sent);
        log := Next(limit, w, r, log0, Broadcast(w.reply), At(r, storage[k], sent, mTx, Storing(Awaiting(tx))));
        ok, log := Update(k, mTx, Awaiting(tx), w, r, log);
      } else {
        log := Next(limit, w, r, log0, Broadcast(w.reply), At(r, storage[k], sent, mTx, Awaiting(tx)));
      }
    }

    /** Lines 449-492 for a transaction just sent: wait, read its receipt and settle the row. */
    method AwaitReceipt(k: Key, m: MonitoredTx, tx: SignedTx, w: World, ghost r: RowState, ghost log0: Log)
      returns (ghost log: Log)
      requires Reached(k, w, r, log0, log0.r.sent, m, Awaiting(tx))
      modifies this
      ensures OnlyRow(k, old(storage))
      // the row is settled unless there is no receipt, or it failed and is to be sent again
      ensures !Settles(w.awaited, tx, w.mined, w.keepMonitoring) || w.writes(Finished).Rejected? ==> storage == old(storage)
      ensures Settles(w.awaited, tx, w.mined, w.keepMonitoring) && !w.writes(Finished).Rejected? ==>
        var receipt := w.awaited.receipts[tx];
        storage[k] == Persist(m.(status := if receipt.success then Confirmed else Failed, block := Some(receipt.block)))
      ensures Reached(k, w, r, log, log0.r.sent, m, Finished)
    {
      if !w.mined || tx !in w.awaited.receipts || (!w.awaited.receipts[tx].success && w.keepMonitoring) {
        log := Next(limit, w, r, log0, Await(w.mined, w.keepMonitoring), Left(r, storage[k], log0.r.sent));
        return;
      }
      var receipt := w.awaited.receipts[tx];
      var mTx := m.(status := if receipt.success then Confirmed else Failed, block := Some(receipt.block));
      log := Next(limit, w, r, log0, Await(w.mined, w.keepMonitoring),
                  At(r, storage[k], log0.r.sent, mTx, Storing(Finished)));
      var _, log' := Update(k, mTx, Finished, w, r, log);
      log := log';
    }

    /** Lines 383-492: one attempt to get the row mined, with the fees it has now. */
    method Attempt(k: Key, m: MonitoredTx, w: World, ghost r: RowState, ghost log0: Log) returns (ghost log: Log)
      requires Reached(k, w, r, log0, log0.r.sent, m, Signing)
      modifies this
      ensures OnlyRow(k, old(storage))
      ensures Valid(limit, w, r, log) && log.r == Left(r, storage[k], log.r.sent)
    {
      var mTx, tx, ok;
      mTx, tx, log := Record(k, m, w, r, log0);
      if tx.None? { return; }
      ghost var sent;
      mTx, ok, sent, log := Send(k, mTx, tx.value, w, r, log);
      if !ok { return; }
      log := AwaitReceipt(k, mTx, tx.value, w, r, log);
    }

    /** Everything after the loop for a row that is not confirmed yet. */
    method Resend(k: Key, m: MonitoredTx, w: World, ghost r: RowState, ghost log0: Log) returns (ghost log: Log)
      requires Reached(k, w, r, log0, log0.r.sent, m, Deciding)
      modifies this
      ensures OnlyRow(k, old(storage))
      ensures Valid(limit, w, r, log) && log.r == Left(r, storage[k], log.r.sent)
    {
      var mTx, ok;
      mTx, ok, log := ReviewFees(k, m, w, r, log0);
      if !ok { return; }
      log := Attempt(k, mTx, w, r, log);
    }

    /** Lines 284-320: the loop, and what it decides about the row. */
    method ScanRow(k: Key, w: World, ghost r: RowState) returns (mTx: MonitoredTx, x: Scan, ghost log: Log)
      requires k in storage && Waiting(storage[k].status)
      requires forall t :: t in w.order <==> t in storage[k].history
      requires r.row == Some(storage[k]) && r.thread.None?
      ensures Describes(FoundBy(w.scan, storage[k].history), storage[k].history, w.unanswered, x)
      ensures x.confirmed ==> mTx == storage[k].(status := Confirmed, block := Some(x.receipt.value.block))
      ensures !x.confirmed ==> mTx == storage[k]
      ensures Reached(k, w, r, log, r.sent, mTx, if x.confirmed then Storing(Finished) else
                                                 if NeedsNonceReview(x) then ReviewingNonce else Deciding)
    {
      mTx := storage[k];
      log := StartScan(limit, w, r, mTx);
      x := ScanHistory(w.scan, mTx.history, w.order, w.unanswered);
      log := ScanIsRun(limit, w, r, log, mTx, x);
      if x.confirmed {
        mTx := mTx.(status := Confirmed, block := Some(x.receipt.value.block));
      } else {
        log := EndScanning(limit, w, r, log, log.r.thread.value);
      }
    }

    /** One call of monitorTx on a row the round selected, without interference, is a run of the row machine. */
    method MonitorTx(k: Key, w: World, ghost r: RowState) returns (ghost log: Log)
      requires k in storage && Waiting(storage[k].status)
      requires forall t :: t in w.order <==> t in storage[k].history
      requires r.row == Some(storage[k]) && r.thread.None?
      modifies this
      ensures OnlyRow(k, old(storage))
      ensures Valid(limit, w, r, log) && log.r == Left(r, storage[k], log.r.sent)
    {
      var mTx, x, ok;
      mTx, x, log := ScanRow(k, w, r);
      if x.confirmed {
        ok, log := Update(k, mTx, Finished, w, r, log);
        return;
      }
      if NeedsNonceReview(x) {
        mTx, ok, log := ReviewNonce(k, mTx, w, r, log);
        if !ok { return; }
      }
      log := Resend(k, mTx, w, r, log);
    }

    /**
     Lines 63-113.  `nonce`, `gas` and `suggested` are what L1 answers, None for an error; a key that is taken is an
     error of the insert, which may also take effect although it returns one.
     */
    method Add(k: Key, call: Call, forcedGas: nat, nonce: Option<nat>, gas: Option<nat>, suggested: Option<nat>, insert: Outcome)
      returns (ok: bool)
      modifies this
      ensures ok <==>
        nonce.Some? && (gas.Some? || forcedGas > 0) && suggested.Some? && k !in old(storage) && insert.Written?
      ensures storage != old(storage) <==>
        nonce.Some? && (gas.Some? || forcedGas > 0) && suggested.Some? && k !in old(storage) && !insert.Rejected?
      ensures storage != old(storage) ==>
        var price := if limit > 0 && suggested.value > limit then limit else suggested.value;
        var m := MonitoredTx(
          call.from, call.to, nonce.value, call.value, call.data, if gas.Some? then gas.value else forcedGas,
          call.gasOffset, price, Created, None, {});
        && storage == old(storage)[k := Persist(m)]
        && forall l1, r: RowState :: r.row.None? ==>
          Step(limit, l1, r, TxRowMachine.Action.Add(m, suggested.value)) == Some(r.(row := Some(storage[k])))
    {
      if nonce.None? {
        return false;
      }
      var g := 0;
      if gas.Some? {
        g := gas.value;
      } else if forcedGas > 0 {
        g := forcedGas;
      } else {
        return false;
      }
      if suggested.None? {
        return false;
      }
      if k in storage || insert.Rejected? {
        return false;
      }
      storage := storage[k := Persist(NewRow(call, nonce.value, g, Capped(suggested.value, limit)))];
      assert k in storage;
      return insert.Written?;
    }

    /** Lines 150-159: read the row, then write it back as Done. */
    method SetStatusDone(k: Key, getOk: bool, outcome: Outcome, w: World, ghost r: RowState, ghost log0: Log)
      returns (ok: bool, ghost log: Log)
      requires k in storage && Valid(limit, w, r, log0) && log0.r.row == Some(storage[k]) && log0.r.processor.Getting?
      modifies this
      ensures OnlyRow(k, old(storage))
      ensures storage[k] == if getOk && !outcome.Rejected? then Persist(old(storage)[k].(status := Done)) else old(storage)[k]
      ensures ok <==> getOk && outcome.Written?
      ensures Valid(limit, w, r, log)
      ensures log.r == log0.r.(row := Some(storage[k]), processor := if ok then Handling else Looping)
    {
      log := ReadForDone(limit, w, r, log0, getOk);
      if !getOk {
        return false, log;
      }
      var mTx := storage[k];
      if !outcome.Rejected? {
        storage := storage[k := Persist(mTx.(status := Done))];
      }
      ok := outcome.Written?;
      log := WriteDone(limit, w, r, log, outcome, storage[k]);
    }

    /** Lines 643-655, for a result listed as Confirmed: the handler is called, or the result comes again. */
    method ProcessConfirmed(k: Key, getOk: bool, outcome: Outcome, w: World, ghost r: RowState, ghost log0: Log)
      returns (handled: bool, ghost log: Log)
      requires k in storage && Valid(limit, w, r, log0) && log0.r.row == Some(storage[k]) && log0.r.processor == Listed(Confirmed)
      modifies this
      ensures OnlyRow(k, old(storage))
      ensures handled <==> getOk && outcome.Written?
      ensures handled ==> storage[k] == Persist(old(storage)[k].(status := Done))
      ensures Valid(limit, w, r, log)
      ensures log.r == log0.r.(row := Some(storage[k]), processor := Looping,
                               reports := log0.r.reports + if handled then 1 else 0)
    {
      log := TakeConfirmed(limit, w, r, log0);
      handled, log := SetStatusDone(k, getOk, outcome, w, r, log);
      if handled {
        log := CallHandler(limit, w, r, log);
      }
    }

    /** Lines 226-248: `found` is what GetByBlock returns, and `outcomes` the fate of each row's write. */
    method Reorg(fromBlock: nat, found: seq<Key>, outcomes: Key -> Outcome) returns (ok: bool)
      requires forall k :: k in found <==> MinedFrom(storage, k, fromBlock)
      modifies this
      ensures storage == MarkedReorged(old(storage), found[..Landed(found, outcomes)])
      ensures ok <==> forall k <- found :: outcomes(k).Written?
      ensures ok ==> forall k <- storage :: storage[k].block.Some? ==> storage[k].block.value < fromBlock
    {
      var mTxs := storage;
      for i := 0 to |found|
        invariant storage == MarkedReorged(mTxs, found[..i])
        invariant forall k <- found[..i] :: outcomes(k).Written?
        invariant Landed(found, outcomes) == i + Landed(found[i..], outcomes)
      {
        assert MinedFrom(mTxs, found[i], fromBlock);
        assert found[..i + 1] == found[..i] + [found[i]] && found[i..][1..] == found[i + 1..];
        var outcome := outcomes(found[i]);
        if !outcome.Rejected? {
          storage := storage[found[i] := AsReorged(mTxs[found[i]])];
        }
        if !outcome.Written? {
          return false;
        }
      }
      assert found[..|found|] == found;
      assert forall k <- storage :: !MinedFrom(storage, k, fromBlock);
      ok := true;
    }
  }
}
