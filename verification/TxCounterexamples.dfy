/** Runs that show why the hypotheses of TxSystem are needed. */
module TxCounterexamples {
  import opened Wrappers
  import opened MonitoredTxs
  import opened TxRowMachine
  import opened TxRowSafety
  import opened TxSystem

  const GENESIS := L1(map[], map[])
  const ROW := Key("owner", "id")

  /** The transaction the row sends with nonce `n`. */
  function Tx(n: nat): SignedTx {
    SignedTx("sender", n, None, [], 1, 1)
  }

  /** The row as stored while it is being sent. */
  function Stored(nonce: nat, price: nat, history: set<SignedTx>): MonitoredTx {
    MonitoredTx("sender", None, nonce, None, [], 1, 0, price, Sent, None, history)
  }

  /** The row between two rounds. */
  function Resting(m: MonitoredTx, sent: set<SignedTx>): RowState {
    RowState(Some(m), None, None, Idle, sent, 0)
  }

  /** The row with a goroutine at work on `mTx`. */
  function Working(m: MonitoredTx, sent: set<SignedTx>, mTx: MonitoredTx, phase: Phase): RowState {
    RowState(Some(m), Some(Thread(mTx, phase, m)), None, Idle, sent, 0)
  }

  /** A run from an empty table and an empty chain, the chain it ends with, and the row. */
  datatype Trace = Trace(es: seq<Event>, l1: L1, r: RowState)

  ghost predicate Valid(limit: nat, x: Trace) {
    var s := Run(limit, Boot(GENESIS), x.es);
    s.Some? && s.value.l1 == x.l1 && RowAt(s.value, ROW) == x.r
  }

  lemma {:induction false} RunExtends(limit: nat, s: System, es: seq<Event>, e: Event)
    requires Run(limit, s, es).Some?
    ensures Run(limit, s, es + [e]) == Apply(limit, Run(limit, s, es).value, e)
    decreases es
  {
    if es == [] {
      RunOne(limit, s, e);
      assert es + [e] == [e];
    } else {
      assert (es + [e])[1..] == es[1..] + [e];
      RunExtends(limit, Apply(limit, s, es[0]).value, es[1..], e);
    }
  }

  /** And every Done write of the run found the row still Confirmed. */
  ghost predicate Kept(limit: nat, x: Trace) {
    Valid(limit, x) && Along(limit, Boot(GENESIS), x.es, DoneWhileConfirmed)
  }

  lemma {:induction false} AlongExtends(limit: nat, s: System, es: seq<Event>, e: Event)
    requires Run(limit, s, es).Some? && Along(limit, s, es, DoneWhileConfirmed)
    requires DoneWhileConfirmed(Run(limit, s, es).value, e)
    ensures Along(limit, s, es + [e], DoneWhileConfirmed)
    decreases es
  {
    if es == [] {
      assert (es + [e])[1..] == [];
    } else {
      assert (es + [e])[1..] == es[1..] + [e];
      AlongExtends(limit, Apply(limit, s, es[0]).value, es[1..], e);
    }
  }

  /** One more step of the row, into the state `r`. */
  lemma Act(limit: nat, x: Trace, a: Action, r: RowState) returns (y: Trace)
    requires Valid(limit, x) && Step(limit, x.l1, x.r, a) == Some(r)
    ensures Valid(limit, y) && y == Trace(x.es + [Acted(ROW, a)], x.l1, r)
    ensures Kept(limit, x) && StillConfirmed(x.r, a) ==> Kept(limit, y)
  {
    RunExtends(limit, Boot(GENESIS), x.es, Acted(ROW, a));
    if Kept(limit, x) && StillConfirmed(x.r, a) {
      AlongExtends(limit, Boot(GENESIS), x.es, Acted(ROW, a));
    }
    y := Trace(x.es + [Acted(ROW, a)], x.l1, r);
  }

  lemma Include(limit: nat, x: Trace, t: SignedTx, receipt: Receipt, l1: L1) returns (y: Trace)
    requires Kept(limit, x) && Mine(x.l1, t, receipt) == Some(l1)
    ensures Kept(limit, y) && y == Trace(x.es + [Mined(t, receipt)], l1, x.r)
  {
    RunExtends(limit, Boot(GENESIS), x.es, Mined(t, receipt));
    AlongExtends(limit, Boot(GENESIS), x.es, Mined(t, receipt));
    y := Trace(x.es + [Mined(t, receipt)], l1, x.r);
  }

  lemma Reorganise(limit: nat, x: Trace, l1: L1) returns (y: Trace)
    requires Kept(limit, x) && ValidChain(l1)
    ensures Kept(limit, y) && y == Trace(x.es + [Reorganised(l1)], l1, x.r)
  {
    RunExtends(limit, Boot(GENESIS), x.es, Reorganised(l1));
    AlongExtends(limit, Boot(GENESIS), x.es, Reorganised(l1));
    y := Trace(x.es + [Reorganised(l1)], l1, x.r);
  }

  /** The row is added and its first round started. */
  lemma FirstRound(limit: nat) returns (x: Trace)
    requires limit <= 1
    ensures Kept(limit, x) && x.l1 == GENESIS
    ensures var m := Stored(0, 1, {}).(status := Created); x.r == Working(m, {}, m, Scanning({}, false, true))
  {
    var m := Stored(0, 1, {}).(status := Created);
    x := Trace([], GENESIS, NO_ROW);
    assert Kept(limit, x);
    x := Act(limit, x, Add(m, 1), Resting(m, {}));
    x := Act(limit, x, Start, Working(m, {}, m, Scanning({}, false, true)));
  }

  /** Its first transaction is recorded. */
  lemma FirstRecord(limit: nat) returns (x: Trace)
    requires limit <= 1
    ensures Kept(limit, x) && x.l1 == GENESIS
    ensures
      var m := Stored(0, 1, {Tx(0)}).(status := Created);
      x.r == Working(m, {}, m, Broadcasting(Tx(0)))
  {
    var m := Stored(0, 1, {}).(status := Created);
    var h := m.(history := {Tx(0)});
    x := FirstRound(limit);
    x := Act(limit, x, EndScan, Working(m, {}, m, Deciding));
    x := Act(limit, x, Decide(None, None), Working(m, {}, m, Signing));
    assert {} + {Tx(0)} == {Tx(0)};
    x := Act(limit, x, Sign(Some(Tx(0))), Working(m, {}, h, Storing(Broadcasting(Tx(0)))));
    x := Act(limit, x, Store(Written), Working(h, {}, h, Broadcasting(Tx(0))));
  }

  /** The first transaction goes out. */
  lemma FirstSend(limit: nat) returns (x: Trace)
    requires limit <= 1
    ensures Kept(limit, x) && x.l1 == GENESIS && x.r == Resting(Stored(0, 1, {Tx(0)}), {Tx(0)})
  {
    var m := Stored(0, 1, {Tx(0)});
    x := FirstRecord(limit);
    assert {} + {Tx(0)} == {Tx(0)};
    x := Act(limit, x, Broadcast(Accepted), Working(m.(status := Created), {Tx(0)}, m, Storing(Awaiting(Tx(0)))));
    x := Act(limit, x, Store(Written), Working(m, {Tx(0)}, m, Awaiting(Tx(0))));
    x := Act(limit, x, Await(false, false), Resting(m, {Tx(0)}));
  }

  /** With the scan over and every answered query a failure, the row moves on to the account's nonce. */
  lemma NextNonce(x0: Trace, n: nat, history: set<SignedTx>) returns (x: Trace)
    requires Kept(1, x0) && NonceOf(x0.l1, "sender") == n + 1
    requires x0.r == Working(Stored(n, 1, history), history, Stored(n, 1, history), Scanning({}, true, true))
    ensures Kept(1, x) && x.l1 == x0.l1
    ensures x.r == Working(Stored(n + 1, 1, history), history, Stored(n + 1, 1, history), Signing)
  {
    var m0, m := Stored(n, 1, history), Stored(n + 1, 1, history);
    x := Act(1, x0, EndScan, Working(m0, history, m0, ReviewingNonce));
    x := Act(1, x, CurrentNonce(true), Working(m0, history, m, Storing(Deciding)));
    x := Act(1, x, Store(Written), Working(m, history, m, Deciding));
    x := Act(1, x, Decide(Some(1), Some(1)), Working(m, history, m, Storing(Signing)));
    x := Act(1, x, Store(Written), Working(m, history, m, Signing));
  }

  /** Its next transaction is recorded. */
  lemma RecordNext(x0: Trace, n: nat, history: set<SignedTx>) returns (x: Trace)
    requires Kept(1, x0) && Tx(n) !in history
    requires x0.r == Working(Stored(n, 1, history), history, Stored(n, 1, history), Signing)
    ensures Kept(1, x) && x.l1 == x0.l1
    ensures var h := Stored(n, 1, history + {Tx(n)}); x.r == Working(h, history, h, Broadcasting(Tx(n)))
  {
    var m, h := Stored(n, 1, history), Stored(n, 1, history + {Tx(n)});
    x := Act(1, x0, Sign(Some(Tx(n))), Working(m, history, h, Storing(Broadcasting(Tx(n)))));
    x := Act(1, x, Store(Written), Working(h, history, h, Broadcasting(Tx(n))));
  }

  /** And goes out. */
  lemma SendNext(x0: Trace, n: nat, history: set<SignedTx>) returns (x: Trace)
    requires Kept(1, x0) && NonceOf(x0.l1, "sender") == n + 1 && Tx(n + 1) !in history
    requires x0.r == Working(Stored(n, 1, history), history, Stored(n, 1, history), Scanning({}, true, true))
    ensures Kept(1, x) && x.l1 == x0.l1
    ensures var history' := history + {Tx(n + 1)}; x.r == Resting(Stored(n + 1, 1, history'), history')
  {
    var history' := history + {Tx(n + 1)};
    var h := Stored(n + 1, 1, history');
    x := NextNonce(x0, n, history);
    x := RecordNext(x, n + 1, history);
    x := Act(1, x, Broadcast(Accepted), Working(h, history', h, Awaiting(Tx(n + 1))));
    x := Act(1, x, Await(false, false), Resting(h, history'));
  }

  /**
   A receipt query that errors leaves "all mined" true.  If it hides the one success, the nonce moves on and the
   same data is sent, and succeeds, twice.
   */
  lemma UnansweredQueryDuplicates() returns (x: Trace)
    ensures Kept(1, x)
    ensures Tx(1) != Tx(2) && {Tx(1), Tx(2)} <= x.r.sent
    ensures Succeeded(x.l1, Tx(1)) && Succeeded(x.l1, Tx(2))
  {
    var h0, h1 := {Tx(0)}, {Tx(0)} + {Tx(1)};
    var m0, m1 := Stored(0, 1, h0), Stored(1, 1, h1);
    x := FirstSend(1);
    x := Include(1, x, Tx(0), Receipt(false, 10), Mine(x.l1, Tx(0), Receipt(false, 10)).value);
    x := Act(1, x, Start, Working(m0, h0, m0, Scanning(h0, false, true)));
    assert h0 - {Tx(0)} == {};
    x := Act(1, x, Check(Tx(0), false), Working(m0, h0, m0, Scanning({}, true, true)));
    x := SendNext(x, 0, h0);
    x := Include(1, x, Tx(1), Receipt(true, 11), Mine(x.l1, Tx(1), Receipt(true, 11)).value);
    x := Act(1, x, Start, Working(m1, h1, m1, Scanning(h1, false, true)));
    x := Act(1, x, Check(Tx(0), false), Working(m1, h1, m1, Scanning(h1 - {Tx(0)}, true, true)));
    assert h1 - {Tx(0)} - {Tx(1)} == {};
    x := Act(1, x, Check(Tx(1), true), Working(m1, h1, m1, Scanning({}, true, true)));
    x := SendNext(x, 1, h1);
    x := Include(1, x, Tx(2), Receipt(true, 12), Mine(x.l1, Tx(2), Receipt(true, 12)).value);
  }

  const CONFIRMED := Stored(0, 1, {Tx(0)}).(status := Confirmed, block := Some(10))

  /** The first transaction succeeds in block 10 and the row is Confirmed. */
  lemma FirstConfirmed() returns (x: Trace)
    ensures Kept(1, x) && x.r == Resting(CONFIRMED, {Tx(0)})
  {
    var h := {Tx(0)};
    var m := Stored(0, 1, h);
    x := FirstSend(1);
    x := Include(1, x, Tx(0), Receipt(true, 10), Mine(x.l1, Tx(0), Receipt(true, 10)).value);
    x := Act(1, x, Start, Working(m, h, m, Scanning(h, false, true)));
    x := Act(1, x, Check(Tx(0), false), Working(m, h, CONFIRMED, Storing(Finished)));
    x := Act(1, x, Store(Written), Resting(CONFIRMED, h));
  }

  /** The owner's processor has read the Confirmed row and is about to write Done. */
  lemma AboutToMark() returns (x: Trace)
    ensures Kept(1, x) && x.r == Resting(CONFIRMED, {Tx(0)}).(processor := Marking(CONFIRMED))
  {
    var r := Resting(CONFIRMED, {Tx(0)});
    x := FirstConfirmed();
    x := Act(1, x, Launch, r.(processor := Looping));
    x := Act(1, x, List, r.(processor := Listed(Confirmed)));
    x := Act(1, x, Take, r.(processor := Getting));
    x := Act(1, x, Get(true), r.(processor := Marking(CONFIRMED)));
  }

  /** Reorg marks the row between setStatusDone's read and its write: the row ends up Done, in the reorged block. */
  lemma StaleDoneLosesReorg() returns (x: Trace, y: Trace)
    ensures Kept(1, x) && Valid(1, y) && y.es == x.es + [Acted(ROW, Mark(Written))]
    ensures x.r.row.Some? && x.r.row.value.status.Reorged?
    ensures y.r.row.Some? && y.r.row.value.status.Done? && y.r.row.value.block == Some(10)
  {
    x := MarkedReorged();
    y := Act(1, x, Mark(Written), x.r.(processor := Handling, row := Some(CONFIRMED.(status := Done))));
  }

  const REORGED := CONFIRMED.(status := Reorged, block := None)

  /** Reorg marks the row while the owner's processor holds the Confirmed one. */
  lemma MarkedReorged() returns (x: Trace)
    ensures Kept(1, x) && x.r == Resting(REORGED, {Tx(0)}).(processor := Marking(CONFIRMED))
  {
    x := AboutToMark();
    var r := x.r;
    x := Act(1, x, ReorgRead(10), r.(reorg := Some(CONFIRMED)));
    x := Act(1, x, ReorgWrite(Written), r.(row := Some(REORGED)));
  }

  /** On the new chain the transaction failed. */
  lemma FailedAfterReorg() returns (x: Trace)
    ensures Kept(1, x) && NonceOf(x.l1, "sender") == 1
    ensures x.r == Resting(REORGED, {Tx(0)}).(processor := Marking(CONFIRMED),
                                              thread := Some(Thread(REORGED, Scanning({}, true, true), REORGED)))
  {
    var h, m := {Tx(0)}, REORGED;
    x := MarkedReorged();
    var r := x.r;
    x := Reorganise(1, x, L1(map["sender" := 1], map[Tx(0) := Receipt(false, 11)]));
    x := Act(1, x, Start, r.(thread := Some(Thread(m, Scanning(h, false, true), m))));
    assert h - {Tx(0)} == {};
    x := Act(1, x, Check(Tx(0), false), r.(thread := Some(Thread(m, Scanning({}, true, true), m))));
  }

  /** So the nonce is reviewed. */
  lemma ReviewedAfterReorg() returns (x: Trace)
    ensures Kept(1, x) && x.r == Resting(REORGED.(nonce := 1), {Tx(0)}).(processor := Marking(CONFIRMED))
  {
    var m, n := REORGED, REORGED.(nonce := 1);
    x := FailedAfterReorg();
    var r := x.r.(thread := None);
    x := Act(1, x, EndScan, r.(thread := Some(Thread(m, ReviewingNonce, m))));
    x := Act(1, x, CurrentNonce(true), r.(thread := Some(Thread(n, Storing(Deciding), m))));
    x := GiveUpDeciding(x, r, n);
  }

  /** The reviewed row is stored; being Reorged it is left alone. */
  lemma GiveUpDeciding(x0: Trace, r: RowState, n: MonitoredTx) returns (x: Trace)
    requires Kept(1, x0) && n == REORGED.(nonce := 1)
    requires r == Resting(REORGED, {Tx(0)}).(processor := Marking(CONFIRMED))
    requires x0.r == r.(thread := Some(Thread(n, Storing(Deciding), REORGED)))
    ensures Kept(1, x) && x.r == r.(row := Some(n))
  {
    x := Act(1, x0, Store(Written), r.(row := Some(n), thread := Some(Thread(n, Deciding, n))));
    x := Act(1, x, Decide(None, None), r.(row := Some(n)));
  }

  const RECONFIRMED := CONFIRMED.(nonce := 1, block := Some(12))

  /** Another reorganisation, the transaction succeeds in block 12 and the row is Confirmed again. */
  lemma ConfirmedAgain() returns (x: Trace)
    ensures Kept(1, x) && x.l1.receipts == map[Tx(0) := Receipt(true, 12)]
    ensures x.r == Resting(RECONFIRMED, {Tx(0)}).(processor := Marking(CONFIRMED))
  {
    var h, n := {Tx(0)}, REORGED.(nonce := 1);
    x := ReviewedAfterReorg();
    var r := x.r;
    x := Reorganise(1, x, L1(map["sender" := 1], map[Tx(0) := Receipt(true, 12)]));
    x := Act(1, x, Start, r.(thread := Some(Thread(n, Scanning(h, false, true), n))));
    x := Act(1, x, Check(Tx(0), false), r.(thread := Some(Thread(RECONFIRMED, Storing(Finished), n))));
    x := Act(1, x, Store(Written), r.(row := Some(RECONFIRMED)));
  }

  /**
   That the row is still Confirmed is not enough: the Done write of the row read before the reorg puts it back into
   block 10 and takes its nonce back, though L1 has its receipt in block 12.
   */
  lemma StaleDoneLosesBlockAndNonce() returns (x: Trace, y: Trace)
    ensures Kept(1, x) && Kept(1, y) && y.es == x.es + [Acted(ROW, Mark(Written))]
    ensures x.r.row == Some(RECONFIRMED) && y.l1.receipts == map[Tx(0) := Receipt(true, 12)]
    ensures y.r.row.Some? && y.r.row.value.status.Done? && y.r.row.value.block == Some(10) && y.r.row.value.nonce == 0
  {
    x := ConfirmedAgain();
    y := Act(1, x, Mark(Written), x.r.(processor := Handling, row := Some(CONFIRMED.(status := Done))));
  }

  /** Done is written over a Reorged row that a goroutine has confirmed in block 12 and is about to store. */
  lemma DoneUnderAGoroutine() returns (x: Trace)
    ensures Valid(1, x)
    ensures x.r == Resting(CONFIRMED.(status := Done), {Tx(0)}).(processor := Handling,
                     thread := Some(Thread(RECONFIRMED, Storing(Finished), REORGED.(nonce := 1))))
  {
    var h, n := {Tx(0)}, REORGED.(nonce := 1);
    x := ReviewedAfterReorg();
    var r := x.r;
    x := Reorganise(1, x, L1(map["sender" := 1], map[Tx(0) := Receipt(true, 12)]));
    x := Act(1, x, Start, r.(thread := Some(Thread(n, Scanning(h, false, true), n))));
    x := Act(1, x, Check(Tx(0), false), r.(thread := Some(Thread(RECONFIRMED, Storing(Finished), n))));
    x := Act(1, x, Mark(Written), r.(thread := Some(Thread(RECONFIRMED, Storing(Finished), n)), processor := Handling,
                                     row := Some(CONFIRMED.(status := Done))));
  }

  /**
   Once a Done write found its row Reorged, the writes of the other actors lose blocks as well: the goroutine's own
   write moves the Done row from block 10 to block 12.
   */
  lemma LateStoreLosesBlock() returns (x: Trace, y: Trace)
    ensures Valid(1, x) && Valid(1, y) && y.es == x.es + [Acted(ROW, Store(Written))]
    ensures LosesBlock(x.r, y.r)
  {
    x := DoneUnderAGoroutine();
    y := Act(1, x, Store(Written), x.r.(thread := None, row := Some(RECONFIRMED)));
  }

  /** Done is written over a Reorged row whose nonce a goroutine has reviewed, and Reorg reads the result. */
  lemma DoneUnderAReview() returns (x: Trace)
    ensures Valid(1, x)
    ensures x.r == Resting(CONFIRMED.(status := Done), {Tx(0)}).(processor := Handling,
                     thread := Some(Thread(REORGED.(nonce := 1), Storing(Deciding), REORGED)),
                     reorg := Some(CONFIRMED.(status := Done)))
  {
    var m, n, d := REORGED, REORGED.(nonce := 1), CONFIRMED.(status := Done);
    x := FailedAfterReorg();
    var r := x.r.(thread := None);
    x := Act(1, x, EndScan, r.(thread := Some(Thread(m, ReviewingNonce, m))));
    x := Act(1, x, CurrentNonce(true), r.(thread := Some(Thread(n, Storing(Deciding), m))));
    r := r.(thread := Some(Thread(n, Storing(Deciding), m)), processor := Handling, row := Some(d));
    x := Act(1, x, Mark(Written), r);
    x := Act(1, x, ReorgRead(10), r.(reorg := Some(d)));
  }

  /** And nonces: the goroutine stores nonce 1 and Reorg, which read the row before, writes nonce 0. */
  lemma LateReorgLosesNonce() returns (x: Trace, y: Trace)
    ensures Valid(1, x) && Valid(1, y) && y.es == x.es + [Acted(ROW, ReorgWrite(Written))]
    ensures LosesNonce(x.r, y.r)
  {
    var n := REORGED.(nonce := 1);
    x := DoneUnderAReview();
    x := Act(1, x, Store(Written), x.r.(row := Some(n), thread := Some(Thread(n, Deciding, n))));
    y := Act(1, x, ReorgWrite(Written), x.r.(row := Some(REORGED), reorg := None));
  }

  /** A Done write that takes effect with an error: the processor returns and the owner was never told. */
  lemma UnackedDoneIsNotReported() returns (x: Trace)
    ensures Kept(1, x) && x.r == Resting(CONFIRMED.(status := Done), {Tx(0)}) && x.r.reports == 0
  {
    x := AboutToMark();
    var r := Resting(CONFIRMED.(status := Done), {Tx(0)});
    x := Act(1, x, Mark(WrittenUnacked), r.(processor := Looping));
    x := Act(1, x, Return, r);
  }

  /** Without a limit a suggested price of 2^64 is stored as 0, below the price stored before. */
  lemma UnlimitedPriceWraps() returns (x: Trace, y: Trace)
    ensures Kept(0, x) && Kept(0, y) && y.es == x.es + [Acted(ROW, Store(Written))]
    ensures x.r.row.Some? && y.r.row.Some? && y.r.row.value.gasPrice < x.r.row.value.gasPrice
  {
    var h := {Tx(0)};
    var m := Stored(0, 1, h);
    x := FirstSend(0);
    x := Act(0, x, Start, Working(m, h, m, Scanning(h, false, true)));
    assert h - {Tx(0)} == {};
    x := Act(0, x, Check(Tx(0), false), Working(m, h, m, Scanning({}, false, false)));
    x := Act(0, x, EndScan, Working(m, h, m, Deciding));
    x := Act(0, x, Decide(Some(1), Some(TWO_64)), Working(m, h, m.(gasPrice := TWO_64), Storing(Signing)));
    y := Act(0, x, Store(Written), RowState(Some(m.(gasPrice := 0)),
      Some(Thread(m.(gasPrice := TWO_64), Signing, m.(gasPrice := 0))), None, Idle, h, 0));
  }
}
