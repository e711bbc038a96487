/** Exactly-once reporting by ProcessPendingMonitoredTxs (ethtxmanager/ethtxmanager.go:616). */
module TxReporting {
  import opened Wrappers
  import opened MonitoredTxs
  import opened TxRowMachine
  import opened TxRowSafety
  import opened TxSystem

  predicate IsDone(r: RowState) {
    r.row.Some? && r.row.value.status.Done?
  }

  /** For this row: no reorg is started. */
  predicate Quiet(k: Key, e: Event) {
    e.Acted? && e.key == k ==> !e.action.ReorgRead?
  }

  predicate Acked(k: Key, es: seq<Event>) {
    Acted(k, Mark(Written)) in es
  }

  predicate Unacked(k: Key, es: seq<Event>) {
    Acted(k, Mark(WrittenUnacked)) in es
  }

  /**
   Compared with `r0`, where `acked` and `unacked` say which Done writes took effect since: one of them if the row
   became Done, and one report, made or about to be made, for an acknowledged one.
   */
  ghost predicate Counted(r0: RowState, r: RowState, acked: bool, unacked: bool) {
    && Safe(r) && Disciplined(r) && r.reorg.None?
    && (r.processor.Getting? || r.processor == Listed(Confirmed) ==> r.row.Some? && r.row.value.status.Confirmed?)
    && (r.processor.Marking? ==> r.row == Some(r.processor.mTx) && r.processor.mTx.status.Confirmed?)
    && (r.processor.Handling? ==> IsDone(r) && acked)
    && (IsDone(r0) ==> IsDone(r))
    && (IsDone(r) && !IsDone(r0) <==> acked || unacked)
    && !(acked && unacked)
    && r.reports + (if r.processor.Handling? then 1 else 0) == r0.reports + (if acked then 1 else 0)
  }

  lemma ProcessorKeepsCounted(r0: RowState, r: RowState, a: Action, acked: bool, unacked: bool)
    requires Counted(r0, r, acked, unacked) && ProcessorStep(r, a).Some?
    ensures Counted(r0, ProcessorStep(r, a).value, acked || a == Mark(Written), unacked || a == Mark(WrittenUnacked))
  {
    ProcessorKeepsSafe(r, a);
  }

  /** A goroutine works on a row that is neither Confirmed nor Done, and leaves it not Done. */
  lemma MonitorKeepsCounted(limit: nat, l1: L1, r0: RowState, r: RowState, a: Action, acked: bool, unacked: bool)
    requires Counted(r0, r, acked, unacked) && r.thread.Some? && MonitorStep(limit, l1, r, r.thread.value, a).Some?
    requires var r' := MonitorStep(limit, l1, r, r.thread.value, a).value; Safe(r') && DisciplinedStep(r, r')
    ensures Counted(r0, MonitorStep(limit, l1, r, r.thread.value, a).value, acked, unacked)
  {
    assert !IsDone(r) && !r.processor.Handling? && !r.processor.Marking? && !r.processor.Getting?;
  }

  /** A row is added, or a goroutine started; a Reorg under way is excluded by the count. */
  lemma OthersKeepCounted(limit: nat, l1: L1, r0: RowState, r: RowState, a: Action, acked: bool, unacked: bool)
    requires Counted(r0, r, acked, unacked) && (a.Add? || a.Start? || a.ReorgWrite?) && Step(limit, l1, r, a).Some?
    requires var r' := Step(limit, l1, r, a).value; Safe(r') && DisciplinedStep(r, r')
    ensures Counted(r0, Step(limit, l1, r, a).value, acked, unacked)
  {
  }

  lemma StepKeepsCounted(limit: nat, l1: L1, r0: RowState, r: RowState, a: Action, acked: bool, unacked: bool)
    requires Counted(r0, r, acked, unacked) && Step(limit, l1, r, a).Some? && !a.ReorgRead?
    ensures Counted(r0, Step(limit, l1, r, a).value, acked || a == Mark(Written), unacked || a == Mark(WrittenUnacked))
  {
    if ProcessorStep(r, a).Some? {
      ProcessorKeepsCounted(r0, r, a, acked, unacked);
    } else {
      StepKeepsSafe(limit, l1, r, a);
      StepKeepsDisciplined(limit, l1, r, a);
      if a.Add? || a.Start? || a.ReorgWrite? {
        OthersKeepCounted(limit, l1, r0, r, a, acked, unacked);
      } else {
        MonitorKeepsCounted(limit, l1, r0, r, a, acked, unacked);
      }
    }
  }

  lemma {:induction false} RunKeepsCounted(limit: nat, s: System, es: seq<Event>, k: Key, r0: RowState, acked: bool, unacked: bool)
    requires Counted(r0, RowAt(s, k), acked, unacked) && Run(limit, s, es).Some?
    requires forall e <- es :: Quiet(k, e)
    ensures Counted(r0, RowAt(Run(limit, s, es).value, k), acked || Acked(k, es), unacked || Unacked(k, es))
    decreases es
  {
    if es != [] {
      assert Quiet(k, es[0]);
      assert es == [es[0]] + es[1..];
      var acked', unacked' := acked || es[0] == Acted(k, Mark(Written)), unacked || es[0] == Acted(k, Mark(WrittenUnacked));
      if es[0].Acted? && es[0].key == k {
        StepKeepsCounted(limit, s.l1, r0, RowAt(s, k), es[0].action, acked, unacked);
      }
      RunKeepsCounted(limit, Apply(limit, s, es[0]).value, es[1..], k, r0, acked', unacked');
    }
  }

  lemma ReturnIsFinal(limit: nat, s: System, k: Key, r0: RowState, acked: bool, unacked: bool)
    requires Counted(r0, RowAt(s, k), acked, unacked) && Apply(limit, s, Acted(k, Return)).Some?
    ensures
      var r' := RowAt(Apply(limit, s, Acted(k, Return)).value, k);
      && (r'.row.Some? ==> r'.row.value.status.Done?)
      && (r'.row.Some? && !IsDone(r0) <==> acked || unacked)
      && r'.reports == r0.reports + (if acked then 1 else 0)
  {
  }

  /**
   When the processor returns, every row of the owner is Done.  For one that was pending at the start, or was added
   since, exactly one Done write took effect, and it was handed to the owner as confirmed exactly once if and only if
   that write was acknowledged; one that was Done already is not handed over at all.
   */
  lemma ExactlyOnceReporting(limit: nat, l1: L1, before: seq<Event>, es: seq<Event>, k: Key)
    requires ValidChain(l1) && Run(limit, Boot(l1), before).Some? && Along(limit, Boot(l1), before, DoneWhileConfirmed)
    requires
      var s := Run(limit, Boot(l1), before).value;
      && RowAt(s, k).processor.Idle? && RowAt(s, k).reorg.None?
      && Run(limit, s, es + [Acted(k, Return)]).Some?
    requires forall e <- es :: Quiet(k, e)
    ensures
      var s := Run(limit, Boot(l1), before).value;
      var r, r' := RowAt(s, k), RowAt(Run(limit, s, es + [Acted(k, Return)]).value, k);
      && (r'.row.Some? ==> r'.row.value.status.Done?)
      && (r'.row.Some? && !IsDone(r) <==> Acked(k, es) || Unacked(k, es))
      && !(Acked(k, es) && Unacked(k, es))
      && r'.reports == r.reports + (if Acked(k, es) then 1 else 0)
  {
    RunKeepsDisciplined(limit, Boot(l1), before);
    var s := Run(limit, Boot(l1), before).value;
    RunSplits(limit, s, es, [Acted(k, Return)]);
    assert Counted(RowAt(s, k), RowAt(s, k), false, false);
    RunKeepsCounted(limit, s, es, k, RowAt(s, k), false, false);
    RunOne(limit, Run(limit, s, es).value, Acted(k, Return));
    ReturnIsFinal(limit, Run(limit, s, es).value, k, RowAt(s, k), Acked(k, es), Unacked(k, es));
  }
}
