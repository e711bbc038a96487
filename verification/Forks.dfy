/** The fork history read from L1 (etherman/etherman_xlayer.go:364-479) and its use as a partition of the batches. */
module Forks {
  import opened Wrappers

  /** The four events that announce a fork.  A None fork id is a rollup type that could not be read. */
  datatype ForkEvent =
    | UpdateZkEVMVersion(numBatch: Uint64, forkId: nat, version: string)
    | UpdateRollup(rollup: nat, lastVerified: Uint64, typeForkId: Option<nat>)
    | AddExistingRollup(rollup: nat, lastVerified: Uint64, forkId: nat)
    | CreateNewRollup(rollup: nat, typeForkId: Option<nat>)

  /** A None event is one that cannot be parsed. */
  datatype ForkLog = ForkLog(block: nat, event: Option<ForkEvent>)

  datatype Fork = Fork(numBatch: Uint64, forkId: nat, version: string, block: nat)
  datatype Interval = Interval(from: nat, to: nat, forkId: nat, version: string, block: nat)

  datatype Reading = Bad | Skip | Own(fork: Fork)
  datatype Outcome = Found(intervals: seq<Interval>) | Failed | Panicked

  function Read(log: ForkLog, rollup: nat): Reading {
    match log.event
    case None => Bad
    case Some(UpdateZkEVMVersion(n, f, v)) => Own(Fork(n, f, v, log.block))
    case Some(UpdateRollup(r, n, t)) =>
      if r != rollup then Skip else if t.None? then Bad else Own(Fork(n, t.value, "", log.block))
    case Some(AddExistingRollup(r, n, f)) =>
      if r != rollup then Skip else Own(Fork(n, f, "", log.block))
    case Some(CreateNewRollup(r, t)) =>
      if r != rollup then Skip else if t.None? then Bad else Own(Fork(0, t.value, "", log.block))
  }

  function Next(batch: nat): nat {
    (batch + 1) % TWO_64
  }

  // Collecting the logs

  /** The logs of blocks `lo` to `hi`, as one query returns them. */
  function Between(at: nat -> seq<ForkLog>, lo: nat, hi: nat): seq<ForkLog>
    decreases hi + 1 - lo
  {
    if hi < lo then [] else at(lo) + Between(at, lo + 1, hi)
  }

  lemma Regroup(a: seq<ForkLog>, b: seq<ForkLog>, c: seq<ForkLog>)
    ensures (a + b) + c == a + (b + c)
  {
  }

  lemma {:induction false} BetweenSplits(at: nat -> seq<ForkLog>, lo: nat, mid: nat, hi: nat)
    requires lo <= mid + 1 && mid <= hi
    ensures Between(at, lo, hi) == Between(at, lo, mid) + Between(at, mid + 1, hi)
    decreases mid + 1 - lo
  {
    if lo <= mid {
      BetweenSplits(at, lo + 1, mid, hi);
    }
  }

  /** Where the next chunk starts, in 64-bit arithmetic. */
  function NextStart(i: Uint64, chunk: Uint64): (next: Uint64)
    ensures i < next <==> i + chunk + 1 < TWO_64
    ensures i < next ==> next == i + chunk + 1
  {
    (i + chunk + 1) % TWO_64
  }

  /** From `i` on every chunk starts after the one before it, until all blocks up to `last` are asked for. */
  predicate Advances(i: Uint64, last: Uint64, chunk: Uint64)
    decreases last + 1 - i
  {
    i <= last ==> i < NextStart(i, chunk) && Advances(NextStart(i, chunk), last, chunk)
  }

  lemma ProductGrows(p: nat, q: nat, d: nat)
    requires p < q
    ensures p * d + d <= q * d
  {
    var k := q - p - 1;
    assert q * d == p * d + d + k * d;
  }

  lemma Quotient(n: nat, d: nat, q: nat)
    requires q * d <= n < q * d + d
    ensures n / d == q
  {
    var p := n / d;
    assert p * d <= n < p * d + d;
    if p < q {
      ProductGrows(p, q, d);
    } else if q < p {
      ProductGrows(q, p, d);
    }
  }

  /** The first number past `last` at a multiple of `d` from `i`. */
  function FirstPast(i: nat, last: nat, d: nat): nat
    requires i <= last && 0 < d
  {
    i + ((last - i) / d + 1) * d
  }

  lemma FirstPastFrom(i: nat, last: nat, d: nat)
    requires i <= last && 0 < d
    ensures FirstPast(i, last, d) == if i + d <= last then FirstPast(i + d, last, d) else i + d
  {
    if i + d <= last {
      var q := (last - (i + d)) / d;
      assert (q + 1) * d == q * d + d && (q + 2) * d == q * d + d + d;
      Quotient(last - i, d, q + 1);
    } else {
      Quotient(last - i, d, 0);
    }
  }

  /** The loop over the blocks advances exactly when the first start past the last block fits 64 bits. */
  lemma {:induction false} AdvancesIff(i: Uint64, last: Uint64, chunk: Uint64)
    requires i <= last
    ensures Advances(i, last, chunk) <==> FirstPast(i, last, chunk + 1) < TWO_64
    decreases last + 1 - i
  {
    FirstPastFrom(i, last, chunk + 1);
    if i + chunk + 1 <= last {
      AdvancesIff(i + chunk + 1, last, chunk);
    }
  }

  /** With the largest chunk size every chunk starts where the one before it did. */
  lemma LargestChunkNeverAdvances(i: Uint64, last: Uint64)
    requires i <= last
    ensures NextStart(i, MAX_UINT64) == i && !Advances(i, last, MAX_UINT64)
  {
    assert i + MAX_UINT64 + 1 == i + TWO_64;
  }

  /** The query for the chunk at `i`, which ends with the range at the latest, and all after it are answered. */
  predicate Answered(queryOk: (nat, nat) -> bool, i: nat, last: nat, chunk: nat)
    decreases last + 1 - i
  {
    i <= last ==>
      && queryOk(i, if i + chunk <= last then i + chunk else last)
      && Answered(queryOk, i + chunk + 1, last, chunk)
  }

  /** Where the chunk at `i` ends, in 64-bit arithmetic. */
  function EndOf(i: Uint64, last: Uint64, chunk: Uint64): (end: Uint64)
    ensures i + chunk < TWO_64 ==> end == if i + chunk <= last then i + chunk else last
  {
    if (i + chunk) % TWO_64 > last then last else (i + chunk) % TWO_64
  }

  /** A chunk that is followed by a later one is the first part of what is left. */
  lemma FirstChunk(at: nat -> seq<ForkLog>, queryOk: (nat, nat) -> bool, i: Uint64, last: Uint64, chunk: Uint64)
    requires i <= last && i < NextStart(i, chunk)
    ensures
      var end, next := EndOf(i, last, chunk), NextStart(i, chunk);
      && Between(at, i, last) == Between(at, i, end) + Between(at, next, last)
      && (Advances(i, last, chunk) <==> Advances(next, last, chunk))
      && (Answered(queryOk, i, last, chunk) <==> queryOk(i, end) && Answered(queryOk, next, last, chunk))
  {
    BetweenSplits(at, i, EndOf(i, last, chunk), last);
  }

  /** The outcome of the queries; `Repeats` when a chunk would start at or before the one just asked for. */
  datatype Collection = Collected(logs: seq<ForkLog>) | QueryFailed | Repeats

  /** As long as the chunks of the range advance, every block of it is asked for exactly once and in order. */
  method CollectLogs(at: nat -> seq<ForkLog>, queryOk: (nat, nat) -> bool,
                     gen: Uint64, lastSynced: Uint64, chunk: Uint64)
    returns (r: Collection)
    ensures var last := Max(gen, lastSynced);
      && (r.Collected? ==> r.logs == Between(at, gen, last) && Advances(gen, last, chunk))
      && (r.Repeats? ==> !Advances(gen, last, chunk))
      && (Advances(gen, last, chunk) ==> (r.Collected? <==> Answered(queryOk, gen, last, chunk)))
      && (r.QueryFailed? ==> exists lo, hi :: !queryOk(lo, hi))
  {
    var last: Uint64 := if lastSynced < gen then gen else lastSynced;
    var i: Uint64, found := gen, [];
    while i <= last
      invariant gen <= i
      invariant Answered(queryOk, i, last, chunk) <==> Answered(queryOk, gen, last, chunk)
      invariant found + Between(at, i, last) == Between(at, gen, last)
      invariant Advances(i, last, chunk) <==> Advances(gen, last, chunk)
      decreases last + 1 - i
    {
      var final := EndOf(i, last, chunk);
      if !queryOk(i, final) {
        assert i < NextStart(i, chunk) ==> !Answered(queryOk, i, last, chunk);
        return QueryFailed;
      }
      var next := NextStart(i, chunk);
      if next <= i {
        return Repeats;
      }
      FirstChunk(at, queryOk, i, last, chunk);
      Regroup(found, Between(at, i, final), Between(at, next, last));
      found := found + Between(at, i, final);
      i := next;
    }
    return Collected(found);
  }

  // From logs to intervals

  function OwnForks(logs: seq<ForkLog>, rollup: nat): seq<Fork> {
    if logs == [] then []
    else
      var r := Read(logs[|logs| - 1], rollup);
      OwnForks(logs[..|logs| - 1], rollup) + if r.Own? then [r.fork] else []
  }

  function IntervalAt(forks: seq<Fork>, i: nat): Interval
    requires i < |forks|
  {
    Interval(Next(forks[i].numBatch), if i + 1 < |forks| then forks[i + 1].numBatch else MAX_UINT64,
             forks[i].forkId, forks[i].version, forks[i].block)
  }

  function IntervalsOf(forks: seq<Fork>): seq<Interval> {
    seq(|forks|, i requires 0 <= i < |forks| => IntervalAt(forks, i))
  }

  /** What a log must be to announce this fork of the rollup: the version event is for all, the others name their rollup. */
  predicate Announces(log: ForkLog, rollup: nat, f: Fork) {
    && log.block == f.block
    && (|| log.event == Some(UpdateZkEVMVersion(f.numBatch, f.forkId, f.version))
        || (&& f.version == ""
            && (|| log.event == Some(UpdateRollup(rollup, f.numBatch, Some(f.forkId)))
                || log.event == Some(AddExistingRollup(rollup, f.numBatch, f.forkId))
                || (f.numBatch == 0 && log.event == Some(CreateNewRollup(rollup, Some(f.forkId)))))))
  }

  /** A log is read as a fork of the rollup exactly when it announces that fork. */
  lemma OwnIff(log: ForkLog, rollup: nat, f: Fork)
    ensures Read(log, rollup) == Own(f) <==> Announces(log, rollup, f)
  {
  }

  /** `at` are the positions of the logs read as forks of the rollup, in order, and `forks` are these forks. */
  ghost predicate AnnouncedAt(logs: seq<ForkLog>, rollup: nat, forks: seq<Fork>, at: seq<nat>) {
    && |at| == |forks|
    && (forall k :: 0 <= k < |at| ==> at[k] < |logs| && Read(logs[at[k]], rollup) == Own(forks[k]))
    && (forall k, l :: 0 <= k < l < |at| ==> at[k] < at[l])
    && (forall i :: 0 <= i < |logs| && Read(logs[i], rollup).Own? ==> i in at)
  }

  lemma OneMoreFork(logs: seq<ForkLog>, rollup: nat, forks: seq<Fork>, at: seq<nat>, f: Fork)
    requires logs != [] && AnnouncedAt(logs[..|logs| - 1], rollup, forks, at)
    requires Read(logs[|logs| - 1], rollup) == Own(f)
    ensures AnnouncedAt(logs, rollup, forks + [f], at + [|logs| - 1])
  {
    var n := |logs| - 1;
    assert forall i :: 0 <= i < n ==> logs[..n][i] == logs[i];
    assert (at + [n])[|at|] == n;
  }

  lemma NoMoreFork(logs: seq<ForkLog>, rollup: nat, forks: seq<Fork>, at: seq<nat>)
    requires logs != [] && AnnouncedAt(logs[..|logs| - 1], rollup, forks, at)
    requires !Read(logs[|logs| - 1], rollup).Own?
    ensures AnnouncedAt(logs, rollup, forks, at)
  {
    var n := |logs| - 1;
    assert forall i :: 0 <= i < n ==> logs[..n][i] == logs[i];
  }

  lemma {:induction false} LastFork(logs: seq<ForkLog>, rollup: nat)
    requires logs != []
    ensures
      var r, forks := Read(logs[|logs| - 1], rollup), OwnForks(logs[..|logs| - 1], rollup);
      OwnForks(logs, rollup) == if r.Own? then forks + [r.fork] else forks
  {
  }

  /** The forks read from the logs are all that these announce for the rollup, in log order. */
  lemma {:induction false} OwnForksInOrder(logs: seq<ForkLog>, rollup: nat) returns (at: seq<nat>)
    ensures AnnouncedAt(logs, rollup, OwnForks(logs, rollup), at)
  {
    at := [];
    if logs != [] {
      var n := |logs| - 1;
      at := OwnForksInOrder(logs[..n], rollup);
      LastFork(logs, rollup);
      var r := Read(logs[n], rollup);
      if r.Own? {
        OneMoreFork(logs, rollup, OwnForks(logs[..n], rollup), at, r.fork);
        at := at + [n];
      } else {
        NoMoreFork(logs, rollup, OwnForks(logs[..n], rollup), at);
      }
    }
  }

  /** A fork of ours that is not the first log is appended after the one before it, which a foreign first log lacks. */
  predicate PanicsAt(logs: seq<ForkLog>, rollup: nat, j: nat)
    requires j < |logs|
  {
    Read(logs[0], rollup).Skip? && Read(logs[j], rollup).Own?
  }

  method GetForks(logs: seq<ForkLog>, rollup: nat) returns (outcome: Outcome)
    ensures outcome.Found? <==> forall j :: 0 <= j < |logs| ==> !Read(logs[j], rollup).Bad? && !PanicsAt(logs, rollup, j)
    ensures outcome.Found? ==> outcome.intervals == IntervalsOf(OwnForks(logs, rollup))
    ensures outcome.Panicked? ==>
      exists j :: 0 <= j < |logs| && PanicsAt(logs, rollup, j) && forall i :: 0 <= i < j ==> !Read(logs[i], rollup).Bad?
    ensures outcome.Failed? ==>
      exists j :: 0 <= j < |logs| && Read(logs[j], rollup).Bad? && forall i :: 0 <= i < j ==> !PanicsAt(logs, rollup, i)
  {
    var forks: seq<Interval> := [];
    assert logs[..0] == [];
    for i := 0 to |logs|
      invariant forall j :: 0 <= j < i ==> !Read(logs[j], rollup).Bad? && !PanicsAt(logs, rollup, j)
      invariant forks == IntervalsOf(OwnForks(logs[..i], rollup))
      invariant i > 0 ==> (forks == [] <==> Read(logs[0], rollup).Skip?)
    {
      assert logs[..i + 1][..i] == logs[..i];
      match Read(logs[i], rollup) {
        case Bad => return Failed;
        case Skip =>
        case Own(f) =>
          if i > 0 {
            if forks == [] {
              assert PanicsAt(logs, rollup, i);
              return Panicked;
            }
            forks := forks[|forks| - 1 := forks[|forks| - 1].(to := f.numBatch)];
          }
          forks := forks + [Interval(Next(f.numBatch), MAX_UINT64, f.forkId, f.version, f.block)];
      }
    }
    assert logs[..|logs|] == logs;
    return Found(forks);
  }

  /** A fork log of another rollup before our first one: by its contract GetForks panics. */
  lemma ForeignFirstLogPanics()
    ensures
      var logs := [ForkLog(1, Some(CreateNewRollup(2, Some(7)))), ForkLog(2, Some(CreateNewRollup(1, Some(7))))];
      && PanicsAt(logs, 1, 1)
      && (forall j :: 0 <= j < |logs| ==> !Read(logs[j], 1).Bad?)
  {
  }

  // The intervals as a partition

  predicate Contains(v: Interval, batch: nat) {
    v.from <= batch <= v.to
  }

  /** In how many of the intervals a batch is. */
  function Count(intervals: seq<Interval>, batch: nat): nat {
    if intervals == [] then 0
    else (if Contains(intervals[0], batch) then 1 else 0) + Count(intervals[1..], batch)
  }

  /** How often the fork batches fall from at or above `batch` to below it. */
  function Falls(forks: seq<Fork>, batch: nat): nat {
    if |forks| < 2 then 0
    else (if forks[1].numBatch < batch <= forks[0].numBatch then 1 else 0) + Falls(forks[1..], batch)
  }

  predicate Bounded(forks: seq<Fork>) {
    forall i :: 0 <= i < |forks| ==> forks[i].numBatch < MAX_UINT64
  }

  predicate Ascending(forks: seq<Fork>) {
    forall i :: 0 < i < |forks| ==> forks[i - 1].numBatch <= forks[i].numBatch
  }

  lemma TailIntervals(forks: seq<Fork>)
    requires forks != []
    ensures IntervalsOf(forks)[1..] == IntervalsOf(forks[1..])
  {
    assert forall i :: 0 <= i < |forks| - 1 ==> IntervalAt(forks, i + 1) == IntervalAt(forks[1..], i);
  }

  /** The number of intervals with a batch is what is left when falls are set off against rises. */
  lemma {:induction false} CountIsRises(forks: seq<Fork>, batch: nat)
    requires forks != [] && Bounded(forks) && batch <= MAX_UINT64
    ensures Count(IntervalsOf(forks), batch) == Falls(forks, batch) + if forks[0].numBatch < batch then 1 else 0
  {
    TailIntervals(forks);
    assert IntervalsOf(forks)[0] == IntervalAt(forks, 0);
    if |forks| > 1 {
      CountIsRises(forks[1..], batch);
    } else {
      assert Count(IntervalsOf(forks)[1..], batch) == 0;
    }
  }

  lemma {:induction false} FallIsCounted(forks: seq<Fork>, i: nat)
    requires 0 < i < |forks| && forks[i].numBatch < forks[i - 1].numBatch
    ensures Falls(forks, forks[i - 1].numBatch) > 0
    decreases i
  {
    if i > 1 {
      FallIsCounted(forks[1..], i - 1);
    }
  }

  lemma {:induction false} AscendingNeverFalls(forks: seq<Fork>, batch: nat)
    requires Ascending(forks)
    ensures Falls(forks, batch) == 0
  {
    if |forks| > 1 {
      assert forks[0].numBatch <= forks[1].numBatch;
      assert forall i :: 0 < i < |forks[1..]| ==> forks[1..][i - 1] == forks[i];
      AscendingNeverFalls(forks[1..], batch);
    }
  }

  /** Every batch after the first fork's is in exactly one interval and no other is in any. */
  ghost predicate Partition(forks: seq<Fork>)
    requires forks != []
  {
    forall batch :: 0 <= batch <= MAX_UINT64 ==> Count(IntervalsOf(forks), batch) == if forks[0].numBatch < batch then 1 else 0
  }

  lemma {:induction false} WrappedIsCounted(forks: seq<Fork>, i: nat)
    requires i < |forks| && forks[i].numBatch == MAX_UINT64
    ensures Count(IntervalsOf(forks), 0) > 0
    decreases i
  {
    TailIntervals(forks);
    assert IntervalsOf(forks)[0] == IntervalAt(forks, 0);
    if i > 0 {
      WrappedIsCounted(forks[1..], i - 1);
    }
  }

  /** The forks partition the batches exactly when the announced numbers never decrease and none is the largest number. */
  lemma PartitionIff(forks: seq<Fork>)
    requires forks != []
    ensures Partition(forks) <==> Ascending(forks) && Bounded(forks)
  {
    if !Bounded(forks) {
      var i :| 0 <= i < |forks| && forks[i].numBatch >= MAX_UINT64;
      WrappedIsCounted(forks, i);
    } else {
      forall batch | 0 <= batch <= MAX_UINT64
        ensures Count(IntervalsOf(forks), batch) == Falls(forks, batch) + if forks[0].numBatch < batch then 1 else 0
        ensures Ascending(forks) ==> Falls(forks, batch) == 0
      {
        CountIsRises(forks, batch);
        if Ascending(forks) {
          AscendingNeverFalls(forks, batch);
        }
      }
      if !Ascending(forks) {
        var i :| 0 < i < |forks| && forks[i].numBatch < forks[i - 1].numBatch;
        FallIsCounted(forks, i);
      }
    }
  }

  /** Announced with falling batch numbers, the second fork claims batches before the first. */
  lemma FallingForksAreNoPartition()
    ensures
      var forks := [Fork(5, 7, "", 1), Fork(2, 8, "", 2)];
      !Partition(forks) && forks[0].numBatch > 4 && Count(IntervalsOf(forks), 4) == 1
  {
    var forks := [Fork(5, 7, "", 1), Fork(2, 8, "", 2)];
    CountIsRises(forks, 4);
    assert Falls(forks[1..], 4) == 0;
  }

  /** Where they do, the interval of a batch names the last fork announced before it. */
  lemma IntervalNamesLastFork(forks: seq<Fork>, i: nat, batch: nat)
    requires i < |forks| && Ascending(forks) && Bounded(forks) && batch <= MAX_UINT64
    ensures Contains(IntervalsOf(forks)[i], batch)
      <==> forks[i].numBatch < batch && forall j :: i < j < |forks| ==> batch <= forks[j].numBatch
    ensures var v := IntervalsOf(forks)[i]; (v.forkId, v.version, v.block) == (forks[i].forkId, forks[i].version, forks[i].block)
  {
    forall j | i < j < |forks|
      ensures forks[i + 1].numBatch <= forks[j].numBatch
    {
      Climbs(forks, i + 1, j);
    }
  }

  lemma {:induction false} Climbs(forks: seq<Fork>, i: nat, j: nat)
    requires Ascending(forks) && i <= j < |forks|
    ensures forks[i].numBatch <= forks[j].numBatch
    decreases j
  {
    if i < j {
      Climbs(forks, i, j - 1);
    }
  }
}
