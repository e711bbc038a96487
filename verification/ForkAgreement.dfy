/**
 The two readers of fork logs: GetForks (etherman/etherman_xlayer.go:364-479), which builds the intervals, and
 readEvents with its fork handlers (505-528, 664-711, 827-863), whose index the synchronizer replays.
 */
module ForkAgreement {
  import opened Wrappers
  import opened Forks
  import opened L1Events
  import opened L1Replay

  const FORKID_9 := 9

  /** A log of the contracts: one of the four fork events, or any other with what its handler makes of it. */
  datatype RawLog =
    | ForkRaw(header: Header, event: Option<ForkEvent>, fetchOk: bool)
    | OtherRaw(header: Header, effect: Effect)

  predicate WellTyped(raw: RawLog) {
    raw.OtherRaw? && raw.effect.Decoded? ==> !raw.effect.kind.ForkIDs?
  }

  /** The fork handlers: the rollup type is read before the rollup is looked at. */
  function Handled(raw: RawLog, rollup: nat, fork9UpgradeBatch: nat): Effect {
    match raw
    case OtherRaw(_, effect) => effect
    case ForkRaw(_, None, _) => DecodeError
    case ForkRaw(_, Some(UpdateZkEVMVersion(n, f, v)), ok) => UpdateForkId(n, f, v, rollup, ok, rollup, fork9UpgradeBatch)
    case ForkRaw(_, Some(UpdateRollup(r, n, t)), ok) =>
      if t.None? then DecodeError else UpdateForkId(n, t.value, "", r, ok, rollup, fork9UpgradeBatch)
    case ForkRaw(_, Some(CreateNewRollup(r, t)), ok) =>
      if t.None? then DecodeError else UpdateForkId(0, t.value, "", r, ok, rollup, fork9UpgradeBatch)
    case ForkRaw(_, Some(AddExistingRollup(r, n, f)), ok) => UpdateForkId(n, f, "", r, ok, rollup, fork9UpgradeBatch)
  }

  /** Forks of other rollups are ignored, and a configured batch replaces the announced one for fork 9. */
  function UpdateForkId(batch: nat, forkId: nat, version: string, affected: nat, fetchOk: bool, rollup: nat,
                        fork9UpgradeBatch: nat): Effect
  {
    if affected != rollup then Ignored
    else
      var n := if forkId == FORKID_9 && fork9UpgradeBatch != 0 then fork9UpgradeBatch else batch;
      Decoded(ForkIDs, ForkId(n, forkId, version), fetchOk)
  }

  /** The logs readEvents goes through. */
  function AllLogs(raws: seq<RawLog>, rollup: nat, fork9UpgradeBatch: nat): (logs: seq<Log>)
    ensures |logs| == |raws|
    ensures forall i :: 0 <= i < |raws| ==> logs[i].effect == Handled(raws[i], rollup, fork9UpgradeBatch)
  {
    if raws == [] then []
    else
      var raw := raws[|raws| - 1];
      AllLogs(raws[..|raws| - 1], rollup, fork9UpgradeBatch) + [Log(raw.header, Handled(raw, rollup, fork9UpgradeBatch))]
  }

  /** The logs the query of GetForks selects. */
  function ForkLogs(raws: seq<RawLog>): seq<ForkLog> {
    if raws == [] then []
    else
      var raw := raws[|raws| - 1];
      ForkLogs(raws[..|raws| - 1]) + if raw.ForkRaw? then [ForkLog(raw.header.number, raw.event)] else []
  }

  /** A fork as both readers tell it: the batch before its first one, its id and its version. */
  datatype Triple = Triple(batchNumber: nat, forkId: nat, version: string)

  /** The fork entries among those handed to the processors. */
  function ForkEntries(entries: seq<Entry>): seq<Triple> {
    if entries == [] then []
    else
      var (kind, found) := entries[|entries| - 1];
      ForkEntries(entries[..|entries| - 1])
      + if kind.ForkIDs? && found.Some? && found.value.ForkId?
        then [Triple(found.value.batchNumber, found.value.forkId, found.value.version)] else []
  }

  function Announced(f: Fork): Triple {
    Triple(f.numBatch, f.forkId, f.version)
  }

  function AllAnnounced(forks: seq<Fork>): (ts: seq<Triple>)
    ensures |ts| == |forks| && forall i :: 0 <= i < |forks| ==> ts[i] == Announced(forks[i])
  {
    if forks == [] then [] else AllAnnounced(forks[..|forks| - 1]) + [Announced(forks[|forks| - 1])]
  }

  /** From minus one, in 64 bits. */
  function Before(v: Interval): Triple {
    Triple((v.from + MAX_UINT64) % TWO_64, v.forkId, v.version)
  }

  function AllBefore(vs: seq<Interval>): (ts: seq<Triple>)
    ensures |ts| == |vs| && forall i :: 0 <= i < |vs| ==> ts[i] == Before(vs[i])
  {
    if vs == [] then [] else AllBefore(vs[..|vs| - 1]) + [Before(vs[|vs| - 1])]
  }

  // The replayed index

  lemma {:induction false} EntriesConcat(a: seq<Entry>, b: seq<Entry>)
    ensures ForkEntries(a + b) == ForkEntries(a) + ForkEntries(b)
  {
    if b == [] {
      assert a + b == a;
    } else {
      assert (a + b)[..|a + b| - 1] == a + b[..|b| - 1];
      EntriesConcat(a, b[..|b| - 1]);
    }
  }

  /** The slot that UpdateEtrogSequence shares does not touch forks. */
  lemma {:induction false} SameForkEntries(a: seq<Entry>, b: seq<Entry>)
    requires |a| == |b|
    requires forall i :: 0 <= i < |a| ==> a[i] == b[i] || (!a[i].0.ForkIDs? && !b[i].0.ForkIDs?)
    ensures ForkEntries(a) == ForkEntries(b)
  {
    if a != [] {
      SameForkEntries(a[..|a| - 1], b[..|b| - 1]);
    }
  }

  lemma {:induction false} SeenForks(gs: Groups)
    ensures ForkEntries(SeenAll(gs)) == ForkEntries(Logged(Ungrouped(gs)))
  {
    if gs.Snoc? {
      SeenForks(gs.init);
      SameForkEntries(Seen(gs.events), Logged(gs.events));
      EntriesConcat(SeenAll(gs.init), Seen(gs.events));
      LoggedConcat(Ungrouped(gs.init), gs.events);
      EntriesConcat(Logged(Ungrouped(gs.init)), Logged(gs.events));
    }
  }

  /** The fork entries of the replayed index are those of the log, even where other entries are not. */
  lemma ReplayedForks(es: seq<Event>)
    requires Contiguous(es)
    ensures ForkEntries(Replay(IndexAll(es).0, IndexAll(es).1)) == ForkEntries(Logged(es))
  {
    ReplayIsSeen(es);
    SeenForks(GroupsOf(es));
  }

  // Both readers

  /** No configured batch overrides an announced one. */
  ghost predicate Agrees(forks: seq<Fork>, fork9UpgradeBatch: nat) {
    fork9UpgradeBatch == 0
    || forall i :: 0 <= i < |forks| && forks[i].forkId == 9 ==> forks[i].numBatch == fork9UpgradeBatch
  }

  lemma AgreesNext(forks: seq<Fork>, f: Fork, fork9UpgradeBatch: nat)
    ensures Agrees(forks + [f], fork9UpgradeBatch) <==> Agrees(forks, fork9UpgradeBatch) && Agrees([f], fork9UpgradeBatch)
  {
    assert (forks + [f])[|forks|] == f && [f][0] == f;
    assert forall i :: 0 <= i < |forks| ==> (forks + [f])[i] == forks[i];
  }

  /** What one log adds for either reader. */
  lemma OneLog(raw: RawLog, rollup: nat, fork9UpgradeBatch: nat)
    requires WellTyped(raw) && !Handled(raw, rollup, fork9UpgradeBatch).DecodeError?
    ensures
      var e := Handled(raw, rollup, fork9UpgradeBatch);
      var own := raw.ForkRaw? && Read(ForkLog(raw.header.number, raw.event), rollup).Own?;
      && (own <==> e.Decoded? && e.kind.ForkIDs?)
      && (own ==>
            var f := Read(ForkLog(raw.header.number, raw.event), rollup).fork;
            && e.payload.ForkId? && e.payload.forkId == f.forkId && e.payload.version == f.version
            && (e.payload.batchNumber == f.numBatch <==> Agrees([f], fork9UpgradeBatch)))
  {
    if raw.ForkRaw? && Read(ForkLog(raw.header.number, raw.event), rollup).Own? {
      var f := Read(ForkLog(raw.header.number, raw.event), rollup).fork;
      assert [f][0] == f;
    }
  }

  lemma LoggedNext(es: seq<Event>, e: Event)
    ensures ForkEntries(Logged(es + [e])) == ForkEntries(Logged(es))
      + if e.kind.ForkIDs? && e.payload.ForkId? then [Triple(e.payload.batchNumber, e.payload.forkId, e.payload.version)] else []
  {
    LoggedConcat(es, [e]);
    EntriesConcat(Logged(es), Logged([e]));
    assert Logged([e])[..0] == [];
  }

  lemma SameLast<T>(a: seq<T>, x: T, b: seq<T>, y: T)
    ensures a + [x] == b + [y] <==> a == b && x == y
  {
    if a + [x] == b + [y] {
      assert a == (a + [x])[..|a|] && b == (b + [y])[..|b|];
      assert (a + [x])[|a|] == x;
    }
  }

  /** One log more. */
  lemma EventsOfLast(raws: seq<RawLog>, rollup: nat, fork9UpgradeBatch: nat)
    requires raws != []
    ensures
      var n := |raws| - 1;
      var e := Handled(raws[n], rollup, fork9UpgradeBatch);
      Events(AllLogs(raws, rollup, fork9UpgradeBatch)) == Events(AllLogs(raws[..n], rollup, fork9UpgradeBatch))
        + if e.Decoded? then [Event(raws[n].header, e.kind, e.payload)] else []
  {
    var n := |raws| - 1;
    assert AllLogs(raws, rollup, fork9UpgradeBatch)[..n] == AllLogs(raws[..n], rollup, fork9UpgradeBatch);
  }

  lemma ForksOfLast(raws: seq<RawLog>, rollup: nat)
    requires raws != []
    ensures
      var raw := raws[|raws| - 1];
      var r := if raw.ForkRaw? then Read(ForkLog(raw.header.number, raw.event), rollup) else Skip;
      OwnForks(ForkLogs(raws), rollup) == OwnForks(ForkLogs(raws[..|raws| - 1]), rollup) + if r.Own? then [r.fork] else []
  {
    var raw, init := raws[|raws| - 1], ForkLogs(raws[..|raws| - 1]);
    if raw.ForkRaw? {
      assert (init + [ForkLog(raw.header.number, raw.event)])[..|init|] == init;
    } else {
      assert init + [] == init;
    }
  }

  lemma AnnouncedNext(forks: seq<Fork>, f: Fork)
    ensures AllAnnounced(forks + [f]) == AllAnnounced(forks) + [Announced(f)]
  {
    assert (forks + [f])[..|forks|] == forks;
  }

  lemma {:induction false} LoggedForksIff(raws: seq<RawLog>, rollup: nat, fork9UpgradeBatch: nat)
    requires forall i :: 0 <= i < |raws| ==> WellTyped(raws[i]) && !Handled(raws[i], rollup, fork9UpgradeBatch).DecodeError?
    ensures
      var logged := ForkEntries(Logged(Events(AllLogs(raws, rollup, fork9UpgradeBatch))));
      var own := OwnForks(ForkLogs(raws), rollup);
      logged == AllAnnounced(own) <==> Agrees(own, fork9UpgradeBatch)
  {
    if raws != [] {
      var n := |raws| - 1;
      var raw, e := raws[n], Handled(raws[n], rollup, fork9UpgradeBatch);
      var es, own := Events(AllLogs(raws[..n], rollup, fork9UpgradeBatch)), OwnForks(ForkLogs(raws[..n]), rollup);
      LoggedForksIff(raws[..n], rollup, fork9UpgradeBatch);
      OneLog(raw, rollup, fork9UpgradeBatch);
      EventsOfLast(raws, rollup, fork9UpgradeBatch);
      ForksOfLast(raws, rollup);
      if e.Decoded? {
        LoggedNext(es, Event(raw.header, e.kind, e.payload));
      }
      if e.Decoded? && e.kind.ForkIDs? {
        var f := Read(ForkLog(raw.header.number, raw.event), rollup).fork;
        AnnouncedNext(own, f);
        AgreesNext(own, f, fork9UpgradeBatch);
        SameLast(ForkEntries(Logged(es)), Triple(e.payload.batchNumber, e.payload.forkId, e.payload.version),
                 AllAnnounced(own), Announced(f));
      } else {
        assert own + [] == own && es + [] == es && ForkEntries(Logged(es)) + [] == ForkEntries(Logged(es));
      }
    }
  }

  lemma IntervalsAreAnnounced(forks: seq<Fork>)
    ensures AllBefore(IntervalsOf(forks)) == AllAnnounced(forks)
  {
    assert forall i :: 0 <= i < |forks| ==> Before(IntervalAt(forks, i)) == Announced(forks[i]);
  }

  /**
   Where readEvents does not fail, the ForkIDs entries of the index it builds, as the synchronizer replays them, are
   the batch before, the id and the version of the intervals GetForks builds from the same logs, in order, exactly
   when no configured batch overrides an announced one.
   */
  lemma ForksAgreeIff(raws: seq<RawLog>, rollup: nat, fork9UpgradeBatch: nat)
    requires forall i :: 0 <= i < |raws| ==> WellTyped(raws[i])
    requires
      var logs := AllLogs(raws, rollup, fork9UpgradeBatch);
      Contiguous(Events(logs)) && forall i :: 0 <= i < |logs| ==> !Fails(logs, i)
    ensures
      var es := Events(AllLogs(raws, rollup, fork9UpgradeBatch));
      var own := OwnForks(ForkLogs(raws), rollup);
      ForkEntries(Replay(IndexAll(es).0, IndexAll(es).1)) == AllBefore(IntervalsOf(own)) <==> Agrees(own, fork9UpgradeBatch)
  {
    var logs := AllLogs(raws, rollup, fork9UpgradeBatch);
    forall i | 0 <= i < |raws| ensures !Handled(raws[i], rollup, fork9UpgradeBatch).DecodeError? {
      assert !Fails(logs, i);
    }
    ReplayedForks(Events(logs));
    LoggedForksIff(raws, rollup, fork9UpgradeBatch);
    IntervalsAreAnnounced(OwnForks(ForkLogs(raws), rollup));
  }
}
