/**
 Sequencing batches whose data stays off L1: the calldata the sequencer builds (etherman/etherman_xlayer.go:1006-1021),
 the data it posts and a node fetches (dataavailability/dataavailability.go:47-140), and the batches a node decodes from
 the calldata (etherman/etherman_xlayer.go:1430-1490).
 */
module Validium {
  import opened Wrappers
  import opened DataCommittee

  datatype Sequence = Sequence(
    globalExitRoot: Hash, batchL2Data: Bytes, batchNumber: nat, forcedBatchTimestamp: int, prevBlockHash: Hash)

  /** What goes to L1 for a batch. */
  datatype ValidiumBatch = ValidiumBatch(
    transactionsHash: Hash, forcedGlobalExitRoot: Hash, forcedTimestamp: nat, forcedBlockHashL1: Hash)

  datatype SequencedBatch = SequencedBatch(
    batchNumber: nat, transactions: Bytes, forcedGlobalExitRoot: Hash, forcedTimestamp: nat, forcedBlockHashL1: Hash)

  /** Conversion of a 64-bit signed integer to an unsigned one. */
  function ToUint64(t: int): nat {
    t % TWO_64
  }

  function EncodeOne(keccak: Keccak, s: Sequence): ValidiumBatch {
    ValidiumBatch(keccak(s.batchL2Data), if s.forcedBatchTimestamp > 0 then s.globalExitRoot else 0,
                  ToUint64(s.forcedBatchTimestamp), s.prevBlockHash)
  }

  function Encoded(keccak: Keccak, sequences: seq<Sequence>): (batches: seq<ValidiumBatch>)
    ensures |batches| == |sequences|
    ensures forall i :: 0 <= i < |batches| ==> batches[i] == EncodeOne(keccak, sequences[i])
  {
    if sequences == [] then []
    else Encoded(keccak, sequences[..|sequences| - 1]) + [EncodeOne(keccak, sequences[|sequences| - 1])]
  }

  method SequenceBatches(keccak: Keccak, sequences: seq<Sequence>) returns (batches: seq<ValidiumBatch>)
    ensures batches == Encoded(keccak, sequences)
  {
    batches := [];
    for i := 0 to |sequences|
      invariant batches == Encoded(keccak, sequences[..i])
    {
      var s := sequences[i];
      var ger := 0;
      if s.forcedBatchTimestamp > 0 {
        ger := s.globalExitRoot;
      }
      assert sequences[..i + 1][..i] == sequences[..i];
      batches := batches + [ValidiumBatch(keccak(s.batchL2Data), ger, ToUint64(s.forcedBatchTimestamp), s.prevBlockHash)];
    }
    assert sequences[..|sequences|] == sequences;
  }

  /** What is posted to the committee: the data of the batches that are not forced. */
  function Posted(sequences: seq<Sequence>): seq<Bytes> {
    if sequences == [] then []
    else
      var s := sequences[|sequences| - 1];
      Posted(sequences[..|sequences| - 1]) + if s.forcedBatchTimestamp == 0 then [s.batchL2Data] else []
  }

  /** `at` are the positions of the batches that are not forced, in order, and `data` is theirs. */
  ghost predicate PostedFrom(sequences: seq<Sequence>, data: seq<Bytes>, at: seq<nat>) {
    && |at| == |data|
    && (forall k :: 0 <= k < |at| ==> at[k] < |sequences| && data[k] == sequences[at[k]].batchL2Data)
    && (forall k, l :: 0 <= k < l < |at| ==> at[k] < at[l])
    && (forall i :: 0 <= i < |sequences| ==> (i in at <==> sequences[i].forcedBatchTimestamp == 0))
  }

  /** The last batch of a sequence is posted last, or not at all. */
  lemma PostedLast(sequences: seq<Sequence>, data: seq<Bytes>, at: seq<nat>)
    requires sequences != [] && PostedFrom(sequences[..|sequences| - 1], data, at)
    ensures
      var n := |sequences| - 1;
      if sequences[n].forcedBatchTimestamp == 0 then PostedFrom(sequences, data + [sequences[n].batchL2Data], at + [n])
      else PostedFrom(sequences, data, at)
  {
    var n := |sequences| - 1;
    assert forall i :: 0 <= i < n ==> sequences[..n][i] == sequences[i];
    assert n !in at && (at + [n])[|at|] == n;
  }

  lemma {:induction false} PostedInOrder(sequences: seq<Sequence>) returns (at: seq<nat>)
    ensures PostedFrom(sequences, Posted(sequences), at)
  {
    at := [];
    if sequences != [] {
      var n := |sequences| - 1;
      at := PostedInOrder(sequences[..n]);
      PostedLast(sequences, Posted(sequences[..n]), at);
      if sequences[n].forcedBatchTimestamp == 0 {
        at := at + [n];
      }
    }
  }

  /** The data of the batches that are not forced, one by one and in the order of the sequence. */
  method PostSequence(sequences: seq<Sequence>) returns (batchesData: seq<Bytes>)
    ensures batchesData == Posted(sequences)
    ensures exists at :: PostedFrom(sequences, batchesData, at)
  {
    batchesData := [];
    for i := 0 to |sequences|
      invariant batchesData == Posted(sequences[..i])
    {
      assert sequences[..i + 1][..i] == sequences[..i];
      if sequences[i].forcedBatchTimestamp == 0 {
        batchesData := batchesData + [sequences[i].batchL2Data];
      }
    }
    assert sequences[..|sequences|] == sequences;
    ghost var at := PostedInOrder(sequences);
  }

  // Fetching

  /** What the node's own database and the trusted sequencer answer; None is an error. */
  datatype Answers = Answers(local: Option<map<nat, Bytes>>, trusted: Option<seq<Bytes>>)

  predicate InMap(keccak: Keccak, data: map<nat, Bytes>, n: nat, h: Hash) {
    n in data && keccak(data[n]) == h
  }

  class DataAvailability {
    const isTrustedSequencer: bool
    const backend: Committee

    constructor (isTrustedSequencer: bool, backend: Committee)
      ensures this.isTrustedSequencer == isTrustedSequencer && this.backend == backend
    {
      this.isTrustedSequencer := isTrustedSequencer;
      this.backend := backend;
    }

    static method LocalData(keccak: Keccak, numbers: seq<nat>, hashes: seq<Hash>, answer: Option<map<nat, Bytes>>)
      returns (r: Option<seq<Bytes>>)
      requires |numbers| == |hashes|
      ensures r.Some? <==> LocalHas(keccak, numbers, hashes, answer)
      ensures r.Some? ==> Preimages(keccak, r.value, hashes)
    {
      if answer.None? {
        return None;
      }
      var batches: seq<Bytes> := [];
      for i := 0 to |numbers|
        invariant Preimages(keccak, batches, hashes[..i])
        invariant forall j :: 0 <= j < i ==> InMap(keccak, answer.value, numbers[j], hashes[j])
      {
        if !InMap(keccak, answer.value, numbers[i], hashes[i]) {
          return None;
        }
        batches := batches + [answer.value[numbers[i]]];
      }
      return Some(batches);
    }

    static method TrustedSequencerData(keccak: Keccak, numbers: seq<nat>, hashes: seq<Hash>, answer: Option<seq<Bytes>>)
      returns (r: Option<seq<Bytes>>)
      requires |numbers| == |hashes|
      ensures r.Some? <==> answer.Some? && Preimages(keccak, answer.value, hashes)
      ensures r.Some? ==> r == answer
    {
      if answer.None? || |answer.value| != |numbers| {
        return None;
      }
      var result: seq<Bytes> := [];
      for i := 0 to |numbers|
        invariant result == answer.value[..i]
        invariant forall j :: 0 <= j < i ==> keccak(answer.value[j]) == hashes[j]
      {
        if hashes[i] != keccak(answer.value[i]) {
          return None;
        }
        result := result + [answer.value[i]];
      }
      assert result == answer.value;
      return Some(result);
    }

    /** From the local database, else from the trusted sequencer unless the node is that, else from the committee. */
    method GetBatchL2Data(keccak: Keccak, numbers: seq<nat>, hashes: seq<Hash>, answers: Answers,
                          reloaded: Option<seq<Member>>, pick: nat)
      returns (r: Option<seq<Bytes>>)
      requires backend.Valid()
      requires reloaded.Some? && reloaded.value != [] ==> pick < |reloaded.value|
      modifies backend
      ensures backend.Valid()
      // whoever answered, the data is what the hashes stand for
      ensures r.Some? ==> Preimages(keccak, r.value, hashes)
      // and it is found whenever any source has all of it
      ensures r.Some? <==>
        && |numbers| == |hashes|
        && (|| LocalHas(keccak, numbers, hashes, answers.local)
            || (!isTrustedSequencer && answers.trusted.Some? && Preimages(keccak, answers.trusted.value, hashes))
            || (forall i :: 0 <= i < |hashes| ==> Available(keccak, old(backend.members), hashes[i])))
    {
      if |numbers| != |hashes| {
        return None;
      }
      r := LocalData(keccak, numbers, hashes, answers.local);
      if r.Some? {
        return;
      }
      if !isTrustedSequencer {
        r := TrustedSequencerData(keccak, numbers, hashes, answers.trusted);
        if r.Some? {
          return;
        }
      }
      r := backend.GetSequence(keccak, hashes, reloaded, pick);
    }

    /** The validium branch of decodeSequencedBatches; numbers count down from the last batch of the event, mod 2^64. */
    method Decode(keccak: Keccak, batches: seq<ValidiumBatch>, lastBatchNumber: nat, answers: Answers,
                  reloaded: Option<seq<Member>>, pick: nat)
      returns (r: Option<seq<SequencedBatch>>)
      requires backend.Valid()
      requires reloaded.Some? && reloaded.value != [] ==> pick < |reloaded.value|
      modifies backend
      ensures backend.Valid()
      ensures r.Some? ==> Decodes(keccak, batches, lastBatchNumber, r.value)
      // and the batches are decoded exactly when one source has the data of all of them
      ensures r.Some? <==>
        || LocalHas(keccak, Numbers(lastBatchNumber, |batches|), Hashes(batches), answers.local)
        || (!isTrustedSequencer && answers.trusted.Some? && Preimages(keccak, answers.trusted.value, Hashes(batches)))
        || (forall i :: 0 <= i < |batches| ==> Available(keccak, old(backend.members), batches[i].transactionsHash))
    {
      var batchNums, hashes: seq<Hash> := [], [];
      for i := 0 to |batches|
        invariant |batchNums| == |hashes| == i
        invariant forall j :: 0 <= j < i ==> batchNums[j] == NumberAt(lastBatchNumber, |batches|, j)
        invariant forall j :: 0 <= j < i ==> hashes[j] == batches[j].transactionsHash
      {
        batchNums := batchNums + [ToUint64(lastBatchNumber - (|batches| - (i + 1)))];
        hashes := hashes + [batches[i].transactionsHash];
      }
      assert batchNums == Numbers(lastBatchNumber, |batches|) && hashes == Hashes(batches);
      var data := GetBatchL2Data(keccak, batchNums, hashes, answers, reloaded, pick);
      if data.None? {
        return None;
      }
      var found: seq<SequencedBatch> := [];
      for i := 0 to |batches|
        invariant |found| == i
        invariant forall j :: 0 <= j < i ==> DecodesOne(keccak, batches[j], NumberAt(lastBatchNumber, |batches|, j), found[j])
      {
        var b := batches[i];
        found := found + [SequencedBatch(batchNums[i], data.value[i], b.forcedGlobalExitRoot, b.forcedTimestamp, b.forcedBlockHashL1)];
      }
      return Some(found);
    }
  }

  predicate LocalHas(keccak: Keccak, numbers: seq<nat>, hashes: seq<Hash>, answer: Option<map<nat, Bytes>>)
    requires |numbers| == |hashes|
  {
    answer.Some? && forall i :: 0 <= i < |numbers| ==> InMap(keccak, answer.value, numbers[i], hashes[i])
  }

  function NumberAt(last: nat, n: nat, i: nat): nat {
    ToUint64(last - (n - (i + 1)))
  }

  function Numbers(last: nat, n: nat): seq<nat> {
    seq(n, i requires 0 <= i < n => NumberAt(last, n, i))
  }

  function Hashes(batches: seq<ValidiumBatch>): seq<Hash> {
    seq(|batches|, i requires 0 <= i < |batches| => batches[i].transactionsHash)
  }

  predicate DecodesOne(keccak: Keccak, b: ValidiumBatch, number: nat, r: SequencedBatch) {
    && r.batchNumber == number
    && keccak(r.transactions) == b.transactionsHash
    && r.forcedGlobalExitRoot == b.forcedGlobalExitRoot
    && r.forcedTimestamp == b.forcedTimestamp
    && r.forcedBlockHashL1 == b.forcedBlockHashL1
  }

  predicate Decodes(keccak: Keccak, batches: seq<ValidiumBatch>, last: nat, r: seq<SequencedBatch>) {
    |r| == |batches| && forall i :: 0 <= i < |r| ==> DecodesOne(keccak, batches[i], NumberAt(last, |batches|, i), r[i])
  }

  // Round trip

  ghost predicate Injective(keccak: Keccak) {
    forall x, y :: keccak(x) == keccak(y) ==> x == y
  }

  /** Numbered one after the other, as a sequence is. */
  predicate Consecutive(sequences: seq<Sequence>) {
    forall i :: 0 <= i < |sequences| ==>
      && 0 <= sequences[i].batchNumber < TWO_64
      && sequences[i].batchNumber == sequences[0].batchNumber + i
  }

  /** What one batch decodes to. */
  lemma OneDecoded(keccak: Keccak, q: Sequence, number: nat, r: SequencedBatch)
    requires Injective(keccak) && DecodesOne(keccak, EncodeOne(keccak, q), number, r)
    ensures r.batchNumber == number && r.transactions == q.batchL2Data
    ensures r.forcedGlobalExitRoot == if q.forcedBatchTimestamp > 0 then q.globalExitRoot else 0
    ensures 0 <= q.forcedBatchTimestamp < TWO_64 ==> r.forcedTimestamp == q.forcedBatchTimestamp
    ensures r.forcedBlockHashL1 == q.prevBlockHash
  {
  }

  lemma NumberOf(sequences: seq<Sequence>, i: nat)
    requires Consecutive(sequences) && i < |sequences|
    ensures NumberAt(sequences[|sequences| - 1].batchNumber, |sequences|, i) == sequences[i].batchNumber
  {
    assert sequences[|sequences| - 1].batchNumber - (|sequences| - (i + 1)) == sequences[i].batchNumber;
  }

  /** What any node decodes from the sequencer's calldata is what the sequencer sequenced, number by number. */
  lemma {:induction false} DecodeInvertsEncode(keccak: Keccak, sequences: seq<Sequence>, r: seq<SequencedBatch>, i: nat)
    requires Injective(keccak) && Consecutive(sequences) && i < |sequences|
    requires Decodes(keccak, Encoded(keccak, sequences), sequences[|sequences| - 1].batchNumber, r)
    ensures |r| == |sequences|
    ensures r[i].batchNumber == sequences[i].batchNumber
    ensures r[i].transactions == sequences[i].batchL2Data
    ensures r[i].forcedGlobalExitRoot == if sequences[i].forcedBatchTimestamp > 0 then sequences[i].globalExitRoot else 0
    ensures 0 <= sequences[i].forcedBatchTimestamp < TWO_64 ==> r[i].forcedTimestamp == sequences[i].forcedBatchTimestamp
    ensures r[i].forcedBlockHashL1 == sequences[i].prevBlockHash
  {
    NumberOf(sequences, i);
    OneDecoded(keccak, sequences[i], sequences[i].batchNumber, r[i]);
  }

  // Availability

  /** The committee has what was posted and nothing else. */
  ghost predicate HoldsPosted(keccak: Keccak, members: seq<Member>, posted: seq<Bytes>) {
    forall h :: Available(keccak, members, h) <==> exists d <- posted :: keccak(d) == h
  }

  lemma {:induction false} PostedIff(sequences: seq<Sequence>, d: Bytes)
    ensures d in Posted(sequences)
      <==> exists j :: 0 <= j < |sequences| && sequences[j].forcedBatchTimestamp == 0 && sequences[j].batchL2Data == d
  {
    if sequences != [] {
      var n := |sequences| - 1;
      PostedIff(sequences[..n], d);
      if d in Posted(sequences[..n]) {
        var j :| 0 <= j < n && sequences[..n][j].forcedBatchTimestamp == 0 && sequences[..n][j].batchL2Data == d;
        assert sequences[j] == sequences[..n][j];
      }
      assert forall j :: 0 <= j < n ==> sequences[j] == sequences[..n][j];
    }
  }

  /** A forced batch's data is posted only if a batch that is not forced has the same data. */
  predicate AlsoUnforced(sequences: seq<Sequence>, i: nat)
    requires i < |sequences|
  {
    exists j :: 0 <= j < |sequences| && sequences[j].forcedBatchTimestamp == 0 && sequences[j].batchL2Data == sequences[i].batchL2Data
  }

  /**
   The committee alone can serve a batch of the sequence exactly when it is not forced or repeats one that is not.
   Posting skips forced batches, yet fetching asks for all hashes: with one forced batch of its own data in it, a
   sequence cannot be read back from the committee.
   */
  lemma {:induction false} CommitteeServesIff(keccak: Keccak, members: seq<Member>, sequences: seq<Sequence>, i: nat)
    requires Injective(keccak) && HoldsPosted(keccak, members, Posted(sequences)) && i < |sequences|
    ensures Available(keccak, members, Encoded(keccak, sequences)[i].transactionsHash) <==> AlsoUnforced(sequences, i)
  {
    PostedIff(sequences, sequences[i].batchL2Data);
    var h := Encoded(keccak, sequences)[i].transactionsHash;
    assert h == keccak(sequences[i].batchL2Data);
    assert (exists d <- Posted(sequences) :: keccak(d) == h) <==> sequences[i].batchL2Data in Posted(sequences);
  }

  /** A sequence of one forced batch: nothing is posted, and no committee that holds just that has its data. */
  lemma {:induction false} ForcedBatchIsNotServed(keccak: Keccak, members: seq<Member>)
    requires Injective(keccak) && HoldsPosted(keccak, members, [])
    ensures var forced := [Sequence(1, [1], 5, 1700000000, 2)];
      && Posted(forced) == []
      && !Available(keccak, members, Encoded(keccak, forced)[0].transactionsHash)
  {
    var forced := [Sequence(1, [1], 5, 1700000000, 2)];
    assert forced[..0] == [];
  }
}
