/** What the aggregator does once a verification transaction is confirmed (aggregator/aggregator.go:968-1003, 1171-1211). */
module FinalProofResult {
  import opened Wrappers
  import opened Decimal
  import opened ProofTable

  /** The id under which the verification of batches `lo` to `hi` is monitored: "proof-from-%v-to-%v". */
  function BuildMonitoredTxId(lo: nat, hi: nat): string {
    "proof-from-" + Itoa(lo) + "-to-" + Itoa(hi)
  }

  /** strconv.ParseUint in base 10, 64 bits: the value returned when the error is only logged. */
  function ParseUint(s: string): nat {
    if s == [] then 0 else ParseFrom(0, s)
  }

  function ParseFrom(n: nat, s: string): nat
    decreases s
  {
    if s == [] then n
    else if !IsDigit(s[0]) then 0
    else
      var n' := n * 10 + (s[0] as int - '0' as int);
      if n' > MAX_UINT64 then MAX_UINT64 else ParseFrom(n', s[1..])
  }

  /** The two numbers read back from an id; None where indexing its parts panics. */
  function ReadMonitoredTxId(id: string): Option<(nat, nat)> {
    var parts := Split(id, '-');
    if |parts| < 5 then None else Some((ParseUint(parts[2]), ParseUint(parts[4])))
  }

  lemma {:induction false} ParseIsValue(p: string, s: string)
    requires AllDigits(p + s) && Value(p + s) <= MAX_UINT64
    ensures AllDigits(p) && ParseFrom(Value(p), s) == Value(p + s)
    decreases s
  {
    assert forall c <- p :: c in p + s;
    if s == [] {
      assert p + s == p;
    } else {
      var q := p + [s[0]];
      assert q + s[1..] == p + s;
      PrefixIsSmaller(q, s[1..]);
      assert Value(q) == Value(p) * 10 + (s[0] as int - '0' as int) by { assert q[..|p|] == p; }
      ParseIsValue(q, s[1..]);
    }
  }

  lemma {:induction false} PrefixIsSmaller(p: string, s: string)
    requires AllDigits(p + s)
    ensures AllDigits(p) && Value(p) <= Value(p + s)
    decreases s
  {
    assert forall c <- p :: c in p + s;
    if s == [] {
      assert p + s == p;
    } else {
      assert (p + s)[..|p + s| - 1] == p + s[..|s| - 1];
      assert AllDigits(p + s[..|s| - 1]) by {
        assert forall c <- p + s[..|s| - 1] :: c in p + s;
      }
      PrefixIsSmaller(p, s[..|s| - 1]);
      assert IsDigit((p + s)[|p + s| - 1]);
    }
  }

  /** Digits whose value does not fit 64 bits give the largest number that does. */
  lemma {:induction false} ParseSaturates(p: string, s: string)
    requires AllDigits(p + s) && AllDigits(p) && Value(p) <= MAX_UINT64 < Value(p + s)
    ensures ParseFrom(Value(p), s) == MAX_UINT64
    decreases s
  {
    assert s == [] ==> p + s == p;
    if s != [] {
      var q := p + [s[0]];
      assert q + s[1..] == p + s;
      PrefixIsSmaller(q, s[1..]);
      assert Value(q) == Value(p) * 10 + (s[0] as int - '0' as int) by { assert q[..|p|] == p; }
      if Value(q) <= MAX_UINT64 {
        ParseSaturates(q, s[1..]);
      }
    }
  }

  /** What is read from a string of digits is its value, or the largest 64-bit number where that does not fit. */
  lemma ParseUintOfDigits(s: string)
    requires s != [] && AllDigits(s)
    ensures ParseUint(s) == if Value(s) <= MAX_UINT64 then Value(s) else MAX_UINT64
  {
    assert [] + s == s;
    if Value(s) <= MAX_UINT64 {
      ParseIsValue([], s);
    } else {
      ParseSaturates([], s);
    }
  }

  lemma ParseOfItoa(n: nat)
    requires n <= MAX_UINT64
    ensures ParseUint(Itoa(n)) == n
  {
    ValueOfItoa(n);
    ParseUintOfDigits(Itoa(n));
  }

  /** Reading an id gives back the range it was built from, so no two ranges share an id. */
  lemma MonitoredTxIdRoundTrip(lo: nat, hi: nat)
    requires lo <= MAX_UINT64 && hi <= MAX_UINT64
    ensures ReadMonitoredTxId(BuildMonitoredTxId(lo, hi)) == Some((lo, hi))
  {
    NoDash(lo);
    NoDash(hi);
    var parts := ["proof", "from", Itoa(lo), "to", Itoa(hi)];
    JoinFive("proof", "from", Itoa(lo), "to", Itoa(hi));
    assert BuildMonitoredTxId(lo, hi) == Join(parts, '-');
    SplitJoin(parts, '-');
    ParseOfItoa(lo);
    ParseOfItoa(hi);
  }

  lemma JoinFive(a: string, b: string, c: string, d: string, e: string)
    ensures Join([a, b, c, d, e], '-') == a + "-" + b + "-" + c + "-" + d + "-" + e
  {
    var parts := [a, b, c, d, e];
    assert parts[1..] == [b, c, d, e] && parts[1..][1..] == [c, d, e];
    assert [c, d, e][1..] == [d, e] && [d, e][1..] == [e];
    assert Join([d, e], '-') == d + "-" + e;
    assert Join([c, d, e], '-') == c + "-" + d + "-" + e;
  }

  lemma NoDash(n: nat)
    ensures '-' !in Itoa(n)
  {
    ValueOfItoa(n);
    assert forall c <- Itoa(n) :: IsDigit(c);
  }

  /** One look at the state: the last verified batch the synchronizer stored and the one L1 reports, where readable. */
  datatype Poll = Poll(stored: Option<nat>, l1: Option<nat>)

  predicate IsSynced(batch: Option<nat>, poll: Poll) {
    && poll.stored.Some?
    && (batch.Some? ==> batch.value <= poll.stored.value)
    && poll.l1.Some?
    && poll.l1.value <= poll.stored.value
  }

  class Cleaner {
    var table: Table

    /** The wait is over the polls made until the process stops; it may never see the state synced. */
    method HandleMonitoredTxResult(id: string, polls: seq<Poll>, cleanupOk: bool) returns (synced: bool)
      requires ReadMonitoredTxId(id).Some?
      modifies this
      // nothing is removed before the stored batch has caught up with the id and with what L1 reports
      ensures var end := ReadMonitoredTxId(id).value.1;
        && (synced <==> exists poll <- polls ::
              poll.stored.Some? && poll.l1.Some? && end <= poll.stored.value && poll.l1.value <= poll.stored.value)
        && table == if synced && cleanupOk then CleanupUpTo(old(table), end) else old(table)
    {
      var end := ReadMonitoredTxId(id).value.1;
      var i := 0;
      while i < |polls| && !IsSynced(Some(end), polls[i])
        invariant 0 <= i <= |polls|
        invariant forall k :: 0 <= k < i ==> !IsSynced(Some(end), polls[k])
      {
        i := i + 1;
      }
      synced := i < |polls|;
      assert synced ==> polls[i] in polls && IsSynced(Some(end), polls[i]);
      if synced && cleanupOk {
        table := CleanupUpTo(table, end);
      }
    }
  }

  /**
   Whatever the id says, even one whose numbers do not parse, the clean-up a poll allows removes only rows that are
   verified, and keeps every row that still covers an unverified batch.
   */
  lemma CleanupKeepsUnverified(t: Table, id: string, poll: Poll, verified: nat, r: Range)
    requires ReadMonitoredTxId(id).Some?
    requires IsSynced(Some(ReadMonitoredTxId(id).value.1), poll) && poll.stored.value <= verified
    ensures var t' := CleanupUpTo(t, ReadMonitoredTxId(id).value.1);
      && (r in t && r !in t' ==> r.hi <= verified)
      && poll.l1.Some? && poll.l1.value <= verified
      && (forall b :: verified < b ==> (Covered(t', b) <==> Covered(t, b)))
  {
    var t' := CleanupUpTo(t, ReadMonitoredTxId(id).value.1);
    forall b | verified < b
      ensures Covered(t', b) <==> Covered(t, b)
    {
      if Covered(t, b) {
        var q :| q in t && Covers(q, b);
        assert q in t';
      }
    }
  }

  /**
   From the id to the table: once a poll is synced with it, handling the id of batches `lo` to `hi` removes exactly the
   rows ending at or below `hi`, all of them verified.
   */
  lemma HandledProofRemovesItsRange(t: Table, lo: nat, hi: nat, poll: Poll, verified: nat)
    requires lo <= MAX_UINT64 && hi <= MAX_UINT64
    requires IsSynced(Some(hi), poll) && poll.stored.value <= verified
    ensures var read := ReadMonitoredTxId(BuildMonitoredTxId(lo, hi));
      && read.Some? && IsSynced(Some(read.value.1), poll)
      && CleanupUpTo(t, read.value.1).Keys == (set r <- t | hi < r.hi)
      && (forall r <- t | r !in CleanupUpTo(t, read.value.1) :: r.hi <= hi <= verified)
  {
    MonitoredTxIdRoundTrip(lo, hi);
  }
}
