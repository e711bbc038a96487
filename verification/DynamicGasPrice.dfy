/** The dynamic gas price (jsonrpc/dynamic_gas_price_xlayer.go:90-274). */
module DynamicGasPrice {
  import opened Wrappers
  import opened Ranks

  datatype Config = Config(
    congestionTxThreshold: nat, checkBatches: int, sampleNumber: int, percentile: int, maxPrice: nat, minPrice: nat)

  /** What the state answers for a batch: an error, no list of transactions, or their tips. */
  datatype BatchTxs = ReadError | NoTxs | Txs(tips: seq<int>)

  /** What a sampling goroutine sends. */
  datatype Answer = Failed | Sample(values: seq<int>)

  /** What the state and the pool answer; None is an error. */
  datatype Environment = Environment(
    lastBatch: Option<nat>, readyTxs: Option<nat>, lastBlockTxs: Option<nat>, rawPrice: Option<nat>)

  datatype Outcome = Updated | Unchanged | Panicked

  // Sampling a batch

  function Positive(s: seq<int>): seq<int> {
    if s == [] then []
    else Positive(s[..|s| - 1]) + if s[|s| - 1] > 0 then [s[|s| - 1]] else []
  }

  function Wanted(limit: int): nat {
    if limit < 1 then 1 else limit
  }

  function First(p: seq<int>, n: nat): seq<int> {
    if |p| <= n then p else p[..n]
  }

  function Sampled(tips: seq<int>, limit: int): seq<int> {
    First(Positive(Sort(tips)), Wanted(limit))
  }

  /** getL2BatchTxsTips: the smallest positive tips, as many as asked for, and one if none is asked for. */
  method GetL2BatchTxsTips(txs: BatchTxs, limit: int) returns (answer: Answer)
    ensures answer == match txs
      case ReadError => Failed
      case NoTxs => Sample([])
      case Txs(tips) => Sample(Sampled(tips, limit))
  {
    if txs.ReadError? {
      return Failed;
    }
    if txs.NoTxs? {
      return Sample([]);
    }
    var prices := FirstPositive(Sort(txs.tips), limit);
    return Sample(prices);
  }

  method FirstPositive(sorted: seq<int>, limit: int) returns (prices: seq<int>)
    ensures prices == First(Positive(sorted), Wanted(limit))
  {
    prices := [];
    var i := 0;
    while i < |sorted|
      invariant 0 <= i <= |sorted|
      invariant prices == Positive(sorted[..i])
      invariant |prices| < Wanted(limit)
    {
      assert sorted[..i + 1][..i] == sorted[..i];
      if sorted[i] <= 0 {
        i := i + 1;
        continue;
      }
      prices := prices + [sorted[i]];
      i := i + 1;
      if |prices| >= limit {
        PositivePrefix(sorted, i);
        return;
      }
    }
    assert sorted[..i] == sorted;
  }

  lemma {:induction false} PositivePrefix(s: seq<int>, i: nat)
    requires i <= |s|
    ensures |Positive(s[..i])| <= |Positive(s)| && Positive(s)[..|Positive(s[..i])|] == Positive(s[..i])
    decreases |s|
  {
    if i == |s| {
      assert s[..i] == s;
    } else {
      PositivePrefix(s[..|s| - 1], i);
      assert s[..|s| - 1][..i] == s[..i];
    }
  }

  lemma {:induction false} PositiveCounts(s: seq<int>, x: int)
    ensures multiset(Positive(s))[x] == if x > 0 then multiset(s)[x] else 0
  {
    if s != [] {
      PositiveCounts(s[..|s| - 1], x);
      assert s == s[..|s| - 1] + [s[|s| - 1]];
    }
  }

  /**
   What a goroutine sends are positive tips of its batch, each as often as it was paid, as many as asked for and one if
   none is; a positive tip that is left out, even once, is no smaller than the last one sent, and no more are asked for.
   */
  lemma SampledAreSmallest(tips: seq<int>, limit: int, x: int)
    ensures multiset(Sampled(tips, limit))[x] <= if x > 0 then multiset(tips)[x] else 0
    ensures |Sampled(tips, limit)| <= if limit < 1 then 1 else limit
    ensures x > 0 && multiset(Sampled(tips, limit))[x] < multiset(tips)[x] ==>
      && |Sampled(tips, limit)| == (if limit < 1 then 1 else limit)
      && Sampled(tips, limit)[|Sampled(tips, limit)| - 1] <= x
    ensures Ascending(Sampled(tips, limit))
  {
    PositiveCounts(Sort(tips), x);
    PositiveAscending(Sort(tips));
    FirstAreSmallest(Positive(Sort(tips)), Wanted(limit), x);
  }

  lemma FirstAreSmallest(p: seq<int>, n: nat, x: int)
    requires Ascending(p) && n > 0
    ensures |First(p, n)| <= n && Ascending(First(p, n))
    ensures multiset(First(p, n))[x] <= multiset(p)[x]
    ensures multiset(First(p, n))[x] < multiset(p)[x] ==> |First(p, n)| == n && First(p, n)[n - 1] <= x
  {
    if |p| > n {
      PrefixAscending(p, n);
      assert p == p[..n] + p[n..];
      if x in p[n..] {
        var j :| 0 <= j < |p[n..]| && p[n..][j] == x;
        AscendingPair(p, n - 1, n + j);
      } else {
        assert multiset(p[n..])[x] == 0;
      }
    }
  }

  lemma {:induction false} PrefixAscending(s: seq<int>, n: nat)
    requires Ascending(s) && n <= |s|
    ensures Ascending(s[..n])
    decreases |s|
  {
    if n == |s| {
      assert s[..n] == s;
    } else {
      InitAscending(s);
      PrefixAscending(s[..|s| - 1], n);
      assert s[..|s| - 1][..n] == s[..n];
    }
  }

  lemma {:induction false} AscendingPair(s: seq<int>, i: nat, j: nat)
    requires Ascending(s) && i <= j < |s|
    ensures s[i] <= s[j]
  {
    if i > 0 {
      AscendingPair(s[1..], i - 1, j - 1);
    } else {
      FirstIsLeast(s, j);
    }
  }

  lemma {:induction false} PositiveAscending(s: seq<int>)
    requires Ascending(s)
    ensures Ascending(Positive(s))
    ensures Positive(s) != [] ==> s != [] && Positive(s)[|Positive(s)| - 1] <= s[|s| - 1]
  {
    if s != [] {
      var n := |s| - 1;
      InitAscending(s);
      PositiveAscending(s[..n]);
      if n > 0 {
        AscendingPair(s, n - 1, n);
      }
      if s[n] > 0 {
        AscendingAppend(Positive(s[..n]), s[n]);
      } else {
        assert Positive(s) == Positive(s[..n]);
      }
    }
  }

  lemma {:induction false} InitAscending(s: seq<int>)
    requires Ascending(s) && s != []
    ensures Ascending(s[..|s| - 1])
  {
    if |s| > 1 {
      InitAscending(s[1..]);
      assert s[1..][..|s| - 2] == s[..|s| - 1][1..];
    }
  }

  lemma {:induction false} AscendingAppend(s: seq<int>, x: int)
    requires Ascending(s) && (s != [] ==> s[|s| - 1] <= x)
    ensures Ascending(s + [x])
  {
    if s != [] {
      AscendingAppend(s[1..], x);
      assert (s + [x])[1..] == s[1..] + [x];
    }
  }

  // All batches

  /** A batch without a sample counts as one sample of the minimum price. */
  function Values(cfg: Config, a: Answer): seq<int> {
    if a.Failed? then [] else if a.values == [] then [cfg.minPrice] else a.values
  }

  function Samples(cfg: Config, answers: seq<Answer>): seq<int> {
    if answers == [] then [] else Samples(cfg, answers[..|answers| - 1]) + Values(cfg, answers[|answers| - 1])
  }

  /** The samples of the batches one after the other; a batch without a tip counts as one sample of the minimum price. */
  lemma {:induction false} SamplesAt(cfg: Config, answers: seq<Answer>, i: nat)
    requires i < |answers| && answers[i].Sample?
    ensures
      var values := if answers[i].values == [] then [cfg.minPrice] else answers[i].values;
      Samples(cfg, answers) == Samples(cfg, answers[..i]) + (values + Samples(cfg, answers[i + 1..]))
    ensures Samples(cfg, []) == []
  {
    assert answers == answers[..i] + ([answers[i]] + answers[i + 1..]);
    assert Samples(cfg, [answers[i]]) == Values(cfg, answers[i]) by { assert [answers[i]][..0] == []; }
    SamplesConcat(cfg, answers[..i], [answers[i]] + answers[i + 1..]);
    SamplesConcat(cfg, [answers[i]], answers[i + 1..]);
  }

  /** As goroutines send them. */
  predicate ArePositive(answers: seq<Answer>) {
    forall i, j :: 0 <= i < |answers| && answers[i].Sample? && 0 <= j < |answers[i].values| ==> answers[i].values[j] > 0
  }

  lemma {:induction false} SamplesAreNat(cfg: Config, answers: seq<Answer>, i: nat)
    requires ArePositive(answers) && i < |Samples(cfg, answers)|
    ensures Samples(cfg, answers)[i] >= 0
  {
    var n := |answers| - 1;
    if i < |Samples(cfg, answers[..n])| {
      SamplesAreNat(cfg, answers[..n], i);
    }
  }

  /** Division that truncates toward zero. */
  function Quo(a: int, b: int): int
    requires b > 0
  {
    if a >= 0 then a / b else -((-a) / b)
  }

  function IndexOf(n: int, percentile: int): int {
    Quo((n - 1) * percentile, 100)
  }

  predicate InRange(n: int, percentile: int) {
    0 <= IndexOf(n, percentile) < n
  }

  lemma InRangeIff(n: nat, percentile: int)
    requires n > 0
    ensures InRange(n, percentile) <==> -100 < (n - 1) * percentile < 100 * n
  {
    QuoBounds((n - 1) * percentile, n);
  }

  lemma QuoBounds(m: int, n: nat)
    requires n > 0
    ensures 0 <= Quo(m, 100) < n <==> -100 < m < 100 * n
  {
  }

  lemma TimesIsMonotone(a: nat, b: nat, c: nat)
    requires b <= c
    ensures 0 <= a * b <= a * c
  {
  }

  lemma PercentilesAreInRange(n: nat, percentile: int)
    requires n > 0 && 0 <= percentile <= 100
    ensures InRange(n, percentile)
  {
    TimesIsMonotone(n - 1, percentile, 100);
    InRangeIff(n, percentile);
  }

  /** Percentile 0 is the least sample, percentile 100 the largest, and a higher percentile is no lower price. */
  lemma PercentilesAreOrdered(s: seq<int>, p: int, q: int, x: int, y: int)
    requires s != [] && 0 <= p <= q <= 100
    requires
      && InRange(|s|, p) && HasRank(s, IndexOf(|s|, p), x)
      && InRange(|s|, q) && HasRank(s, IndexOf(|s|, q), y)
    ensures x <= y
    ensures p == 0 ==> forall z <- s :: x <= z
    ensures q == 100 ==> forall z <- s :: z <= y
  {
    TimesIsMonotone(|s| - 1, p, q);
    RanksAreOrdered(s, IndexOf(|s|, p), IndexOf(|s|, q), x, y);
    EndRanks(s, x);
    EndRanks(s, y);
  }

  /** The price chosen from the samples: the last one if there are none, else the one of the percentile's rank. */
  predicate Chosen(cfg: Config, last: int, answers: seq<Answer>, price: int) {
    var s := Samples(cfg, answers);
    if s == [] then price == last
    else InRange(|s|, cfg.percentile) && HasRank(s, IndexOf(|s|, cfg.percentile), price)
  }

  predicate AnyFailed(answers: seq<Answer>) {
    Failed in answers
  }

  /** An index beyond the samples, or a channel of negative capacity. */
  predicate Panics(cfg: Config, answers: seq<Answer>) {
    || cfg.checkBatches < 0
    || (!AnyFailed(answers) && Samples(cfg, answers) != [] && !InRange(|Samples(cfg, answers)|, cfg.percentile))
  }

  function Clamp(cfg: Config, price: int): int {
    var p := if cfg.minPrice > price then cfg.minPrice else price;
    if cfg.maxPrice > 0 && p > cfg.maxPrice then cfg.maxPrice else p
  }

  /** `p` is the price, or the minimum for one below it, or the maximum, if there is one, for anything above it. */
  predicate IsClamped(cfg: Config, price: int, p: int) {
    && (cfg.maxPrice > 0 ==> p <= cfg.maxPrice)
    && (cfg.minPrice <= p || p == cfg.maxPrice > 0)
    && (|| p == price
        || (p == cfg.minPrice && price < cfg.minPrice)
        || (p == cfg.maxPrice > 0 && (cfg.maxPrice < price || cfg.maxPrice < cfg.minPrice)))
  }

  /** Exactly one price is meant. */
  lemma ClampedIff(cfg: Config, price: int, p: int)
    ensures IsClamped(cfg, price, p) <==> p == Clamp(cfg, price)
  {
  }

  predicate Readable(env: Environment) {
    env.readyTxs.Some? && env.lastBlockTxs.Some? && env.rawPrice.Some?
  }

  function Asked(cfg: Config, last: nat): nat {
    if cfg.checkBatches < 0 then 0 else if cfg.checkBatches <= last then cfg.checkBatches else last
  }

  class Manager {
    var lastL2BatchNumber: nat
    var lastPrice: nat

    /** `answers` are the goroutines' results in the order in which they come in. */
    method CalcDynamicGP(cfg: Config, env: Environment, answers: seq<Answer>) returns (outcome: Outcome)
      requires |answers| == Asked(cfg, lastL2BatchNumber) && ArePositive(answers)
      modifies this
      ensures !outcome.Updated? ==> lastL2BatchNumber == old(lastL2BatchNumber) && lastPrice == old(lastPrice)
      ensures outcome.Panicked? <==> env.lastBatch.Some? && env.lastBatch.value != old(lastL2BatchNumber) && Panics(cfg, answers)
      ensures outcome.Updated? <==>
        && env.lastBatch.Some? && env.lastBatch.value != old(lastL2BatchNumber)
        && !AnyFailed(answers) && !Panics(cfg, answers) && Readable(env)
      ensures outcome.Updated? ==> lastL2BatchNumber == env.lastBatch.value
      // the chosen price within the bounds when the pool is congested and the last block is not empty, else its mean
      // with the raw price, rounded down
      ensures outcome.Updated? ==> exists price, p ::
        && Chosen(cfg, old(lastPrice), answers, price) && IsClamped(cfg, price, p)
        && (env.readyTxs.value >= cfg.congestionTxThreshold && env.lastBlockTxs.value > 0 ==> lastPrice == p)
        && (env.readyTxs.value < cfg.congestionTxThreshold || env.lastBlockTxs.value == 0 ==>
              env.rawPrice.value + p - 1 <= 2 * lastPrice <= env.rawPrice.value + p)
    {
      if env.lastBatch.None? || env.lastBatch.value == lastL2BatchNumber {
        return Unchanged;
      }
      if cfg.checkBatches < 0 {
        return Panicked;
      }
      var sent, number := 0, lastL2BatchNumber;
      while sent < cfg.checkBatches && number > 0
        invariant sent + number == lastL2BatchNumber && sent <= cfg.checkBatches
      {
        sent, number := sent + 1, number - 1;
      }
      var results := Gather(cfg, answers, sent);
      if results.None? {
        return Unchanged;
      }
      var selected := Select(cfg, lastPrice, answers, results.value);
      if selected.None? {
        return Panicked;
      }
      var price := selected.value;
      ghost var chosen := price;
      if cfg.minPrice > price {
        price := cfg.minPrice;
      }
      if cfg.maxPrice > 0 && price > cfg.maxPrice {
        price := cfg.maxPrice;
      }
      ghost var clamped := price;
      if !Readable(env) {
        return Unchanged;
      }
      if env.readyTxs.value < cfg.congestionTxThreshold || env.lastBlockTxs.value == 0 {
        price := Quo(env.rawPrice.value + price, 2);
      }
      ClampedIff(cfg, chosen, clamped);
      lastPrice, lastL2BatchNumber := price, env.lastBatch.value;
      return Updated;
    }

    /** The sample at the percentile, or the last price when there is none; None is an index out of range. */
    static method Select(cfg: Config, last: nat, ghost answers: seq<Answer>, results: seq<int>) returns (price: Option<nat>)
      requires results == Samples(cfg, answers) && ArePositive(answers)
      ensures price.None? <==> results != [] && !InRange(|results|, cfg.percentile)
      ensures price.Some? ==> Chosen(cfg, last, answers, price.value)
    {
      if |results| == 0 {
        return Some(last);
      }
      var sorted := Sort(results);
      var k := IndexOf(|results|, cfg.percentile);
      if !(0 <= k < |sorted|) {
        return None;
      }
      SortedHasRank(results, k);
      RankIsNat(cfg, answers, k, sorted[k]);
      return Some(sorted[k]);
    }

    /** The receiving loop: the first error ends it. */
    static method Gather(cfg: Config, answers: seq<Answer>, exp: nat) returns (results: Option<seq<int>>)
      requires exp == |answers|
      ensures results.None? <==> AnyFailed(answers)
      ensures results.Some? ==> results.value == Samples(cfg, answers)
    {
      var found: seq<int> := [];
      for i := 0 to exp
        invariant found == Samples(cfg, answers[..i])
        invariant Failed !in answers[..i]
      {
        assert answers[..i + 1][..i] == answers[..i];
        if answers[i].Failed? {
          return None;
        }
        var values := answers[i].values;
        if |values| == 0 {
          values := [cfg.minPrice];
        }
        found := found + values;
      }
      assert answers[..exp] == answers;
      return Some(found);
    }
  }

  lemma RankIsNat(cfg: Config, answers: seq<Answer>, k: nat, x: int)
    requires ArePositive(answers) && HasRank(Samples(cfg, answers), k, x)
    ensures x >= 0
  {
    var i :| 0 <= i < |Samples(cfg, answers)| && Samples(cfg, answers)[i] == x;
    SamplesAreNat(cfg, answers, i);
  }

  // The order in which results come in

  lemma {:induction false} SamplesConcat(cfg: Config, a: seq<Answer>, b: seq<Answer>)
    ensures Samples(cfg, a + b) == Samples(cfg, a) + Samples(cfg, b)
  {
    if b == [] {
      assert a + b == a;
    } else {
      assert (a + b)[..|a + b| - 1] == a + b[..|b| - 1];
      SamplesConcat(cfg, a, b[..|b| - 1]);
    }
  }

  lemma SamplesWithout(cfg: Config, a: seq<Answer>, i: nat, x: int)
    requires i < |a|
    ensures var t, v := Without(a, i), Values(cfg, a[i]);
      && |Samples(cfg, a)| == |Samples(cfg, t)| + |v|
      && Below(Samples(cfg, a), x) == Below(Samples(cfg, t), x) + Below(v, x)
      && UpTo(Samples(cfg, a), x) == UpTo(Samples(cfg, t), x) + UpTo(v, x)
  {
    var l, r, v := Samples(cfg, a[..i]), Samples(cfg, a[i + 1..]), Values(cfg, a[i]);
    assert a == a[..i] + ([a[i]] + a[i + 1..]);
    assert Samples(cfg, [a[i]]) == v by { assert [a[i]][..0] == []; }
    SamplesConcat(cfg, a[..i], [a[i]] + a[i + 1..]);
    SamplesConcat(cfg, [a[i]], a[i + 1..]);
    SamplesConcat(cfg, a[..i], a[i + 1..]);
    BelowConcat(l, v + r, x);
    BelowConcat(v, r, x);
    BelowConcat(l, r, x);
  }

  function Without(a: seq<Answer>, i: nat): seq<Answer>
    requires i < |a|
  {
    a[..i] + a[i + 1..]
  }

  lemma WithoutSame(a: seq<Answer>, i: nat, b: seq<Answer>, j: nat)
    requires i < |a| && j < |b| && a[i] == b[j] && multiset(a) == multiset(b)
    ensures multiset(Without(a, i)) == multiset(Without(b, j))
  {
    assert a == a[..i] + ([a[i]] + a[i + 1..]);
    assert b == b[..j] + ([b[j]] + b[j + 1..]);
    assert multiset(Without(a, i)) == multiset(a) - multiset{a[i]};
    assert multiset(Without(b, j)) == multiset(b) - multiset{b[j]};
  }

  predicate SameCounts(s: seq<int>, t: seq<int>, x: int) {
    |s| == |t| && Below(s, x) == Below(t, x) && UpTo(s, x) == UpTo(t, x)
  }

  lemma SameCountsStep(cfg: Config, a: seq<Answer>, i: nat, b: seq<Answer>, j: nat, x: int)
    requires i < |a| && j < |b| && a[i] == b[j]
    requires SameCounts(Samples(cfg, Without(a, i)), Samples(cfg, Without(b, j)), x)
    ensures SameCounts(Samples(cfg, a), Samples(cfg, b), x)
  {
    SamplesWithout(cfg, a, i, x);
    SamplesWithout(cfg, b, j, x);
  }

  lemma {:induction false} SamplesPermute(cfg: Config, a: seq<Answer>, b: seq<Answer>, x: int)
    requires multiset(a) == multiset(b)
    ensures SameCounts(Samples(cfg, a), Samples(cfg, b), x)
    decreases |a|
  {
    if a == [] {
      assert |multiset(b)| == 0;
    } else {
      var j := Find(b, a[0]);
      WithoutSame(a, 0, b, j);
      SamplesPermute(cfg, Without(a, 0), Without(b, j), x);
      SameCountsStep(cfg, a, 0, b, j, x);
    }
  }

  /** In whatever order the results come in, there is an error or not, a panic or not, and one price to choose. */
  lemma ScheduleDoesNotMatter(cfg: Config, last: int, a: seq<Answer>, b: seq<Answer>, x: int, y: int)
    requires multiset(a) == multiset(b)
    ensures AnyFailed(a) <==> AnyFailed(b)
    ensures Panics(cfg, a) <==> Panics(cfg, b)
    ensures Chosen(cfg, last, a, x) && Chosen(cfg, last, b, y) ==> x == y
  {
    SamplesPermute(cfg, a, b, x);
    SamplesPermute(cfg, a, b, y);
    assert AnyFailed(a) <==> Failed in multiset(a);
    assert AnyFailed(b) <==> Failed in multiset(b);
    var s := Samples(cfg, a);
    if s != [] && Chosen(cfg, last, a, x) && Chosen(cfg, last, b, y) {
      RankIsUnique(s, IndexOf(|s|, cfg.percentile), x, y);
    }
  }

  /** A price settled away from congestion lies between the raw and the clamped one, and is settled by these two alone. */
  lemma SettledIsBetween(raw: nat, p: nat, x: nat, y: nat)
    requires raw + p - 1 <= 2 * x <= raw + p && raw + p - 1 <= 2 * y <= raw + p
    ensures x == y && (raw <= x <= p || p <= x <= raw)
  {
  }
}
