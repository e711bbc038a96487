/** The coin prices of the gas pricers (gasprice/kafka_proc_xlayer.go:178-266). */
module CoinPrices {
  import opened Wrappers

  datatype PricerType = Fixed | Follower | Other

  datatype Price = Price(coinId: int, price: real)

  /** A message as decoded: None does not decode, otherwise its price list. */
  type Message = Option<seq<Price>>

  /** The price of a coin in a message: the last entry counts. */
  function LastPrice(list: seq<Price>, coin: int): Option<real> {
    if list == [] then None
    else if list[|list| - 1].coinId == coin then Some(list[|list| - 1].price)
    else LastPrice(list[..|list| - 1], coin)
  }

  /** The price at `i`, and no later entry is of the coin. */
  predicate LastAt(list: seq<Price>, coin: int, price: real, i: nat) {
    i < |list| && list[i] == Price(coin, price) && forall j :: i < j < |list| ==> list[j].coinId != coin
  }

  lemma {:induction false} LastPriceIff(list: seq<Price>, coin: int, price: real)
    ensures LastPrice(list, coin) == Some(price) <==> exists i :: LastAt(list, coin, price, i)
  {
    if list != [] {
      var n := |list| - 1;
      LastPriceIff(list[..n], coin, price);
      if list[n].coinId == coin {
        assert list[n].price == price ==> LastAt(list, coin, price, n);
      } else if i :| LastAt(list[..n], coin, price, i) {
        assert LastAt(list, coin, price, i);
      } else if i :| LastAt(list, coin, price, i) {
        assert LastAt(list[..n], coin, price, i);
      }
    }
  }

  function PriceIn(m: Message, coin: int): Option<real> {
    if m.None? then None else LastPrice(m.value, coin)
  }

  // What a history of messages means to the follower

  /** The L1 and L2 prices of one message. */
  datatype Tick = Tick(l1: Option<real>, l2: Option<real>)

  datatype Coin = L1 | L2

  function Of(t: Tick, c: Coin): Option<real> {
    if c.L1? then t.l1 else t.l2
  }

  /** The latest price of a coin in a run of messages. */
  function Latest(ts: seq<Tick>, c: Coin): Option<real> {
    if ts == [] then None
    else if Of(ts[|ts| - 1], c).Some? then Of(ts[|ts| - 1], c)
    else Latest(ts[..|ts| - 1], c)
  }

  /** The message at `i` has this price, and no later one has any. */
  predicate LatestAt(ts: seq<Tick>, c: Coin, price: real, i: nat) {
    i < |ts| && Of(ts[i], c) == Some(price) && forall j :: i < j < |ts| ==> Of(ts[j], c).None?
  }

  lemma {:induction false} LatestIff(ts: seq<Tick>, c: Coin, price: real)
    ensures Latest(ts, c) == Some(price) <==> exists i :: LatestAt(ts, c, price, i)
  {
    if ts != [] {
      var n := |ts| - 1;
      LatestIff(ts[..n], c, price);
      if Of(ts[n], c).Some? {
        assert Of(ts[n], c) == Some(price) ==> LatestAt(ts, c, price, n);
      } else if i :| LatestAt(ts[..n], c, price, i) {
        assert LatestAt(ts, c, price, i);
      } else if i :| LatestAt(ts, c, price, i) {
        assert LatestAt(ts[..n], c, price, i);
      }
    }
  }

  predicate HasBoth(ts: seq<Tick>) {
    Latest(ts, L1).Some? && Latest(ts, L2).Some?
  }

  /** The messages since the last publication: a publication ends the first run that has both prices. */
  function Pending(ts: seq<Tick>): (p: seq<Tick>)
    ensures |p| <= |ts| && p == ts[|ts| - |p|..]
    ensures !HasBoth(p)
  {
    if ts == [] then []
    else
      var q := Pending(ts[..|ts| - 1]);
      var p := q + [ts[|ts| - 1]];
      assert p == ts[|ts| - 1 - |q|..];
      if HasBoth(p) then [] else p
  }

  /** The pair of the run that ended last. */
  function Published(ts: seq<Tick>, defaults: (real, real)): (real, real) {
    if ts == [] then defaults
    else
      var p := Pending(ts[..|ts| - 1]) + [ts[|ts| - 1]];
      if HasBoth(p) then (Latest(p, L1).value, Latest(p, L2).value)
      else Published(ts[..|ts| - 1], defaults)
  }

  function Newer(price: Option<real>, held: Option<real>): Option<real> {
    if price.Some? then price else held
  }

  /** What is kept after a message: the prices held back and the published pair. */
  datatype Kept = Kept(l1: Option<real>, l2: Option<real>, pair: (real, real))

  function Next(k: Kept, t: Tick): Kept {
    var a, b := Newer(t.l1, k.l1), Newer(t.l2, k.l2);
    if a.Some? && b.Some? then Kept(None, None, (a.value, b.value)) else Kept(a, b, k.pair)
  }

  function After(ts: seq<Tick>, defaults: (real, real)): Kept {
    if ts == [] then Kept(None, None, defaults) else Next(After(ts[..|ts| - 1], defaults), ts[|ts| - 1])
  }

  lemma AfterNext(ts: seq<Tick>, t: Tick, defaults: (real, real))
    ensures After(ts + [t], defaults) == Next(After(ts, defaults), t)
  {
    assert (ts + [t])[..|ts|] == ts;
  }

  lemma LatestOfNext(p: seq<Tick>, t: Tick, c: Coin)
    ensures Latest(p + [t], c) == Newer(Of(t, c), Latest(p, c))
  {
    assert (p + [t])[..|p|] == p;
  }

  /** Keeping two optional prices and a pair is enough to know the whole history's pending run and publication. */
  lemma {:induction false} KeptIsPendingAndPublished(ts: seq<Tick>, defaults: (real, real))
    ensures After(ts, defaults) == Kept(Latest(Pending(ts), L1), Latest(Pending(ts), L2), Published(ts, defaults))
  {
    if ts != [] {
      var n := |ts| - 1;
      KeptIsPendingAndPublished(ts[..n], defaults);
      LatestOfNext(Pending(ts[..n]), ts[n], L1);
      LatestOfNext(Pending(ts[..n]), ts[n], L2);
    }
  }

  class Processor {
    const pricer: PricerType
    const l1CoinId: int
    const l2CoinId: int
    var l1Price: real
    var l2Price: real
    var tmpL1: real
    var tmpL2: real
    var l1Update: bool
    var l2Update: bool
    /** The prices in the messages so far, and the configured ones before them. */
    ghost var history: seq<Tick>
    ghost const defaults: (real, real)

    constructor (pricer: PricerType, l1CoinId: int, l2CoinId: int, l1Default: real, l2Default: real)
      ensures this.pricer == pricer && this.l1CoinId == l1CoinId && this.l2CoinId == l2CoinId
      ensures history == [] && defaults == (l1Default, l2Default) == (l1Price, l2Price) && Valid()
    {
      this.pricer, this.l1CoinId, this.l2CoinId := pricer, l1CoinId, l2CoinId;
      l1Price, l2Price := l1Default, l2Default;
      l1Update, l2Update, history := false, false, [];
      defaults := (l1Default, l2Default);
    }

    ghost function TickOf(m: Message): Tick {
      Tick(PriceIn(m, l1CoinId), PriceIn(m, l2CoinId))
    }

    /** What the follower publishes and what it holds back are what its history defines. */
    ghost predicate Valid()
      reads this
    {
      pricer.Follower? ==>
        After(history, defaults)
        == Kept(if l1Update then Some(tmpL1) else None, if l2Update then Some(tmpL2) else None, (l1Price, l2Price))
    }

    /** The prices asked for that the message has; None is an error. */
    method ParseCoinPrice(m: Message, coins: seq<int>) returns (prices: Option<map<int, real>>)
      ensures prices.Some? <==> exists c <- coins :: PriceIn(m, c).Some?
      ensures prices.Some? ==> forall c <- coins ::
        PriceIn(m, c) == (if c in prices.value then Some(prices.value[c]) else None)
    {
      if m.None? {
        return None;
      }
      var mp: map<int, real> := map[];
      for i := 0 to |m.value|
        invariant forall c :: LastPrice(m.value[..i], c) == (if c in mp then Some(mp[c]) else None)
      {
        assert m.value[..i + 1][..i] == m.value[..i];
        mp := mp[m.value[i].coinId := m.value[i].price];
      }
      assert m.value[..|m.value|] == m.value;
      var results: map<int, real> := map[];
      ghost var found: Option<int> := None;
      for i := 0 to |coins|
        invariant forall c :: c in results <==> c in coins[..i] && c in mp
        invariant forall c :: c in results ==> results[c] == mp[c]
        invariant if found.None? then results == map[] else found.value in results && found.value in coins
      {
        assert coins[..i + 1] == coins[..i] + [coins[i]];
        if coins[i] in mp {
          results := results[coins[i] := mp[coins[i]]];
          found := Some(coins[i]);
        }
      }
      assert coins[..|coins|] == coins;
      assert found.Some? ==> found.value in coins && PriceIn(m, found.value).Some?;
      return if |results| == 0 then None else Some(results);
    }

    method Update(m: Message) returns (ok: bool)
      requires Valid()
      modifies this
      ensures Valid()
      ensures pricer.Follower? ==> history == old(history) + [TickOf(m)]
      ensures pricer.Follower? ==> ok == (TickOf(m) != Tick(None, None))
      ensures pricer.Fixed? ==>
        && ok == PriceIn(m, l2CoinId).Some? && l1Price == old(l1Price)
        && l2Price == if ok then PriceIn(m, l2CoinId).value else old(l2Price)
      ensures pricer.Other? ==> ok && l1Price == old(l1Price) && l2Price == old(l2Price)
    {
      if pricer.Fixed? {
        var prices := ParseCoinPrice(m, [l2CoinId]);
        if prices.Some? {
          assert l2CoinId in [l2CoinId];
          l2Price := prices.value[l2CoinId];
        }
        return prices.Some?;
      } else if pricer.Follower? {
        var prices := ParseCoinPrice(m, [l1CoinId, l2CoinId]);
        assert l1CoinId in [l1CoinId, l2CoinId] && l2CoinId in [l1CoinId, l2CoinId];
        UpdateL1L2CoinPrice(if prices.Some? then prices.value else map[], TickOf(m));
        return prices.Some?;
      }
      return true;
    }

    /** Not called for a message without prices; for the empty map it changes nothing either. */
    method UpdateL1L2CoinPrice(prices: map<int, real>, ghost t: Tick)
      requires Valid() && pricer.Follower?
      requires t.l1 == if l1CoinId in prices then Some(prices[l1CoinId]) else None
      requires t.l2 == if l2CoinId in prices then Some(prices[l2CoinId]) else None
      modifies this
      ensures Valid() && history == old(history) + [t]
    {
      AfterNext(history, t, defaults);
      ghost var kept := After(history, defaults);
      history := history + [t];
      assert After(history, defaults) == Next(kept, t);
      if |prices| == 0 {
        return;
      }
      if l1CoinId in prices {
        tmpL1, l1Update := prices[l1CoinId], true;
      }
      if l2CoinId in prices {
        tmpL2, l2Update := prices[l2CoinId], true;
      }
      if l1Update && l2Update {
        l1Price, l2Price := tmpL1, tmpL2;
        l1Update, l2Update := false, false;
      }
    }
  }

  // Pairs

  /** A run that has both prices while without its last message it does not. */
  predicate Segment(ts: seq<Tick>) {
    ts != [] && HasBoth(ts) && !HasBoth(ts[..|ts| - 1])
  }

  /** Then no shorter run from its start has both. */
  lemma NoProperPrefixHasBoth(ts: seq<Tick>, n: nat)
    requires Segment(ts) && n < |ts|
    ensures !HasBoth(ts[..n])
  {
    LongerHasMore(ts[..|ts| - 1], n, L1);
    LongerHasMore(ts[..|ts| - 1], n, L2);
    assert ts[..|ts| - 1][..n] == ts[..n];
  }

  lemma {:induction false} LongerHasMore(ts: seq<Tick>, n: nat, c: Coin)
    requires n <= |ts|
    ensures Latest(ts[..n], c).Some? ==> Latest(ts, c).Some?
    decreases |ts|
  {
    if n == |ts| {
      assert ts[..n] == ts;
    } else {
      LongerHasMore(ts[..|ts| - 1], n, c);
      assert ts[..|ts| - 1][..n] == ts[..n];
    }
  }

  ghost predicate PairOf(pair: (real, real), ts: seq<Tick>, i: nat, j: nat) {
    i < j <= |ts| && Segment(ts[i..j]) && pair == (Latest(ts[i..j], L1).value, Latest(ts[i..j], L2).value)
  }

  /** Over any history the published pair is the configured one or the last L1 and the last L2 price of a segment. */
  lemma PublishedIsPaired(ts: seq<Tick>, defaults: (real, real))
    ensures Published(ts, defaults) == defaults || exists i, j :: PairOf(Published(ts, defaults), ts, i, j)
  {
    var i, j := FindPair(ts, defaults);
  }

  lemma {:induction false} FindPair(ts: seq<Tick>, defaults: (real, real)) returns (i: nat, j: nat)
    ensures Published(ts, defaults) == defaults || PairOf(Published(ts, defaults), ts, i, j)
  {
    i, j := 0, 0;
    if ts != [] {
      var n := |ts| - 1;
      var q := Pending(ts[..n]);
      if HasBoth(q + [ts[n]]) {
        i, j := n - |q|, n + 1;
        EndsSegment(ts, defaults);
      } else {
        i, j := FindPair(ts[..n], defaults);
        assert j <= n && i < j ==> ts[..n][i..j] == ts[i..j];
      }
    }
  }

  lemma EndsSegment(ts: seq<Tick>, defaults: (real, real))
    requires ts != [] && HasBoth(Pending(ts[..|ts| - 1]) + [ts[|ts| - 1]])
    ensures PairOf(Published(ts, defaults), ts, |ts| - 1 - |Pending(ts[..|ts| - 1])|, |ts|)
  {
    var n := |ts| - 1;
    var q := Pending(ts[..n]);
    var p := q + [ts[n]];
    assert p[..|q|] == q;
    assert ts[n - |q|..n + 1] == p;
  }

  // Every segment is published

  /** Segments one after the other. */
  datatype Segments = Nothing | Then(before: Segments, segment: seq<Tick>)

  function Flatten(c: Segments): seq<Tick> {
    if c.Nothing? then [] else Flatten(c.before) + c.segment
  }

  predicate AreSegments(c: Segments) {
    c.Then? ==> Segment(c.segment) && AreSegments(c.before)
  }

  /** One more message: it ends the run held back, or is held back with it. */
  lemma {:induction false} OneMore(ts: seq<Tick>, t: Tick, defaults: (real, real))
    ensures
      var q := Pending(ts) + [t];
      && Pending(ts + [t]) == (if HasBoth(q) then [] else q)
      && Published(ts + [t], defaults)
         == (if HasBoth(q) then (Latest(q, L1).value, Latest(q, L2).value) else Published(ts, defaults))
  {
    assert (ts + [t])[..|ts + [t]| - 1] == ts;
  }

  lemma {:induction false} RunGrows(h: seq<Tick>, p: seq<Tick>, t: Tick, q: seq<Tick>, defaults: (real, real))
    requires Pending(h + p) == p && q == p + [t]
    ensures Pending(h + q) == if HasBoth(q) then [] else q
    ensures Published(h + q, defaults)
      == if HasBoth(q) then (Latest(q, L1).value, Latest(q, L2).value) else Published(h + p, defaults)
  {
    OneMore(h + p, t, defaults);
    assert h + q == h + p + [t];
  }

  /** The messages of a run that has not both prices are held back. */
  lemma {:induction false} RestIsHeldBack(h: seq<Tick>, rest: seq<Tick>, defaults: (real, real))
    requires Pending(h) == [] && !HasBoth(rest)
    ensures Pending(h + rest) == rest && Published(h + rest, defaults) == Published(h, defaults)
    decreases |rest|
  {
    if rest == [] {
      assert h + rest == h;
    } else {
      var n := |rest| - 1;
      LongerHasMore(rest, n, L1);
      LongerHasMore(rest, n, L2);
      RestIsHeldBack(h, rest[..n], defaults);
      RunGrows(h, rest[..n], rest[n], rest, defaults);
    }
  }

  /** The message that completes a segment publishes the last L1 and the last L2 price of that segment. */
  lemma {:induction false} SegmentIsPublished(h: seq<Tick>, p: seq<Tick>, t: Tick, segment: seq<Tick>, defaults: (real, real))
    requires Pending(h) == [] && segment == p + [t] && !HasBoth(p) && HasBoth(segment)
    ensures Pending(h + segment) == []
    ensures Published(h + segment, defaults) == (Latest(segment, L1).value, Latest(segment, L2).value)
  {
    RestIsHeldBack(h, p, defaults);
    RunGrows(h, p, t, segment, defaults);
  }

  /** A history of segments and a rest without both prices leaves the pair of the last segment, and holds back the rest. */
  lemma {:induction false} LastSegmentIsPublished(c: Segments, rest: seq<Tick>, defaults: (real, real))
    requires AreSegments(c) && !HasBoth(rest)
    ensures Pending(Flatten(c) + rest) == rest
    ensures Published(Flatten(c) + rest, defaults)
      == if c.Nothing? then defaults else (Latest(c.segment, L1).value, Latest(c.segment, L2).value)
  {
    SegmentsArePublished(c, defaults);
    RestIsHeldBack(Flatten(c), rest, defaults);
  }

  lemma {:induction false} SegmentsArePublished(c: Segments, defaults: (real, real))
    requires AreSegments(c)
    ensures Pending(Flatten(c)) == []
    ensures Published(Flatten(c), defaults)
      == if c.Nothing? then defaults else (Latest(c.segment, L1).value, Latest(c.segment, L2).value)
  {
    if c.Then? {
      SegmentsArePublished(c.before, defaults);
      var n := |c.segment| - 1;
      SegmentIsPublished(Flatten(c.before), c.segment[..n], c.segment[n], c.segment, defaults);
    }
  }

  /** Every history is made of segments and such a rest. */
  lemma {:induction false} HistoryHasSegments(ts: seq<Tick>) returns (c: Segments, rest: seq<Tick>)
    ensures ts == Flatten(c) + rest && AreSegments(c) && !HasBoth(rest)
  {
    c, rest := Nothing, [];
    if ts != [] {
      var n := |ts| - 1;
      c, rest := HistoryHasSegments(ts[..n]);
      var p := rest + [ts[n]];
      assert ts == Flatten(c) + p && p[..|rest|] == rest;
      if HasBoth(p) {
        c, rest := Then(c, p), [];
        assert ts == Flatten(c) + rest;
      } else {
        rest := p;
      }
    }
  }
}
