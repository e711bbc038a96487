/**
 The last steps of UpdateGasPriceAvg for the follower and the fixed gas pricer (gasprice/follower.go:68-94,
 gasprice/fixed_xlayer.go:61-88): clamp, then keep three decimal digits by cutting the decimal string.
 */
module PublishedPrice {
  import opened Decimal
  import opened Wrappers

  datatype Config = Config(defaultGasPriceWei: Uint64, maxGasPriceWei: Uint64)

  function Zeros(n: nat): string {
    if n == 0 then "" else Zeros(n - 1) + "0"
  }

  lemma {:induction false} ZerosAreDigits(n: nat)
    ensures AllDigits(Zeros(n)) && |Zeros(n)| == n
  {
    if n > 0 {
      ZerosAreDigits(n - 1);
    }
  }

  lemma CutIsDigits(n: nat)
    ensures |Itoa(n)| > 3 ==> AllDigits(Itoa(n)[..3] + Zeros(|Itoa(n)| - 3))
  {
    ValueOfItoa(n);
    if |Itoa(n)| > 3 {
      ZerosAreDigits(|Itoa(n)| - 3);
      assert forall c <- Itoa(n)[..3] :: c in Itoa(n);
    }
  }

  function Truncate(n: nat): nat {
    var s := Itoa(n);
    CutIsDigits(n);
    if |s| > 3 then Value(s[..3] + Zeros(|s| - 3)) else n
  }

  function Clamp(cfg: Config, price: nat): nat {
    var p := if cfg.defaultGasPriceWei > price then cfg.defaultGasPriceWei else price;
    if cfg.maxGasPriceWei > 0 && p > cfg.maxGasPriceWei then cfg.maxGasPriceWei else p
  }

  // What cutting the string does to the number

  lemma {:induction false} Digits(n: nat)
    ensures |Itoa(n)| > 3 <==> n >= 1000
  {
    if n >= 10 {
      assert |Itoa(n)| == |Itoa(n / 10)| + 1;
      if n >= 100 {
        assert |Itoa(n / 10)| == |Itoa(n / 10 / 10)| + 1;
        if n >= 1000 {
          assert |Itoa(n / 10 / 10)| == |Itoa(n / 10 / 10 / 10)| + 1;
          ValueOfItoa(n / 10 / 10 / 10);
        }
      }
    }
  }

  lemma ValueOfAppendedZero(s: string)
    requires AllDigits(s)
    ensures AllDigits(s + "0") && Value(s + "0") == 10 * Value(s)
  {
    assert (s + "0")[..|s|] == s;
  }

  /** A digit beyond the third becomes a zero. */
  lemma TruncateStep(n: nat)
    requires n >= 1000
    ensures Truncate(n) == 10 * Truncate(n / 10)
  {
    Digits(n);
    Digits(n / 10);
    var s, t := Itoa(n), Itoa(n / 10);
    assert s[..3] == t[..3];
    CutIsDigits(n / 10);
    ValueOfItoa(n / 10);
    if n < 10000 {
      assert t == t[..3];
      assert Zeros(1) == "0";
      ValueOfAppendedZero(t);
    } else {
      var cut := t[..3] + Zeros(|t| - 3);
      assert s[..3] + Zeros(|s| - 3) == cut + "0";
      ValueOfAppendedZero(cut);
    }
  }

  lemma TruncateSmall(n: nat)
    requires n < 1000
    ensures Truncate(n) == n
  {
    Digits(n);
  }

  /** The unit of the third digit. */
  function Unit(n: nat): nat {
    if n < 1000 then 1 else 10 * Unit(n / 10)
  }

  /** What is cut off is less than one unit of the third digit, which is at most 1% of the number. */
  lemma {:induction false} TruncateLoses(n: nat)
    ensures Truncate(n) <= n < Truncate(n) + Unit(n)
    ensures n >= 100 ==> 100 * Unit(n) <= n && Truncate(n) >= 100
  {
    if n < 1000 {
      TruncateSmall(n);
    } else {
      TruncateStep(n);
      TruncateLoses(n / 10);
    }
  }

  lemma LosesLessThanOnePercent(n: nat)
    ensures Truncate(n) <= n
    ensures n > 0 ==> 100 * (n - Truncate(n)) < n
  {
    TruncateLoses(n);
    if n < 1000 {
      TruncateSmall(n);
    }
  }

  lemma {:induction false} TruncateIsMonotone(m: nat, n: nat)
    requires m <= n
    ensures Truncate(m) <= Truncate(n)
  {
    if n < 1000 {
      TruncateSmall(m);
      TruncateSmall(n);
    } else {
      TruncateStep(n);
      if m < 1000 {
        TruncateSmall(m);
        TruncateLoses(n / 10);
      } else {
        TruncateStep(m);
        TruncateIsMonotone(m / 10, n / 10);
      }
    }
  }

  lemma TruncateTenfold(n: nat)
    requires n >= 100
    ensures Truncate(10 * n) == 10 * Truncate(n)
  {
    assert 10 * n / 10 == n;
    TruncateStep(10 * n);
  }

  lemma {:induction false} TruncateIsIdempotent(n: nat)
    ensures Truncate(Truncate(n)) == Truncate(n)
  {
    if n < 1000 {
      TruncateSmall(n);
    } else {
      TruncateStep(n);
      TruncateIsIdempotent(n / 10);
      TruncateLoses(n / 10);
      TruncateTenfold(Truncate(n / 10));
    }
  }

  // Three significant digits

  lemma {:induction false} ShiftedIsKept(n: nat, d: nat, k: nat)
    requires Shifted(n, d, k)
    ensures Truncate(n) == n
    decreases k
  {
    if n < 1000 {
      TruncateSmall(n);
    } else {
      assert n == 10 * (d * Pow10(k - 1));
      TruncateStep(n);
      ShiftedIsKept(n / 10, d, k - 1);
    }
  }

  lemma {:induction false} KeptIsShifted(n: nat) returns (d: nat, k: nat)
    requires Truncate(n) == n
    ensures Shifted(n, d, k)
  {
    if n < 1000 {
      d, k := n, 0;
    } else {
      TruncateStep(n);
      d, k := KeptIsShifted(n / 10);
      k := k + 1;
      assert n == 10 * (n / 10);
    }
  }

  /** Truncation keeps exactly the numbers with at most three significant digits. */
  lemma KeptIffThreeDigits(n: nat)
    ensures Truncate(n) == n <==> ThreeDigits(n)
  {
    if Truncate(n) == n {
      var d, k := KeptIsShifted(n);
    }
    if ThreeDigits(n) {
      var d: nat, k: nat :| Shifted(n, d, k);
      ShiftedIsKept(n, d, k);
    }
  }

  /** And takes any other number to the nearest of them below. */
  lemma TruncateIsFloor(n: nat)
    ensures IsFloor(n, Truncate(n))
  {
    TruncateLoses(n);
    TruncateIsIdempotent(n);
    KeptIffThreeDigits(Truncate(n));
    forall m: nat | ThreeDigits(m) && m <= n
      ensures m <= Truncate(n)
    {
      KeptIffThreeDigits(m);
      TruncateIsMonotone(m, n);
    }
  }

  // The stored price

  /** What the pool gets. */
  function Published(cfg: Config, price: nat): nat {
    Truncate(Clamp(cfg, price)) % TWO_64
  }

  /** The part of UpdateGasPriceAvg from the computed price to the one stored in the pool. */
  method Publish(cfg: Config, price: nat) returns (stored: nat)
    ensures stored == Published(cfg, price)
    // the largest number of three significant digits that is not above the clamped price, as far as 64 bits hold it
    ensures exists c: nat, t: nat :: IsClamped(cfg, price, c) && IsFloor(c, t) && stored == t % TWO_64
  {
    var result := price;
    if cfg.defaultGasPriceWei > result {
      result := cfg.defaultGasPriceWei;
    }
    if cfg.maxGasPriceWei > 0 && result > cfg.maxGasPriceWei {
      result := cfg.maxGasPriceWei;
    }
    assert IsClamped(cfg, price, result);
    var s := Itoa(result);
    CutIsDigits(result);
    var truncated := result;
    if |s| > 3 {
      truncated := Value(s[..3] + Zeros(|s| - 3));
    }
    TruncateIsFloor(result);
    stored := truncated % TWO_64;
  }

  /** Within the configured bounds, the maximum first, and as close to the price as they allow. */
  predicate IsClamped(cfg: Config, price: nat, c: nat) {
    && (c < price || c < cfg.defaultGasPriceWei ==> c == cfg.maxGasPriceWei > 0)
    && (c > price ==> c <= cfg.defaultGasPriceWei)
    && (cfg.maxGasPriceWei > 0 ==> c <= cfg.maxGasPriceWei)
  }

  function Pow10(k: nat): nat {
    if k == 0 then 1 else 10 * Pow10(k - 1)
  }

  /** At most three significant decimal digits. */
  ghost predicate ThreeDigits(n: nat) {
    exists d, k :: Shifted(n, d, k)
  }

  predicate Shifted(n: nat, d: nat, k: nat) {
    d < 1000 && n == d * Pow10(k)
  }

  ghost predicate IsFloor(n: nat, t: nat) {
    && ThreeDigits(t) && t <= n
    && (forall m: nat :: ThreeDigits(m) && m <= n ==> m <= t)
  }

  /** With a maximum the stored price never exceeds it. */
  lemma PublishedIsCapped(cfg: Config, price: nat)
    requires cfg.maxGasPriceWei > 0
    ensures Published(cfg, price) == Truncate(Clamp(cfg, price)) <= cfg.maxGasPriceWei
  {
    TruncateLoses(Clamp(cfg, price));
  }

  lemma {:induction false} PowersAdd(a: nat, b: nat)
    ensures Pow10(a + b) == Pow10(a) * Pow10(b)
  {
    if a > 0 {
      PowersAdd(a - 1, b);
    }
  }

  lemma TenTo64IsStoredAsZero()
    ensures Pow10(64) >= TWO_64 && Pow10(64) % TWO_64 == 0
  {
    assert Pow10(8) == 100000000;
    assert Pow10(16) == 10000000000000000 by { PowersAdd(8, 8); }
    assert Pow10(32) == 100000000000000000000000000000000 by { PowersAdd(16, 16); }
    assert Pow10(64) == 10000000000000000000000000000000000000000000000000000000000000000 by { PowersAdd(32, 32); }
  }

  lemma UnboundedPriceIsStoredAsZero(cfg: Config)
    requires cfg.maxGasPriceWei == 0
    ensures Published(cfg, Pow10(64)) == 0
  {
    TenTo64IsStoredAsZero();
    assert Shifted(Pow10(64), 1, 64);
    ShiftedIsKept(Pow10(64), 1, 64);
  }

  /**
   No computed price is stored below the minimum exactly when there is none, or there is a maximum not below it and it
   has at most three significant digits.
   */
  lemma MinimumHoldsIff(cfg: Config)
    ensures (forall price: nat :: Published(cfg, price) >= cfg.defaultGasPriceWei)
      <==> || cfg.defaultGasPriceWei == 0
           || (0 < cfg.maxGasPriceWei && cfg.defaultGasPriceWei <= cfg.maxGasPriceWei && ThreeDigits(cfg.defaultGasPriceWei))
  {
    var min, max := cfg.defaultGasPriceWei, cfg.maxGasPriceWei;
    KeptIffThreeDigits(min);
    TruncateLoses(min);
    if min > 0 {
      if max == 0 {
        UnboundedPriceIsStoredAsZero(cfg);
      } else if min <= max && ThreeDigits(min) {
        forall price: nat
          ensures Published(cfg, price) >= min
        {
          PublishedIsCapped(cfg, price);
          TruncateIsMonotone(min, Clamp(cfg, price));
        }
      } else {
        PublishedIsCapped(cfg, 0);
        assert Published(cfg, 0) < min;
      }
    }
  }

  /** A minimum of four significant digits is cut. */
  lemma MinimumIsCut()
    ensures Published(Config(1234, 2000), 0) == 1230
  {
    TruncateStep(1234);
    TruncateSmall(123);
  }

  /** Without a maximum even a minimum of fewer digits is lost, to the wrap. */
  lemma MinimumIsWrapped()
    ensures ThreeDigits(1000) && Published(Config(1000, 0), Pow10(64)) == 0
  {
    UnboundedPriceIsStoredAsZero(Config(1000, 0));
    assert Pow10(3) == 1000;
    assert Shifted(1000, 1, 3);
  }
}
