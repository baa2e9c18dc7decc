/** Rounding prices to a precision, and when roundings nest. */
module Depth {
  import opened Decimals

  // ---- Rounding ----

  function Tenth(places: nat): real {
    if places == 0 then 1.0 else Tenth(places - 1) / 10.0
  }

  /** A precision as it is written: `digits` with `places` of them after the point. */
  datatype Precision = Precision(digits: nat, places: nat) {
    function Value(): real {
      digits as real * Tenth(places)
    }

    /** What prices are in fact rounded to. */
    function Step(): real {
      if Value() > 1.0 then Value() * Tenth(places) else Tenth(places)
    }
  }

  function Multiple(n: int, s: real): real {
    n as real * s
  }

  /** How many whole steps there are in x, counted down or up. */
  function Steps(x: real, s: real, down: bool): int
    requires s > 0.0
  {
    if down then (x / s).Floor else -((-x / s).Floor)
  }

  /** To a multiple of the quantum, down or up. */
  function Quantize(x: real, quantum: real, down: bool): real
    requires quantum > 0.0
  {
    Multiple(Steps(x, quantum, down), quantum)
  }

  lemma {:induction false} TenthPositive(places: nat)
    ensures Tenth(places) > 0.0
  {
    if places > 0 {
      TenthPositive(places - 1);
    }
  }

  /** Bids are rounded down, asks up. */
  function RoundByPrecision(x: real, p: Precision, isBid: bool): real
    requires p.digits > 0
  {
    TenthPositive(p.places);
    var base, quantum := p.Value(), Tenth(p.places);
    assert base > 0.0;
    if base > 1.0 then base * Quantize(x / base, quantum, isBid)
    else Quantize(base * (x / base), quantum, isBid)
  }

  lemma {:induction false} StepPositive(p: Precision)
    requires p.digits > 0
    ensures p.Step() > 0.0
  {
    TenthPositive(p.places);
  }

  /** Rounding by a precision is rounding to a multiple of its step. */
  lemma {:induction false} RoundIsQuantize(x: real, p: Precision, isBid: bool)
    requires p.digits > 0
    ensures p.Step() > 0.0
    ensures RoundByPrecision(x, p, isBid) == Quantize(x, p.Step(), isBid)
  {
    StepPositive(p);
    TenthPositive(p.places);
    var base, quantum := p.Value(), Tenth(p.places);
    if base > 1.0 {
      StepsOfRatio(x, base, quantum, isBid);
      ScaleMultiple(base, Steps(x / base, quantum, isBid), quantum);
      assert p.Step() == base * quantum;
      assert Quantize(x, p.Step(), isBid) == Multiple(Steps(x / base, quantum, isBid), base * quantum);
    } else {
      assert base * (x / base) == x;
    }
  }

  lemma {:induction false} StepsOfRatio(x: real, base: real, quantum: real, down: bool)
    requires base > 0.0 && quantum > 0.0
    ensures base * quantum > 0.0
    ensures Steps(x / base, quantum, down) == Steps(x, base * quantum, down)
  {
    Positive(base, quantum);
    DivDiv(x, base, quantum);
    DivDiv(-x, base, quantum);
    assert -(x / base) == -x / base;
  }

  lemma {:induction false} ScaleMultiple(base: real, n: int, quantum: real)
    ensures base * Multiple(n, quantum) == Multiple(n, base * quantum)
  {
  }

  lemma {:induction false} DivDiv(x: real, a: real, b: real)
    requires a > 0.0 && b > 0.0
    ensures x / a / b == x / (a * b)
  {
    var y := x / a / b;
    assert y * b == x / a && (x / a) * a == x;
    assert y * (a * b) == x;
  }

  lemma {:induction false} NonNegative(a: real, b: real)
    requires a >= 0.0 && b >= 0.0
    ensures a * b >= 0.0
  {
  }

  lemma {:induction false} Positive(a: real, b: real)
    requires a > 0.0 && b > 0.0
    ensures a * b > 0.0
  {
  }

  // ---- Multiples of a step ----

  lemma {:induction false} MultipleOrder(a: int, b: int, s: real)
    requires s > 0.0 && a < b
    ensures Multiple(a, s) + s <= Multiple(b, s)
  {
    NonNegative((b - a - 1) as real, s);
    assert ((b - a - 1) as real) * s == Multiple(b, s) - Multiple(a, s) - s;
  }

  lemma {:induction false} MultipleOfMultiple(k: int, m: int, s: real)
    ensures Multiple(k, Multiple(m, s)) == Multiple(k * m, s)
  {
    RealProduct(k, m);
    assert (k as real) * (m as real * s) == ((k as real) * (m as real)) * s;
  }

  /** Rounding up is rounding the negative down. */
  lemma {:induction false} UpIsDown(x: real, s: real)
    requires s > 0.0
    ensures Quantize(x, s, false) == -Quantize(-x, s, true)
  {
  }

  lemma {:induction false} DownBounds(x: real, s: real)
    requires s > 0.0
    ensures Quantize(x, s, true) <= x < Quantize(x, s, true) + s
  {
    var k := Steps(x, s, true);
    Between(x / s, k as real, s, x);
    assert Quantize(x, s, true) == Multiple(k, s);
  }

  lemma {:induction false} Between(y: real, n: real, s: real, x: real)
    requires s > 0.0 && y * s == x && n <= y < n + 1.0
    ensures n * s <= x < n * s + s
  {
    var below, above := y - n, n + 1.0 - y;
    NonNegative(below, s);
    Positive(above, s);
    var p, q, m := below * s, above * s, n * s;
    assert p == x - m;
    assert q == m + s - x;
  }

  /** Down is at most x, up at least x, and neither is a whole step away. */
  lemma {:induction false} QuantizeBounds(x: real, s: real, down: bool)
    requires s > 0.0
    ensures if down then Quantize(x, s, down) <= x < Quantize(x, s, down) + s
            else Quantize(x, s, down) - s < x <= Quantize(x, s, down)
  {
    if down {
      DownBounds(x, s);
    } else {
      UpIsDown(x, s);
      DownBounds(-x, s);
    }
  }

  /** The multiple of s below x and less than a step away is the only one. */
  lemma {:induction false} DownUnique(x: real, s: real, n: int)
    requires s > 0.0 && Multiple(n, s) <= x < Multiple(n, s) + s
    ensures Quantize(x, s, true) == Multiple(n, s)
  {
    var k := Steps(x, s, true);
    DownBounds(x, s);
    if k < n { MultipleOrder(k, n, s); }
    if n < k { MultipleOrder(n, k, s); }
  }

  ghost predicate IsMultiple(big: real, small: real) {
    exists m: int :: m > 0 && big == Multiple(m, small)
  }

  lemma {:induction false} CoarsenDown(x: real, s: real, big: real)
    requires s > 0.0 && big > 0.0 && IsMultiple(big, s)
    ensures Quantize(Quantize(x, s, true), big, true) == Quantize(x, big, true)
  {
    var m: int :| m > 0 && big == Multiple(m, s);
    var n, k := Steps(x, s, true), Steps(x, big, true);
    DownBounds(x, s);
    DownBounds(x, big);
    MultipleOfMultiple(k, m, s);
    if n < k * m { MultipleOrder(n, k * m, s); }
    if k * m < n { MultipleOrder(k * m, n, s); }
    DownUnique(Quantize(x, s, true), big, k);
  }

  /** Rounding first to a step and then to a multiple of it is rounding to the multiple. */
  lemma {:induction false} Coarsen(x: real, s: real, big: real, down: bool)
    requires s > 0.0 && big > 0.0 && IsMultiple(big, s)
    ensures Quantize(Quantize(x, s, down), big, down) == Quantize(x, big, down)
  {
    if down {
      CoarsenDown(x, s, big);
    } else {
      UpIsDown(x, s);
      UpIsDown(x, big);
      UpIsDown(Quantize(x, s, false), big);
      CoarsenDown(-x, s, big);
    }
  }

  ghost predicate Commutes(s: real, big: real, down: bool)
    requires s > 0.0 && big > 0.0
  {
    forall x :: Quantize(Quantize(x, s, down), big, down) == Quantize(x, big, down)
  }

  /** And only then: coarsening commutes for every price exactly when the steps nest. */
  lemma {:induction false} CoarseningCommutesIff(s: real, big: real, down: bool)
    requires s > 0.0 && big > 0.0
    ensures Commutes(s, big, down) <==> IsMultiple(big, s)
  {
    if IsMultiple(big, s) {
      forall x ensures Quantize(Quantize(x, s, down), big, down) == Quantize(x, big, down) { Coarsen(x, s, big, down); }
    }
    if Commutes(s, big, down) {
      CommutesOnlyForMultiples(s, big, down);
    }
  }

  lemma {:induction false} CommutesOnlyForMultiples(s: real, big: real, down: bool)
    requires s > 0.0 && big > 0.0 && Commutes(s, big, down)
    ensures IsMultiple(big, s)
  {
    var x := if down then big else -big;
    var fine := Quantize(x, s, down);
    QuantizeOfStep(big, down);
    QuantizeBounds(x, s, down);
    QuantizeBounds(fine, big, down);
    assert Quantize(fine, big, down) == Quantize(x, big, down) == x;
    assert fine == x;
    var n := Steps(x, s, down);
    var m := if down then n else -n;
    assert Multiple(m, s) == big;
    MultipleSign(m, s);
  }

  lemma {:induction false} QuantizeOfStep(big: real, down: bool)
    requires big > 0.0
    ensures var x := if down then big else -big; Quantize(x, big, down) == x
  {
    DownUnique(big, big, 1);
    UpIsDown(-big, big);
  }

  lemma {:induction false} MultipleSign(m: int, s: real)
    requires s > 0.0 && Multiple(m, s) > 0.0
    ensures m > 0
  {
  }

  /** The precision written 10^k. */
  function PowerOfTen(k: int): (p: Precision)
    ensures p.digits > 0
  {
    if k >= 0 then Precision(Ten(k), 0) else Precision(1, -k)
  }

  function Ten(k: nat): (t: nat)
    ensures t > 0
  {
    if k == 0 then 1 else 10 * Ten(k - 1)
  }

  lemma {:induction false} TenTenth(k: nat)
    ensures Ten(k) as real * Tenth(k) == 1.0
  {
    if k > 0 {
      TenTenth(k - 1);
      assert Ten(k) as real == 10.0 * Ten(k - 1) as real;
      assert (10.0 * Ten(k - 1) as real) * (Tenth(k - 1) / 10.0) == Ten(k - 1) as real * Tenth(k - 1);
    }
  }

  lemma {:induction false} PowerStep(k: int)
    ensures PowerOfTen(k).Step() == if k >= 0 then Ten(k) as real else Tenth(-k)
  {
    if k < 0 {
      TenthAtMostOne(-k);
    }
  }

  lemma {:induction false} TenthAtMostOne(k: nat)
    ensures 0.0 < Tenth(k) <= 1.0
  {
    if k > 0 {
      TenthAtMostOne(k - 1);
    }
  }

  lemma {:induction false} TenSplit(a: nat, b: nat)
    ensures Ten(a + b) == Ten(a) * Ten(b)
    ensures Tenth(a + b) * Ten(b) as real == Tenth(a)
  {
    if b > 0 {
      TenSplit(a, b - 1);
      assert Ten(a + b) == 10 * (Ten(a) * Ten(b - 1)) == Ten(a) * Ten(b);
      assert Ten(b) as real == 10.0 * Ten(b - 1) as real;
      assert (Tenth(a + b - 1) / 10.0) * (10.0 * Ten(b - 1) as real) == Tenth(a + b - 1) * Ten(b - 1) as real;
    }
  }

  /** Powers of ten nest, so regrouping at a coarser one is grouping at it directly. */
  lemma {:induction false} PowersOfTenNest(j: int, k: int, x: real, isBid: bool)
    requires j <= k
    ensures RoundByPrecision(RoundByPrecision(x, PowerOfTen(j), isBid), PowerOfTen(k), isBid) ==
            RoundByPrecision(x, PowerOfTen(k), isBid)
  {
    PowersAreMultiples(j, k);
    RoundIsQuantize(x, PowerOfTen(j), isBid);
    RoundIsQuantize(x, PowerOfTen(k), isBid);
    RoundIsQuantize(RoundByPrecision(x, PowerOfTen(j), isBid), PowerOfTen(k), isBid);
    Coarsen(x, PowerOfTen(j).Step(), PowerOfTen(k).Step(), isBid);
  }

  lemma {:induction false} PowersAreMultiples(j: int, k: int)
    requires j <= k
    ensures PowerOfTen(j).Step() > 0.0 && IsMultiple(PowerOfTen(k).Step(), PowerOfTen(j).Step())
  {
    StepPositive(PowerOfTen(j));
    if j >= 0 {
      UnitsNest(j, k);
    } else if k < 0 {
      TenthsNest(-j, -k);
    } else {
      MixedNest(-j, k);
    }
  }

  lemma {:induction false} UnitsNest(j: nat, k: nat)
    requires j <= k
    ensures IsMultiple(PowerOfTen(k).Step(), PowerOfTen(j).Step())
  {
    PowerStep(j);
    PowerStep(k);
    TensNest(j, k - j);
  }

  lemma {:induction false} TensNest(j: nat, n: nat)
    ensures Multiple(Ten(n), Ten(j) as real) == Ten(j + n) as real
  {
    TenSplit(j, n);
    RealProduct(Ten(n), Ten(j));
  }

  lemma {:induction false} TenthsNest(j: int, k: int)
    requires 0 < k <= j
    ensures IsMultiple(PowerOfTen(-k).Step(), PowerOfTen(-j).Step())
  {
    PowerStep(-j);
    PowerStep(-k);
    TenSplit(k, j - k);
    assert Multiple(Ten(j - k), Tenth(j)) == Tenth(k);
  }

  lemma {:induction false} MixedNest(j: int, k: nat)
    requires j > 0
    ensures IsMultiple(PowerOfTen(k).Step(), PowerOfTen(-j).Step())
  {
    PowerStep(-j);
    PowerStep(k);
    TenTenth(j);
    RealProduct(Ten(k), Ten(j));
    assert Multiple(Ten(j), Tenth(j)) == 1.0;
    MultipleOfMultiple(Ten(k), Ten(j), Tenth(j));
    assert Multiple(Ten(k) * Ten(j), Tenth(j)) == Ten(k) as real;
    TenSplit(k, j);
  }
}
