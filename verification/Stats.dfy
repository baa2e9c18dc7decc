/** The rate and the averages a book exports. */
module Stats {
  import opened OrderTypes
  import opened StackModel
  import opened Matching
  import opened Decimals
  import opened QuoteAgreement

  function TopPrice(s: seq<OrderData>): Option<real> {
    if s == [] then None else Some(Dec(s[0].price))
  }

  /** The mean of the best prices of the sides that have orders. */
  function GetRate(p: Pool): Option<real> {
    match (TopPrice(p.sells), TopPrice(p.buys))
    case (None, None) => None
    case (Some(s), None) => Some(s)
    case (None, Some(b)) => Some(b)
    case (Some(s), Some(b)) => Some((s + b) / 2.0)
  }

  function Volume(s: seq<OrderData>): real {
    if s == [] then 0.0 else Dec(s[0].left) + Volume(s[1..])
  }

  function Turnover(s: seq<OrderData>): real {
    if s == [] then 0.0 else Worth(s[0].left, s[0].price) + Turnover(s[1..])
  }

  datatype SideStats = SideStats(volume: real, average: Option<real>)

  function GetStats(s: seq<OrderData>): SideStats {
    if Volume(s) > 0.0 then SideStats(Volume(s), Some(Turnover(s) / Volume(s))) else SideStats(Volume(s), None)
  }

  /** For bids the volume is given in the quote currency. */
  function GetStatsBuys(s: seq<OrderData>): SideStats {
    var stats := GetStats(s);
    if stats.average.Some? && stats.average.value != 0.0
    then SideStats(stats.average.value * stats.volume, stats.average)
    else stats
  }

  function Scaled(price: int, volume: real): real {
    Dec(price) * volume
  }

  lemma {:induction false} ScaledStep(price: int, low: int, high: int, left: int, volume: real, turnover: real)
    requires left > 0 && low <= price <= high && volume >= 0.0
    requires Scaled(low, volume) <= turnover <= Scaled(high, volume)
    ensures Scaled(low, Dec(left) + volume) <= Worth(left, price) + turnover <= Scaled(high, Dec(left) + volume)
  {
    var d := Dec(left);
    assert d > 0.0;
    var w, l, h := Worth(left, price), Dec(low) * d, Dec(high) * d;
    assert l <= w by { assert (Dec(price) - Dec(low)) * d >= 0.0; }
    assert w <= h by { assert (Dec(high) - Dec(price)) * d >= 0.0; }
    assert Scaled(low, d + volume) == l + Scaled(low, volume);
    assert Scaled(high, d + volume) == h + Scaled(high, volume);
  }

  lemma {:induction false} TurnoverBounds(s: seq<OrderData>, low: int, high: int)
    requires AllLeft(s) && forall i :: 0 <= i < |s| ==> low <= s[i].price <= high
    ensures Volume(s) >= 0.0 && (s != [] ==> Volume(s) > 0.0)
    ensures Scaled(low, Volume(s)) <= Turnover(s) <= Scaled(high, Volume(s))
  {
    if s != [] {
      TurnoverBounds(s[1..], low, high);
      ScaledStep(s[0].price, low, high, s[0].left, Volume(s[1..]), Turnover(s[1..]));
    }
  }

  /** The weighted average of a side lies between its best and its worst price. */
  lemma {:induction false} AverageBetween(s: seq<OrderData>, op: Operation)
    requires s != [] && AllLeft(s) && Sorted(DirectionOf(op), s)
    ensures var a := GetStats(s).average;
            var best, worst := Dec(s[0].price), Dec(s[|s| - 1].price);
            a.Some? && if op == Sell then best <= a.value <= worst else worst <= a.value <= best
  {
    var first, last := s[0].price, s[|s| - 1].price;
    if op == Sell {
      AverageWithin(s, op, first, last);
    } else {
      AverageWithin(s, op, last, first);
    }
  }

  lemma {:induction false} AverageWithin(s: seq<OrderData>, op: Operation, low: int, high: int)
    requires s != [] && AllLeft(s) && Sorted(DirectionOf(op), s)
    requires (if op == Sell then low else high) == s[0].price && (if op == Sell then high else low) == s[|s| - 1].price
    ensures GetStats(s).average.Some? && Dec(low) <= GetStats(s).average.value <= Dec(high)
  {
    forall i | 0 <= i < |s| ensures low <= s[i].price <= high {
      assert i == 0 || KeyLess(DirectionOf(op), s[0], s[i]);
      assert i == |s| - 1 || KeyLess(DirectionOf(op), s[i], s[|s| - 1]);
    }
    TurnoverBounds(s, low, high);
    QuotientBetween(Turnover(s), Volume(s), low, high);
  }

  lemma {:induction false} QuotientBetween(x: real, v: real, low: int, high: int)
    requires v > 0.0 && Scaled(low, v) <= x <= Scaled(high, v)
    ensures Dec(low) <= x / v <= Dec(high)
  {
    assert x / v - Dec(low) == (x - Scaled(low, v)) / v && Dec(high) - x / v == (Scaled(high, v) - x) / v;
  }

  /** Quantity times price over the orders, in units of 10^-16. */
  function SumCost(s: seq<OrderData>): int {
    if s == [] then 0 else s[0].left * s[0].price + SumCost(s[1..])
  }

  lemma {:induction false} ExactTotals(s: seq<OrderData>)
    ensures Volume(s) == Dec(SumLeft(s)) && Turnover(s) == Money(SumCost(s))
  {
    if s != [] {
      ExactTotals(s[1..]);
      RealProduct(s[0].left, s[0].price);
      assert Worth(s[0].left, s[0].price) == Money(s[0].left * s[0].price);
    }
  }

  /** The average is weighted by quantity: times all that is left it gives the cost of all of it. */
  lemma {:induction false} AverageIsWeighted(s: seq<OrderData>)
    requires s != [] && AllLeft(s)
    ensures var stats := GetStats(s);
            && stats.volume == Dec(SumLeft(s)) > 0.0
            && stats.average.Some? && stats.average.value * stats.volume == Money(SumCost(s))
  {
    ExactTotals(s);
    SumLeftPositive(s, |s|);
    assert s[..|s|] == s;
    assert Turnover(s) / Volume(s) * Volume(s) == Turnover(s);
  }

  /** Giving back the volume of bids: their turnover. */
  lemma {:induction false} BuysVolumeIsTurnover(s: seq<OrderData>)
    requires s != [] && AllLeft(s) && forall i :: 0 <= i < |s| ==> s[i].price > 0
    ensures GetStatsBuys(s).volume == Turnover(s)
  {
    var high := Highest(s);
    TurnoverBounds(s, 1, high);
    assert Turnover(s) / Volume(s) * Volume(s) == Turnover(s);
    assert Scaled(1, Volume(s)) > 0.0;
  }

  function Highest(s: seq<OrderData>): (h: int)
    requires s != []
    ensures forall i :: 0 <= i < |s| ==> s[i].price <= h
  {
    if |s| == 1 then s[0].price
    else
      var h := Highest(s[1..]);
      assert forall i :: 1 <= i < |s| ==> s[i] == s[1..][i - 1];
      if s[0].price <= h then h else s[0].price
  }

  /** The rate is the mean of the cheapest ask and the dearest bid, or the one that is there. */
  lemma {:induction false} RateIsMean(p: Pool, bot: bool)
    requires PoolInv(p, bot)
    ensures GetRate(p) == None <==> p.buys == [] && p.sells == []
    ensures p.buys != [] && p.sells != [] ==>
              GetRate(p).value + GetRate(p).value == Dec(p.sells[0].price) + Dec(p.buys[0].price)
    ensures p.buys == [] && p.sells != [] ==> GetRate(p) == Some(Dec(p.sells[0].price))
    ensures p.buys != [] && p.sells == [] ==> GetRate(p) == Some(Dec(p.buys[0].price))
    ensures (forall a :: a in p.sells ==> p.sells[0].price <= a.price)
         && (forall b :: b in p.buys ==> b.price <= p.buys[0].price)
  {
    StacksInOrder(p, bot);
  }

  /** With both sides present and uncrossed the rate lies strictly between the best prices. */
  lemma {:induction false} RateBetween(p: Pool, bot: bool)
    requires PoolInv(p, bot) && p.buys != [] && p.sells != []
    ensures var r := GetRate(p);
            r.Some? && TopPrice(p.buys).value < r.value < TopPrice(p.sells).value
  {
    assert p.buys[0] in p.buys && p.sells[0] in p.sells;
    DecMonotone(p.sells[0].price, p.buys[0].price);
  }
}
