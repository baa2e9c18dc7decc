/** The price quoter: what a quantity costs, and what a budget buys, at a list of levels. */
module PreMatch {
  import opened OrderTypes
  import opened Decimals

  datatype Level = Level(price: real, qty: real) {
    /** What a quantity of q takes here, what that costs, and what is still wanted. */
    function Take(q: real): real {
      if q <= qty then q else qty
    }

    function Spent(q: real): real {
      Take(q) * price
    }

    function Worth(a: real): real {
      a * price
    }

    function Wanted(q: real): real {
      q - Take(q)
    }

    /** What a budget of c spends here, what that buys, and what is still unspent. */
    function Spend(c: real): real {
      var quoted := price * qty;
      if c <= quoted then c else quoted
    }

    function Units(c: real): real
      requires price != 0.0
    {
      Spend(c) / price
    }

    function Unspent(c: real): real {
      c - Spend(c)
    }
  }

  datatype CostQuote = CostQuote(cost: real, price: real)
  datatype QtyQuote = QtyQuote(qty: real, price: real)

  /** Both numbers of a level are cut to 8 places before use. */
  function Cut(ls: seq<Level>): (r: seq<Level>)
    ensures |r| == |ls| && forall i :: 0 <= i < |ls| ==> r[i] == Level(ToDecimal(ls[i].price), ToDecimal(ls[i].qty))
  {
    seq(|ls|, i requires 0 <= i < |ls| => Level(ToDecimal(ls[i].price), ToDecimal(ls[i].qty)))
  }

  // ---- A quantity, and what it costs ----

  function Quote(ls: seq<Level>, q: real): Option<CostQuote> {
    if ls == [] then None
    else if ls[0].Wanted(q) <= 0.0 then Some(CostQuote(ls[0].Spent(q), ls[0].price))
    else Plus(Quote(ls[1..], ls[0].Wanted(q)), ls[0].Spent(q))
  }

  function Plus(r: Option<CostQuote>, cost: real): Option<CostQuote> {
    if r.None? then None else Some(CostQuote(cost + r.value.cost, r.value.price))
  }

  ghost predicate Positive(ls: seq<Level>) {
    forall i :: 0 <= i < |ls| ==> ls[i].qty >= 0.0 && ls[i].price > 0.0
  }

  function Total(ls: seq<Level>): real {
    if ls == [] then 0.0 else ls[0].qty + Total(ls[1..])
  }

  /** What the levels are worth. */
  function Turnover(ls: seq<Level>): real {
    if ls == [] then 0.0 else ls[0].Worth(ls[0].qty) + Turnover(ls[1..])
  }

  /** The first k levels do not hold q, however few of them are taken. */
  ghost predicate Short(ls: seq<Level>, q: real, k: nat)
    requires k <= |ls|
  {
    forall n :: 0 < n <= k ==> Total(ls[..n]) < q
  }

  lemma {:induction false} PrefixSums(ls: seq<Level>, n: nat)
    requires n < |ls|
    ensures Total(ls[..n + 1]) == Total(ls[..n]) + ls[n].qty
    ensures Turnover(ls[..n + 1]) == Turnover(ls[..n]) + ls[n].Worth(ls[n].qty)
  {
    if n == 0 {
      assert ls[..0] == [] && ls[..1] == [ls[0]] && [ls[0]][1..] == [];
    } else {
      PrefixSums(ls[1..], n - 1);
      assert ls[..n + 1][1..] == ls[1..][..n] && ls[..n][1..] == ls[1..][..n - 1];
    }
  }

  /**
   The levels are taken whole up to the first at which they hold q together. The quote has
   that level's price, and costs those levels and, at that price, what is still wanted.
   */
  lemma {:induction false} QuoteStopsAt(ls: seq<Level>, q: real, k: nat)
    requires k < |ls| && Short(ls, q, k) && q <= Total(ls[..k + 1])
    ensures Quote(ls, q) == Some(CostQuote(Turnover(ls[..k]) + ls[k].Worth(q - Total(ls[..k])), ls[k].price))
    decreases k
  {
    if k == 0 {
      PrefixSums(ls, k);
      assert ls[..0] == [] && q - Total(ls[..0]) == q;
      FirstLevel(ls, q);
    } else {
      var l, tail := ls[0], ls[1..];
      ShortTail(ls, q, k);
      assert ls[..k][1..] == tail[..k - 1] && ls[..k + 1][1..] == tail[..k] && tail[k - 1] == ls[k];
      QuoteStopsAt(tail, q - l.qty, k - 1);
      assert q - l.qty - Total(tail[..k - 1]) == q - Total(ls[..k]);
      FirstLevel(ls, q);
    }
  }

  lemma {:induction false} FirstLevel(ls: seq<Level>, q: real)
    requires ls != []
    ensures Quote(ls, q) == if q <= ls[0].qty then Some(CostQuote(ls[0].Worth(q), ls[0].price))
                            else Plus(Quote(ls[1..], q - ls[0].qty), ls[0].Worth(ls[0].qty))
  {
    assert ls[0].Take(q) == if q <= ls[0].qty then q else ls[0].qty;
    assert ls[0].Spent(q) == ls[0].Worth(ls[0].Take(q));
  }

  lemma {:induction false} ShortTail(ls: seq<Level>, q: real, k: nat)
    requires 0 < k <= |ls| && Short(ls, q, k)
    ensures ls[0].qty < q && Short(ls[1..], q - ls[0].qty, k - 1)
  {
    assert ls[..1] == [ls[0]] && [ls[0]][1..] == [] && Total(ls[..1]) < q;
    forall n | 0 < n <= k - 1 ensures Total(ls[1..][..n]) < q - ls[0].qty {
      assert ls[..n + 1][1..] == ls[1..][..n] && Total(ls[..n + 1]) < q;
    }
  }

  /** There is no quote when no number of levels holds q. */
  lemma {:induction false} NoQuote(ls: seq<Level>, q: real)
    requires Short(ls, q, |ls|)
    ensures Quote(ls, q) == None
  {
    if ls != [] {
      ShortTail(ls, q, |ls|);
      NoQuote(ls[1..], q - ls[0].qty);
    }
  }

  /** i levels into the walk for q, none of which was enough: what is still wanted, and the cost so far. */
  ghost predicate Quoting(ls: seq<Level>, q: real, i: nat, left: real, cost: real) {
    i <= |ls| && left == q - Total(ls[..i]) && cost == Turnover(ls[..i]) && Short(ls, q, i)
  }

  lemma {:induction false} QuoteNext(ls: seq<Level>, q: real, i: nat, left: real, cost: real)
    requires Quoting(ls, q, i, left, cost) && i < |ls|
    ensures var left', cost' := left - ls[i].Take(left), cost + ls[i].Spent(left);
            if left' <= 0.0 then Quote(ls, q) == Some(CostQuote(cost', ls[i].price))
            else Quoting(ls, q, i + 1, left', cost')
  {
    PrefixSums(ls, i);
    if left <= ls[i].qty {
      assert ls[i].Spent(left) == ls[i].Worth(q - Total(ls[..i]));
      QuoteStopsAt(ls, q, i);
    } else {
      assert ls[i].Spent(left) == ls[i].Worth(ls[i].qty);
    }
  }

  /**
   The levels are taken whole up to the first that makes their running sum reach q; what is
   still wanted is taken there, at the quoted price. Without such a level there is no quote.
   */
  ghost predicate QuotedAtFirst(ls: seq<Level>, q: real, r: Option<CostQuote>) {
    && (r.None? <==> Short(ls, q, |ls|))
    && forall k :: 0 <= k < |ls| && Short(ls, q, k) && q <= Total(ls[..k + 1]) ==>
         r == Some(CostQuote(Turnover(ls[..k]) + ls[k].Worth(q - Total(ls[..k])), ls[k].price))
  }

  lemma {:induction false} QuoteIsAtFirst(ls: seq<Level>, q: real)
    ensures QuotedAtFirst(ls, q, Quote(ls, q))
  {
    forall k | 0 <= k < |ls| && Short(ls, q, k) && q <= Total(ls[..k + 1])
      ensures Quote(ls, q) == Some(CostQuote(Turnover(ls[..k]) + ls[k].Worth(q - Total(ls[..k])), ls[k].price))
    {
      QuoteStopsAt(ls, q, k);
    }
    if Short(ls, q, |ls|) {
      NoQuote(ls, q);
    } else {
      var k := FirstReach(ls, q);
      QuoteStopsAt(ls, q, k);
    }
  }

  lemma {:induction false} FirstReach(ls: seq<Level>, q: real) returns (k: nat)
    requires !Short(ls, q, |ls|)
    ensures k < |ls| && Short(ls, q, k) && q <= Total(ls[..k + 1])
  {
    k := 0;
    while k < |ls| && Total(ls[..k + 1]) < q
      invariant k <= |ls| && Short(ls, q, k)
    {
      k := k + 1;
    }
  }

  method FindCostAndPrice(orders: seq<Level>, quantity: real) returns (r: Option<CostQuote>)
    ensures r == Quote(Cut(orders), ToDecimal(quantity))
    ensures QuotedAtFirst(Cut(orders), ToDecimal(quantity), r)
  {
    var left, cost := ToDecimal(quantity), 0.0;
    ghost var ls, q := Cut(orders), left;
    QuoteIsAtFirst(ls, q);
    for i := 0 to |orders|
      invariant Quoting(ls, q, i, left, cost)
    {
      QuoteNext(ls, q, i, left, cost);
      var level := Level(ToDecimal(orders[i].price), ToDecimal(orders[i].qty));
      assert level == ls[i];
      cost := cost + level.Spent(left);
      left := left - level.Take(left);
      if left <= 0.0 {
        return Some(CostQuote(cost, level.price));
      }
    }
    NoQuote(ls, q);
    return None;
  }

  function Cost(ls: seq<Level>, q: real): real {
    if ls == [] then 0.0 else ls[0].Spent(q) + Cost(ls[1..], ls[0].Wanted(q))
  }

  lemma {:induction false} TotalNonNegative(ls: seq<Level>)
    requires Positive(ls)
    ensures Total(ls) >= 0.0
  {
    if ls != [] {
      TotalNonNegative(ls[1..]);
    }
  }

  lemma {:induction false} CostOfNothing(ls: seq<Level>)
    requires Positive(ls)
    ensures Cost(ls, 0.0) == 0.0
  {
    if ls != [] {
      assert ls[0].Take(0.0) == 0.0;
      CostOfNothing(ls[1..]);
    }
  }

  /** There is a quote exactly when the levels hold the quantity; its cost is Cost. */
  lemma {:induction false} QuoteMeaning(ls: seq<Level>, q: real)
    requires Positive(ls) && q >= 0.0 && (q > 0.0 || ls != [])
    ensures Quote(ls, q).Some? <==> q <= Total(ls)
    ensures Quote(ls, q).Some? ==> Quote(ls, q).value.cost == Cost(ls, q)
  {
    if ls != [] {
      if ls[0].Wanted(q) <= 0.0 {
        assert ls[0].Wanted(q) == 0.0;
        TotalNonNegative(ls[1..]);
        CostOfNothing(ls[1..]);
      } else {
        QuoteMeaning(ls[1..], ls[0].Wanted(q));
      }
    }
  }

  // ---- Greedy is optimal ----

  /** One way of taking q from the levels. */
  ghost predicate Allocation(ls: seq<Level>, a: seq<real>, q: real) {
    |a| == |ls| && (forall i :: 0 <= i < |a| ==> 0.0 <= a[i] <= ls[i].qty) && Sum(a) == q
  }

  function Sum(a: seq<real>): real {
    if a == [] then 0.0 else a[0] + Sum(a[1..])
  }

  function Value(ls: seq<Level>, a: seq<real>): real
    requires |a| == |ls|
  {
    if ls == [] then 0.0 else ls[0].Worth(a[0]) + Value(ls[1..], a[1..])
  }

  /** x is no worse than y: cheaper on the side of the asks, dearer on that of the bids. */
  predicate Better(asks: bool, x: real, y: real) {
    if asks then x <= y else y <= x
  }

  /** Levels in stack order: asks from the cheapest, bids from the dearest. */
  ghost predicate BestFirst(ls: seq<Level>, asks: bool) {
    forall i, j :: 0 <= i <= j < |ls| ==> Better(asks, ls[i].price, ls[j].price)
  }

  /** The value of d units at price p. */
  function Times(p: real, d: real): real {
    p * d
  }

  lemma {:induction false} MulMono(a: real, b: real, x: real)
    requires a <= b && x >= 0.0
    ensures a * x <= b * x
  {
  }

  lemma {:induction false} SumBounded(ls: seq<Level>, a: seq<real>, q: real)
    requires Allocation(ls, a, q)
    ensures 0.0 <= q <= Total(ls)
  {
    if ls != [] {
      SumBounded(ls[1..], a[1..], q - a[0]);
    }
  }

  /** Each further unit costs no better than any price that is no worse than all levels. */
  lemma {:induction false} Slope(ls: seq<Level>, x: real, y: real, p: real, asks: bool)
    requires Positive(ls) && 0.0 <= x <= y <= Total(ls)
    requires forall i :: 0 <= i < |ls| ==> Better(asks, p, ls[i].price)
    ensures Better(asks, Times(p, y - x), Cost(ls, y) - Cost(ls, x))
  {
    if ls == [] {
      assert y - x == 0.0;
    } else {
      var l, tail := ls[0], ls[1..];
      TotalNonNegative(tail);
      Slope(tail, l.Wanted(x), l.Wanted(y), p, asks);
      SlopeStep(asks, p, l, x, y, Cost(tail, l.Wanted(x)), Cost(tail, l.Wanted(y)));
    }
  }

  lemma {:induction false} SlopeStep(asks: bool, p: real, l: Level, x: real, y: real, cx: real, cy: real)
    requires x <= y && Better(asks, p, l.price)
    requires Better(asks, Times(p, l.Wanted(y) - l.Wanted(x)), cy - cx)
    ensures Better(asks, Times(p, y - x), (l.Spent(y) + cy) - (l.Spent(x) + cx))
  {
    var d0, d1 := l.Take(y) - l.Take(x), l.Wanted(y) - l.Wanted(x);
    TimesMono(asks, p, l.price, d0);
    TimesAdds(p, d0, d1, y - x);
    SpentBetween(l, x, y);
  }

  lemma {:induction false} TimesMono(asks: bool, p: real, r: real, d: real)
    requires Better(asks, p, r) && d >= 0.0
    ensures Better(asks, Times(p, d), Times(r, d))
  {
    if asks { MulMono(p, r, d); } else { MulMono(r, p, d); }
  }

  lemma {:induction false} TimesAdds(p: real, d0: real, d1: real, d: real)
    requires d == d0 + d1
    ensures Times(p, d) == Times(p, d0) + Times(p, d1)
  {
  }

  lemma {:induction false} SpentBetween(l: Level, x: real, y: real)
    ensures l.Spent(y) - l.Spent(x) == Times(l.price, l.Take(y) - l.Take(x))
  {
  }

  /** Taking less than possible from the best level only moves quantity to worse ones. */
  lemma {:induction false} HeadFirst(ls: seq<Level>, a: seq<real>, q: real, asks: bool)
    requires Positive(ls) && BestFirst(ls, asks) && Allocation(ls, a, q) && ls != []
    ensures var left := q - a[0];
            Better(asks, Times(ls[0].price, left - ls[0].Wanted(q)),
                   Cost(ls[1..], left) - Cost(ls[1..], ls[0].Wanted(q)))
  {
    var l, tail, left := ls[0], ls[1..], q - a[0];
    SumBounded(tail, a[1..], left);
    WantedLeast(l, q, a[0]);
    forall i | 0 <= i < |tail| ensures Better(asks, l.price, tail[i].price) { assert tail[i] == ls[i + 1]; }
    Slope(tail, l.Wanted(q), left, l.price, asks);
  }

  lemma {:induction false} WantedLeast(l: Level, q: real, a0: real)
    requires 0.0 <= a0 <= l.qty && a0 <= q
    ensures 0.0 <= l.Wanted(q) <= q - a0
  {
  }

  /** No other way of taking q is cheaper from asks, or earns more from bids. */
  lemma {:induction false} GreedyIsBest(ls: seq<Level>, a: seq<real>, q: real, asks: bool)
    requires Positive(ls) && BestFirst(ls, asks) && Allocation(ls, a, q)
    ensures Better(asks, Cost(ls, q), Value(ls, a))
  {
    if ls != [] {
      var l, tail, left := ls[0], ls[1..], q - a[0];
      GreedyIsBest(tail, a[1..], left, asks);
      HeadFirst(ls, a, q, asks);
      BestStep(asks, l, q, a[0], Cost(tail, l.Wanted(q)), Cost(tail, left), Value(tail, a[1..]));
    }
  }

  lemma {:induction false} BestStep(asks: bool, l: Level, q: real, a0: real, c: real, ca: real, v: real)
    requires Better(asks, Times(l.price, (q - a0) - l.Wanted(q)), ca - c) && Better(asks, ca, v)
    ensures Better(asks, l.Spent(q) + c, l.Worth(a0) + v)
  {
    assert l.price * ((q - a0) - l.Wanted(q)) == l.Spent(q) - l.Worth(a0);
  }

  function Greedy(ls: seq<Level>, q: real): seq<real> {
    if ls == [] then [] else [ls[0].Take(q)] + Greedy(ls[1..], ls[0].Wanted(q))
  }

  /** And the quoter's own way is one of them. */
  lemma {:induction false} GreedyAttains(ls: seq<Level>, q: real)
    requires Positive(ls) && 0.0 <= q <= Total(ls)
    ensures Allocation(ls, Greedy(ls, q), q) && Value(ls, Greedy(ls, q)) == Cost(ls, q)
  {
    if ls != [] {
      TotalNonNegative(ls[1..]);
      GreedyAttains(ls[1..], ls[0].Wanted(q));
      assert Greedy(ls, q)[1..] == Greedy(ls[1..], ls[0].Wanted(q));
    }
  }

  /**
   The quoted cost is the least over all ways of taking q from asks in stack order,
   and the most over all ways of selling q into bids.
   */
  lemma {:induction false} QuoteIsOptimal(ls: seq<Level>, a: seq<real>, q: real)
    requires Positive(ls) && q > 0.0 && Allocation(ls, a, q)
    ensures Quote(ls, q).Some?
    ensures BestFirst(ls, true) ==> Quote(ls, q).value.cost <= Value(ls, a)
    ensures BestFirst(ls, false) ==> Quote(ls, q).value.cost >= Value(ls, a)
    ensures Allocation(ls, Greedy(ls, q), q) && Value(ls, Greedy(ls, q)) == Quote(ls, q).value.cost
  {
    SumBounded(ls, a, q);
    QuoteMeaning(ls, q);
    GreedyAttains(ls, q);
    if BestFirst(ls, true) {
      GreedyIsBest(ls, a, q, true);
    }
    if BestFirst(ls, false) {
      GreedyIsBest(ls, a, q, false);
    }
  }

  // ---- A budget, and what it buys ----

  ghost predicate Priced(ls: seq<Level>) {
    forall i :: 0 <= i < |ls| ==> ls[i].price != 0.0
  }

  function Bought(ls: seq<Level>, c: real): real
    requires Priced(ls)
  {
    if ls == [] then 0.0
    else ls[0].Units(c) + if ls[0].Unspent(c) <= 0.0 then 0.0 else Bought(ls[1..], ls[0].Unspent(c))
  }

  /** Whether the levels take the whole budget, and how many of them it touches. */
  function Covers(ls: seq<Level>, c: real): bool {
    ls != [] && (ls[0].Unspent(c) <= 0.0 || Covers(ls[1..], ls[0].Unspent(c)))
  }

  function Touched(ls: seq<Level>, c: real): (n: nat)
    ensures n <= |ls|
  {
    if ls == [] then 0
    else if ls[0].Unspent(c) <= 0.0 then 1
    else 1 + Touched(ls[1..], ls[0].Unspent(c))
  }

  /** The levels a budget touches, each with the quantity it buys there. */
  function Taken(ls: seq<Level>, c: real): (r: seq<Level>)
    requires Priced(ls)
  {
    if ls == [] then []
    else [Level(ls[0].price, ls[0].Units(c))] + if ls[0].Unspent(c) <= 0.0 then [] else Taken(ls[1..], ls[0].Unspent(c))
  }

  /** They add up to what is bought and to the budget spent; each but the last is taken whole. */
  lemma {:induction false} TakenAddsUp(ls: seq<Level>, c: real)
    requires Positive(ls) && c >= 0.0
    ensures var r := Taken(ls, c);
            && |r| == Touched(ls, c) && Total(r) == Bought(ls, c)
            && (Covers(ls, c) ==> Turnover(r) == c)
            && (forall i :: 0 <= i < |r| ==> r[i].price == ls[i].price && 0.0 <= r[i].qty <= ls[i].qty)
            && (forall i :: 0 <= i < |r| - 1 ==> r[i] == ls[i])
  {
    TakenSums(ls, c);
    TakenLevels(ls, c);
  }

  lemma {:induction false} TakenSums(ls: seq<Level>, c: real)
    requires Positive(ls) && c >= 0.0
    ensures Total(Taken(ls, c)) == Bought(ls, c) && (Covers(ls, c) ==> Turnover(Taken(ls, c)) == c)
  {
    if ls != [] {
      var l := ls[0];
      UnitsExact(l, c);
      assert Level(l.price, l.Units(c)).Worth(l.Units(c)) == l.Spend(c);
      if l.Unspent(c) > 0.0 {
        TakenSums(ls[1..], l.Unspent(c));
        TakenHead(ls, c);
      } else {
        assert Taken(ls, c)[1..] == [];
      }
    }
  }

  lemma {:induction false} TakenLevels(ls: seq<Level>, c: real)
    requires Positive(ls) && c >= 0.0
    ensures var r := Taken(ls, c);
            && |r| == Touched(ls, c)
            && (forall i :: 0 <= i < |r| ==> r[i].price == ls[i].price && 0.0 <= r[i].qty <= ls[i].qty)
            && (forall i :: 0 <= i < |r| - 1 ==> r[i] == ls[i])
  {
    if ls != [] {
      UnitsExact(ls[0], c);
      if ls[0].Unspent(c) > 0.0 {
        TakenLevels(ls[1..], ls[0].Unspent(c));
        TakenHead(ls, c);
      }
    }
  }

  lemma {:induction false} TakenHead(ls: seq<Level>, c: real)
    requires Positive(ls) && ls != [] && ls[0].Unspent(c) > 0.0
    ensures Taken(ls, c)[0] == Level(ls[0].price, ls[0].Units(c))
    ensures Taken(ls, c)[1..] == Taken(ls[1..], ls[0].Unspent(c))
  {
  }

  /** The whole budget is spent if and only if the levels are worth it, and no fewer levels are worth it. */
  lemma {:induction false} BudgetMeaning(ls: seq<Level>, c: real)
    requires Positive(ls) && c > 0.0
    ensures Covers(ls, c) <==> c <= Turnover(ls)
    ensures Covers(ls, c) ==> Touched(ls, c) > 0 && Turnover(ls[..Touched(ls, c) - 1]) < c
    ensures !Covers(ls, c) ==> Touched(ls, c) == |ls|
    ensures Turnover(ls) >= 0.0
  {
    if ls != [] {
      var l, tail, n := ls[0], ls[1..], Touched(ls, c);
      UnitsExact(l, c);
      if l.Unspent(c) <= 0.0 {
        BudgetMeaning(tail, c);
        assert ls[..0] == [];
      } else {
        BudgetMeaning(tail, l.Unspent(c));
        if Covers(ls, c) {
          assert ls[..n - 1][1..] == tail[..n - 2];
        }
      }
    }
  }

  lemma {:induction false} BudgetStep(ls: seq<Level>, i: nat, c: real)
    requires Priced(ls) && i < |ls|
    ensures var tail, c1, one := ls[i + 1..], ls[i].Unspent(c), Level(ls[i].price, ls[i].Units(c));
            if c1 <= 0.0 then
              Covers(ls[i..], c) && Bought(ls[i..], c) == one.qty && Taken(ls[i..], c) == [one]
            else
              && Covers(ls[i..], c) == Covers(tail, c1) && Bought(ls[i..], c) == one.qty + Bought(tail, c1)
              && Taken(ls[i..], c) == [one] + Taken(tail, c1)
  {
    assert ls[i..][0] == ls[i] && ls[i..][1..] == ls[i + 1..];
  }

  /** The budget c, i levels into the walk: what is unspent, bought and taken so far. */
  ghost predicate Spending(ls: seq<Level>, c: real, i: nat, left: real, target: real, taken: seq<Level>)
    requires Priced(ls)
  {
    && i <= |ls|
    && Covers(ls, c) == Covers(ls[i..], left)
    && Bought(ls, c) == target + Bought(ls[i..], left)
    && Taken(ls, c) == taken + Taken(ls[i..], left)
  }

  lemma {:induction false} SpendStart(ls: seq<Level>, c: real)
    requires Priced(ls)
    ensures Spending(ls, c, 0, c, 0.0, [])
  {
    assert ls[0..] == ls && [] + Taken(ls, c) == Taken(ls, c);
  }

  lemma {:induction false} SpendNext(ls: seq<Level>, c: real, i: nat, left: real, target: real, taken: seq<Level>)
    requires Priced(ls) && Spending(ls, c, i, left, target, taken) && i < |ls|
    ensures var left', target' := ls[i].Unspent(left), target + ls[i].Units(left);
            var taken' := taken + [Level(ls[i].price, ls[i].Units(left))];
            if left' <= 0.0 then Covers(ls, c) && Bought(ls, c) == target' && Taken(ls, c) == taken'
            else Spending(ls, c, i + 1, left', target', taken')
  {
    BudgetStep(ls, i, left);
    AppendAssoc(taken, [Level(ls[i].price, ls[i].Units(left))], Taken(ls[i + 1..], ls[i].Unspent(left)));
  }

  lemma {:induction false} SpendEnd(ls: seq<Level>, c: real, left: real, target: real, taken: seq<Level>)
    requires Priced(ls) && Spending(ls, c, |ls|, left, target, taken)
    ensures !Covers(ls, c) && Taken(ls, c) == taken
  {
    assert ls[|ls|..] == [] && taken + [] == taken;
  }

  method FindQtyAndPrice(orders: seq<Level>, budget: real) returns (r: Option<QtyQuote>, taken: seq<Level>)
    requires Priced(Cut(orders))
    ensures var ls := Cut(orders);
            var c := ToDecimal(budget);
            && (r.Some? <==> Covers(ls, c))
            && (r.Some? ==> r.value.qty == Bought(ls, c) && taken != [] && r.value.price == taken[|taken| - 1].price)
            && taken == Taken(ls, c)
  {
    var left, target := ToDecimal(budget), 0.0;
    taken := [];
    ghost var ls, c := Cut(orders), left;
    SpendStart(ls, c);
    for i := 0 to |orders|
      invariant Spending(ls, c, i, left, target, taken)
    {
      SpendNext(ls, c, i, left, target, taken);
      var level := Level(ToDecimal(orders[i].price), ToDecimal(orders[i].qty));
      assert level == ls[i];
      var spend := level.Spend(left);
      var units := spend / level.price;
      target := target + units;
      left := left - spend;
      taken := taken + [Level(level.price, units)];
      if left <= 0.0 {
        return Some(QtyQuote(target, level.price)), taken;
      }
    }
    SpendEnd(ls, c, left, target, taken);
    return None, taken;
  }

  // ---- Budget and cost undo each other ----

  lemma {:induction false} UnitsExact(l: Level, c: real)
    requires l.price > 0.0 && l.qty >= 0.0 && c >= 0.0
    ensures 0.0 <= l.Units(c) <= l.qty
    ensures l.Spent(l.Units(c)) == l.Spend(c) == l.Worth(l.Units(c))
    ensures l.Unspent(c) > 0.0 ==> l.Units(c) == l.qty && l.Spent(l.qty) == l.Spend(c)
    ensures l.Spend(c) >= 0.0
  {
    var s := l.Spend(c);
    assert s / l.price * l.price == s;
    assert l.price * l.qty >= 0.0;
    if s == l.price * l.qty {
      assert s / l.price == l.qty;
    } else {
      assert s / l.price <= l.qty by {
        if s / l.price > l.qty {
          MulMono(l.qty, s / l.price, l.price);
          assert false;
        }
      }
    }
  }

  /** In exact arithmetic the quantity bought for c costs c. */
  lemma {:induction false} BudgetUndone(ls: seq<Level>, c: real)
    requires Positive(ls) && c >= 0.0 && Covers(ls, c)
    ensures 0.0 <= Bought(ls, c) <= Total(ls)
    ensures Cost(ls, Bought(ls, c)) == c
  {
    var l, tail := ls[0], ls[1..];
    UnitsExact(l, c);
    TotalNonNegative(tail);
    if l.Unspent(c) <= 0.0 {
      CostOfNothing(tail);
      assert l.Wanted(l.Units(c)) == 0.0;
    } else {
      BudgetUndone(tail, l.Unspent(c));
      var rest := Bought(tail, l.Unspent(c));
      assert l.Take(l.qty + rest) == l.qty && l.Wanted(l.qty + rest) == rest;
      assert l.Spent(l.qty + rest) == l.Spent(l.qty);
    }
  }

  /** Only the touched levels matter. */
  lemma {:induction false} TouchedOnly(ls: seq<Level>, c: real)
    requires Positive(ls) && Covers(ls, c)
    ensures var used := ls[..Touched(ls, c)];
            used != [] && Covers(used, c) && Bought(used, c) == Bought(ls, c)
  {
    var n := Touched(ls, c);
    if ls[0].Unspent(c) > 0.0 {
      TouchedOnly(ls[1..], ls[0].Unspent(c));
      assert ls[..n][1..] == ls[1..][..n - 1];
    }
  }

  lemma {:induction false} CostPrefix(ls: seq<Level>, n: nat, q: real)
    requires Positive(ls) && n <= |ls| && 0.0 <= q <= Total(ls[..n])
    ensures Cost(ls, q) == Cost(ls[..n], q)
    ensures q <= Total(ls)
    decreases n
  {
    if n == 0 {
      CostOfNothing(ls);
      TotalNonNegative(ls);
    } else {
      assert ls[..n][1..] == ls[1..][..n - 1];
      TotalNonNegative(ls[1..][..n - 1]);
      CostPrefix(ls[1..], n - 1, ls[0].Wanted(q));
    }
  }

  lemma {:induction false} LessOfIt(p: real, d: real)
    requires p > 0.0 && d < 1.0 / SCALE
    ensures Times(p, d) < p / SCALE
  {
    var unit := 1.0 / SCALE;
    assert p * (unit - d) > 0.0;
    assert p * unit == p / SCALE;
  }

  /** Cutting the quantity to 8 places loses less than 10^-8 units at the highest price. */
  lemma {:induction false} CutCost(ls: seq<Level>, q: real, highest: real)
    requires Positive(ls) && 0.0 <= q <= Total(ls) && highest > 0.0
    requires forall i :: 0 <= i < |ls| ==> ls[i].price <= highest
    ensures 0.0 <= Cost(ls, q) - Cost(ls, ToDecimal(q)) < highest / SCALE
  {
    var cut := ToDecimal(q);
    CutLoss(q);
    Slope(ls, cut, q, 0.0, true);
    Slope(ls, cut, q, highest, false);
    LessOfIt(highest, q - cut);
  }

  /**
   What a budget buys costs that budget: exactly in exact arithmetic; with the quantity
   cut to 8 places, no more, and short by less than 10^-8 times the highest price used.
   */
  lemma {:induction false} SpendAndCostUndo(ls: seq<Level>, c: real, highest: real)
    requires Positive(ls) && c >= 0.0 && Covers(ls, c)
    requires highest > 0.0 && forall i :: 0 <= i < Touched(ls, c) ==> ls[i].price <= highest
    ensures Cost(ls, Bought(ls, c)) == c
    ensures var back := Quote(ls, ToDecimal(Bought(ls, c)));
            back.Some? && back.value.cost <= c < back.value.cost + highest / SCALE
  {
    var n, q := Touched(ls, c), Bought(ls, c);
    TouchedOnly(ls, c);
    BudgetUndone(ls[..n], c);
    CutLoss(q);
    CostPrefix(ls, n, q);
    CostPrefix(ls, n, ToDecimal(q));
    CutCost(ls[..n], q, highest);
    QuoteMeaning(ls, ToDecimal(q));
  }
}
