/** The quoter, shown a stack, agrees with what the matcher does to it. */
module QuoteAgreement {
  import opened OrderTypes
  import opened StackModel
  import opened Matching
  import opened Decimals
  import opened PreMatch

  /** The stack as the quoter is given it. */
  function LevelOf(o: OrderData): Level {
    Level(Dec(o.price), Dec(o.left))
  }

  function LevelsOf(s: seq<OrderData>): (ls: seq<Level>)
    ensures |ls| == |s| && forall i :: 0 <= i < |s| ==> ls[i] == LevelOf(s[i])
  {
    seq(|s|, i requires 0 <= i < |s| => LevelOf(s[i]))
  }

  /** Stored prices and quantities have 8 places, so the quoter's cut leaves them alone. */
  lemma {:induction false} CutLeavesStack(s: seq<OrderData>)
    ensures Cut(LevelsOf(s)) == LevelsOf(s)
  {
    forall i | 0 <= i < |s| ensures Cut(LevelsOf(s))[i] == LevelsOf(s)[i] {
      ToTicksOfDec(s[i].price);
      ToTicksOfDec(s[i].left);
    }
  }

  /** A stack's own order, by price and then id, is what makes the quote optimal. */
  lemma {:induction false} StackQuoteIsOptimal(s: seq<OrderData>, op: Operation, a: seq<real>, q: real)
    requires Sorted(DirectionOf(op), s) && AllLeft(s) && forall i :: 0 <= i < |s| ==> s[i].price > 0
    requires q > 0.0 && Allocation(LevelsOf(s), a, q)
    ensures Quote(LevelsOf(s), q).Some?
    ensures if op == Sell then Quote(LevelsOf(s), q).value.cost <= Value(LevelsOf(s), a)
            else Quote(LevelsOf(s), q).value.cost >= Value(LevelsOf(s), a)
  {
    var ls := LevelsOf(s);
    forall i, j | 0 <= i <= j < |ls| ensures Better(op == Sell, ls[i].price, ls[j].price) {
      assert i == j || KeyLess(DirectionOf(op), s[i], s[j]);
      DecMonotone(s[i].price, s[j].price);
      DecMonotone(s[j].price, s[i].price);
    }
    assert BestFirst(ls, op == Sell);
    QuoteIsOptimal(ls, a, q);
  }

  /** The value of a quantity at a price. */
  function Worth(quantity: int, price: int): real {
    Dec(quantity) * Dec(price)
  }

  /** The total value of the trades. */
  function TradeValue(ts: seq<Trade>): real {
    if ts == [] then 0.0 else Worth(ts[0].quantity, ts[0].price) + TradeValue(ts[1..])
  }

  function LastPrice(ts: seq<Trade>): int {
    if ts == [] then 0 else ts[|ts| - 1].price
  }

  lemma {:induction false} LevelSteps(o: OrderData, left: int)
    requires left > 0 && o.left > 0
    ensures LevelOf(o).Wanted(Dec(left)) == Dec(left - Min(left, o.left))
    ensures LevelOf(o).Spent(Dec(left)) == Worth(Min(left, o.left), o.price)
    ensures LevelOf(o).Wanted(Dec(left)) <= 0.0 <==> o.left >= left
  {
    DecMonotone(left, o.left);
    DecMonotone(o.left, left);
    assert Dec(left) - Dec(o.left) == Dec(left - o.left);
    ToTicksOfDec(0);
  }

  lemma {:induction false} QuoteStep(s: seq<OrderData>, left: int)
    requires s != [] && left > 0 && s[0].left > 0
    ensures Quote(LevelsOf(s), Dec(left)) ==
            if s[0].left >= left then Some(CostQuote(Worth(left, s[0].price), Dec(s[0].price)))
            else Plus(Quote(LevelsOf(s[1..]), Dec(left - s[0].left)), Worth(s[0].left, s[0].price))
  {
    LevelSteps(s[0], left);
    assert LevelsOf(s)[1..] == LevelsOf(s[1..]);
  }

  lemma {:induction false} OneTrade(t: OrderData, s: seq<OrderData>)
    requires t.IsMarket() && s != [] && t.left > 0 && s[0].left >= t.left
    ensures var ts := Fill(t, s[..Selected(t, s, t.left)]).trades;
            TradeValue(ts) == Worth(t.left, s[0].price) && LastPrice(ts) == s[0].price
  {
    assert s[..1] == [s[0]] && s[..1][1..] == [];
    var ts := Fill(t, s[..1]).trades;
    assert ts == [Trade(t, s[0], s[0].price, t.left)];
    assert ts[1..] == [];
  }

  /** Selling into the stack earns what the quoter says, if it says anything, and ends at its price. */
  lemma {:induction false} FillValue(t: OrderData, s: seq<OrderData>)
    requires t.IsMarket() && t.left > 0 && AllLeft(s)
    ensures FitsQuote(t, s, Quote(LevelsOf(s), Dec(t.left)))
    decreases |s|
  {
    if s != [] {
      if s[0].left >= t.left {
        QuoteStep(s, t.left);
        OneTrade(t, s);
      } else {
        FillValue(t.Settle(s[0].left), s[1..]);
        ValueStep(t, s, Quote(LevelsOf(s[1..]), Dec(t.left - s[0].left)));
      }
    }
  }

  lemma {:induction false} ValueStep(t: OrderData, s: seq<OrderData>, rest: Option<CostQuote>)
    requires t.IsMarket() && t.left > 0 && AllLeft(s) && s != [] && s[0].left < t.left
    requires rest == Quote(LevelsOf(s[1..]), Dec(t.left - s[0].left))
    requires FitsQuote(t.Settle(s[0].left), s[1..], rest)
    ensures FitsQuote(t, s, Quote(LevelsOf(s), Dec(t.left)))
  {
    QuoteStep(s, t.left);
    TradesStep(t, s);
  }

  /** A quote exactly if the order is filled: the value of its trades, and the price of the last. */
  ghost predicate FitsQuote(t: OrderData, s: seq<OrderData>, quote: Option<CostQuote>) {
    && (quote.Some? <==> Fulfilled(t, s, t.left))
    && (quote.Some? ==>
          var ts := Fill(t, s[..Selected(t, s, t.left)]).trades;
          ts != [] && quote.value == CostQuote(TradeValue(ts), Dec(LastPrice(ts))))
  }

  lemma {:induction false} TradesStep(t: OrderData, s: seq<OrderData>)
    requires t.IsMarket() && t.left > 0 && AllLeft(s) && s != [] && s[0].left < t.left
    ensures var t1 := t.Settle(s[0].left);
            var rest := Fill(t1, s[1..][..Selected(t1, s[1..], t1.left)]).trades;
            var ts := Fill(t, s[..Selected(t, s, t.left)]).trades;
            && Fulfilled(t, s, t.left) == Fulfilled(t1, s[1..], t1.left)
            && TradeValue(ts) == Worth(s[0].left, s[0].price) + TradeValue(rest)
            && (rest != [] ==> LastPrice(ts) == LastPrice(rest))
  {
    var t1 := t.Settle(s[0].left);
    FirstTrade(t, s);
    TradesCons(Trade(t, s[0], s[0].price, s[0].left), Fill(t1, s[1..][..Selected(t1, s[1..], t1.left)]).trades);
  }

  lemma {:induction false} FirstTrade(t: OrderData, s: seq<OrderData>)
    requires t.IsMarket() && t.left > 0 && AllLeft(s) && s != [] && s[0].left < t.left
    ensures var t1 := t.Settle(s[0].left);
            var rest := Fill(t1, s[1..][..Selected(t1, s[1..], t1.left)]).trades;
            && Fulfilled(t, s, t.left) == Fulfilled(t1, s[1..], t1.left)
            && Fill(t, s[..Selected(t, s, t.left)]).trades == [Trade(t, s[0], s[0].price, s[0].left)] + rest
  {
    var t1 := t.Settle(s[0].left);
    SelectedTail(t, t1, s[1..], t1.left);
    var n := Selected(t1, s[1..], t1.left);
    assert s[..n + 1][1..] == s[1..][..n];
  }

  lemma {:induction false} TradesCons(first: Trade, rest: seq<Trade>)
    ensures TradeValue([first] + rest) == Worth(first.quantity, first.price) + TradeValue(rest)
    ensures rest != [] ==> LastPrice([first] + rest) == LastPrice(rest)
  {
    assert ([first] + rest)[1..] == rest;
  }

  /**
   A market sell of q: there is no quote exactly when the sale is cancelled with the
   book untouched; otherwise the quoted cost is the total value of the trades made, and the
   quoted price is that of the last one.
   */
  lemma {:induction false} SaleMatchesQuote(p: Pool, o: OrderData)
    requires o.IsMarket() && o.op == Sell && Incoming(p, o)
    ensures var r := Process(p, o);
            var quote := Quote(Cut(LevelsOf(p.buys)), ToDecimal(Dec(o.left)));
            && (quote.None? <==> r.pool == p)
            && (quote.None? ==> r == Outcome(p, o.Cancel(), []))
            && (quote.Some? ==>
                  && quote.value.cost == TradeValue(r.trades) && r.order.state == Closed
                  && r.trades != [] && quote.value.price == Dec(r.trades[|r.trades| - 1].price))
  {
    CutLeavesStack(p.buys);
    ToTicksOfDec(o.left);
    FillValue(o, p.buys);
    if Fulfilled(o, p.buys, o.left) {
      SaleFilled(p, o);
    }
  }

  lemma {:induction false} SaleFilled(p: Pool, o: OrderData)
    requires o.IsMarket() && o.op == Sell && Incoming(p, o) && Fulfilled(o, p.buys, o.left)
    ensures var r := Process(p, o);
            && r.pool != p && r.order.state == Closed
            && r.trades == Fill(o, p.buys[..Selected(o, p.buys, o.left)]).trades
  {
    ExecutedOrder(p, o);
    var k := FillShape(o, p.buys);
    SomethingSold(p, o, k);
  }

  /** A sale that goes through changes the bids. */
  lemma {:induction false} SomethingSold(p: Pool, o: OrderData, k: nat)
    requires o.IsMarket() && o.op == Sell && Incoming(p, o) && Fulfilled(o, p.buys, o.left)
    requires Shape(o, p.buys, k)
    ensures Process(p, o).pool != p
  {
    ExecutedOrder(p, o);
    var s, r := p.buys, Remainder(o, p.buys);
    var n := Selected(o, s, o.left);
    if k == 0 {
      assert n == 1 && s[..1] == [s[0]];
      var m := SettleMaker(s[0], Min(o.left, s[0].left));
      assert [m][1..] == [];
      assert Fill(o, s[..1]).makers == [m];
      assert r == Open([m]) + s[1..] && |r| == |s|;
      assert Open([m]) == [m];
      assert r[0] == m && m.left < s[0].left;
    }
  }

  /** A budget or cost in units of 10^-16 as a real. */
  function Money(units: int): real {
    units as real / SCALE / SCALE
  }

  /** Dust is what is left of a sell order when it is worth less than 10^-7. */
  lemma {:induction false} DustIff(o: OrderData)
    ensures o.IsDust() <==> o.op == Sell && Dec(o.left) * Dec(o.price) < 0.0000001
  {
    RealProduct(o.left, o.price);
    assert Dec(o.left) * Dec(o.price) == Money(o.left * o.price);
  }

  lemma {:induction false} LevelBudget(o: OrderData, budget: int)
    requires o.left > 0 && o.price > 0
    ensures LevelOf(o).Unspent(Money(budget)) <= 0.0 <==> budget - o.left * o.price <= 0
    ensures budget - o.left * o.price > 0 ==> LevelOf(o).Unspent(Money(budget)) == Money(budget - o.left * o.price)
  {
    RealProduct(o.left, o.price);
    var cost := o.left * o.price;
    assert Dec(o.price) * Dec(o.left) == Money(cost) by {
      assert (o.price as real / SCALE) * (o.left as real / SCALE)
          == (o.left as real) * (o.price as real) / SCALE / SCALE;
    }
    assert Money(budget) <= Money(cost) <==> budget <= cost;
    assert Money(budget) - Money(cost) == Money(budget - cost);
  }

  /**
   A market buy's cost: the matcher fulfils it exactly when the quoter, which cuts levels and
   budget, covers it, and both take the same number of asks from the top.
   */
  lemma {:induction false} BudgetMatchesQuote(s: seq<OrderData>, cost: int)
    requires AllLeft(s) && forall i :: 0 <= i < |s| ==> s[i].price > 0
    ensures var ls, c, budget := Cut(LevelsOf(s)), ToDecimal(Dec(cost)), cost * 100_000_000;
            && (Covers(ls, c) <==> BudgetFulfilled(s, budget))
            && Touched(ls, c) == BudgetSelected(s, budget)
  {
    CutLeavesStack(s);
    ToTicksOfDec(cost);
    assert Dec(cost) == Money(cost * 100_000_000);
    BudgetWalks(s, cost * 100_000_000);
  }

  lemma {:induction false} BudgetWalks(s: seq<OrderData>, budget: int)
    requires AllLeft(s) && forall i :: 0 <= i < |s| ==> s[i].price > 0
    ensures Covers(LevelsOf(s), Money(budget)) <==> BudgetFulfilled(s, budget)
    ensures Touched(LevelsOf(s), Money(budget)) == BudgetSelected(s, budget)
    decreases |s|
  {
    if s != [] {
      LevelBudget(s[0], budget);
      assert LevelsOf(s)[1..] == LevelsOf(s[1..]);
      if budget - s[0].left * s[0].price > 0 {
        BudgetWalks(s[1..], budget - s[0].left * s[0].price);
      }
    }
  }
}
