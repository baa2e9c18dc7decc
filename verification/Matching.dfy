/**
 What processing an order does to the two stacks of its pool (the user pool or the
 bot pool), as a function of their values, and what that function guarantees.
 */
module Matching {
  import opened OrderTypes
  import opened StackModel

  datatype Pool = Pool(buys: seq<OrderData>, sells: seq<OrderData>) {
    function Stack(op: Operation): seq<OrderData> {
      if op == Buy then buys else sells
    }

    function With(op: Operation, s: seq<OrderData>): Pool {
      if op == Buy then this.(buys := s) else this.(sells := s)
    }
  }

  function DirectionOf(op: Operation): Direction {
    if op == Buy then Desc else Asc
  }

  /** How many of the stack's orders, best first, are taken to cover `need`. */
  function Selected(t: OrderData, s: seq<OrderData>, need: int): (n: nat)
    ensures n <= |s|
  {
    if s == [] || !t.Accepts(s[0].price) then 0
    else if s[0].left >= need then 1
    else 1 + Selected(t, s[1..], need - s[0].left)
  }

  /** Whether those orders cover `need`. */
  function Fulfilled(t: OrderData, s: seq<OrderData>, need: int): bool {
    if s == [] || !t.Accepts(s[0].price) then false
    else s[0].left >= need || Fulfilled(t, s[1..], need - s[0].left)
  }

  /** A maker after trading q: closed at zero, cancelled when only dust is left. */
  function SettleMaker(m: OrderData, q: int): OrderData {
    var m' := m.Settle(q);
    if m'.IsDust() then m'.Cancel() else m'
  }

  datatype FillResult = FillResult(taker: OrderData, makers: seq<OrderData>, trades: seq<Trade>)

  /** The taker trades with each maker in turn. */
  function Fill(t: OrderData, ms: seq<OrderData>): (f: FillResult)
    ensures |f.makers| == |f.trades| == |ms|
    decreases |ms|
  {
    if ms == [] then FillResult(t, [], [])
    else
      var q := Min(t.left, ms[0].left);
      var f := Fill(t.Settle(q), ms[1..]);
      FillResult(f.taker,
                 [SettleMaker(ms[0], q)] + f.makers,
                 [Trade(t, ms[0], ms[0].price, q)] + f.trades)
  }

  function Open(s: seq<OrderData>): seq<OrderData> {
    if s == [] then [] else (if s[0].state == Opened then [s[0]] else []) + Open(s[1..])
  }

  lemma {:induction false} OpenOnly(s: seq<OrderData>)
    ensures forall x :: x in Open(s) ==> x in s && x.state == Opened
  {
    if s != [] {
      OpenOnly(s[1..]);
      assert s == [s[0]] + s[1..];
    }
  }

  /** The fill of ms by t0, i makers into it: t is the taker, `kept` still rest, `done` traded. */
  ghost predicate Progress(t0: OrderData, ms: seq<OrderData>, i: nat, t: OrderData, kept: seq<OrderData>,
      done: seq<Trade>) {
    && i <= |ms|
    && var f := Fill(t0, ms);
       var rest := Fill(t, ms[i..]);
       && f.taker == rest.taker
       && Open(f.makers) == kept + Open(rest.makers)
       && f.trades == done + rest.trades
  }

  lemma {:induction false} ProgressStep(t0: OrderData, ms: seq<OrderData>, i: nat, t: OrderData,
      kept: seq<OrderData>, done: seq<Trade>)
    requires i < |ms| && Progress(t0, ms, i, t, kept, done)
    ensures var q := Min(t.left, ms[i].left);
            var m := SettleMaker(ms[i], q);
            Progress(t0, ms, i + 1, t.Settle(q), kept + (if m.state == Opened then [m] else []),
                     done + [Trade(t, ms[i], ms[i].price, q)])
  {
    var q := Min(t.left, ms[i].left);
    assert ms[i..][0] == ms[i] && ms[i..][1..] == ms[i + 1..];
    var next := Fill(t.Settle(q), ms[i + 1..]);
    assert Fill(t, ms[i..]).makers == [SettleMaker(ms[i], q)] + next.makers;
    assert ([SettleMaker(ms[i], q)] + next.makers)[1..] == next.makers;
  }

  /** The stack once the selected orders have traded. */
  function Remainder(t: OrderData, s: seq<OrderData>): seq<OrderData> {
    var n := Selected(t, s, t.left);
    Open(Fill(t, s[..n]).makers) + s[n..]
  }

  datatype Outcome = Outcome(pool: Pool, order: OrderData, trades: seq<Trade>)

  /** The list keeps the entry of an id that is already there. */
  function AddToBook(p: Pool, o: OrderData): Pool {
    if HasId(p.Stack(o.op), o.id) then p else p.With(o.op, Insert(DirectionOf(o.op), p.Stack(o.op), o))
  }

  /** A sell order of which nothing or only dust is left goes out of its own stack, should its id be there. */
  function Swept(p: Pool, o: OrderData): Pool {
    if o.IsDust() && !o.IsMarket() then p.With(o.op, Without(p.Stack(o.op), o.id)) else p
  }

  function Execute(p: Pool, o: OrderData): Outcome {
    var s := p.Stack(o.op.Other());
    var f := Fill(o, s[..Selected(o, s, o.left)]);
    var taker := if f.taker.IsDust() then f.taker.Cancel() else f.taker;
    Outcome(Swept(p.With(o.op.Other(), Remainder(o, s)), taker), taker, f.trades)
  }

  lemma {:induction false} FreshExecute(p: Pool, o: OrderData)
    requires !HasId(p.Stack(o.op), o.id)
    ensures var r := Execute(p, o);
            r.order.op == o.op && r.order.id == o.id ==>
              r.pool == p.With(o.op.Other(), Remainder(o, p.Stack(o.op.Other())))
  {
    NothingWithout(p.Stack(o.op), o.id);
  }

  function Process(p: Pool, o: OrderData): Outcome {
    var s := p.Stack(o.op.Other());
    if o.state != Opened || HasId(s, o.id) then Outcome(p, o, [])
    else if o.IsMarket() then
      if !Fulfilled(o, s, o.left) then Outcome(p, o.Cancel(), [])
      else
        var r := Execute(p, o);
        if r.order.state == Opened && o.kind != Exchange then r.(pool := AddToBook(r.pool, r.order)) else r
    else if s == [] || !o.Accepts(s[0].price) then Outcome(AddToBook(p, o), o, [])
    else
      var r := Execute(p, o);
      if r.order.state == Opened then r.(pool := AddToBook(r.pool, r.order)) else r
  }

  // ---- The invariant of a pool ----

  ghost predicate Resting(o: OrderData, op: Operation, bot: bool) {
    && o.op == op && o.bot == bot && o.state == Opened && !o.IsMarket()
    && o.left > 0 && o.price > 0
    && (o.otcUpdated ==> o.WithinOtcLimit())
  }

  ghost predicate StackInv(s: seq<OrderData>, op: Operation, bot: bool) {
    Sorted(DirectionOf(op), s) && UniqueIds(s) && forall o :: o in s ==> Resting(o, op, bot)
  }

  /** Every bid is strictly below every ask. */
  ghost predicate Uncrossed(p: Pool) {
    forall b, a :: b in p.buys && a in p.sells ==> b.price < a.price
  }

  ghost predicate PoolInv(p: Pool, bot: bool) {
    StackInv(p.buys, Buy, bot) && StackInv(p.sells, Sell, bot) && Uncrossed(p)
  }

  /** Asks stand from the cheapest, bids from the dearest, and at one price the lower id is first. */
  lemma {:induction false} StacksInOrder(p: Pool, bot: bool)
    requires PoolInv(p, bot)
    ensures forall i, j :: 0 <= i < j < |p.sells| ==>
              var x, y := p.sells[i], p.sells[j];
              x.price < y.price || (x.price == y.price && x.id < y.id)
    ensures forall i, j :: 0 <= i < j < |p.buys| ==>
              var x, y := p.buys[i], p.buys[j];
              x.price > y.price || (x.price == y.price && x.id < y.id)
  {
    assert Sorted(Asc, p.sells) && Sorted(Desc, p.buys);
  }

  /** An order as it comes to the book: an open one has something to trade. */
  ghost predicate Sane(o: OrderData) {
    && (o.state == Opened ==> o.left > 0)
    && (!o.IsMarket() ==> o.price > 0)
    && (o.otcUpdated ==> o.WithinOtcLimit())
  }

  // ---- How a fill goes ----

  ghost predicate AllLeft(s: seq<OrderData>) {
    forall i :: 0 <= i < |s| ==> s[i].state == Opened && s[i].left > 0
  }

  /** The same order with less, but not nothing, left. */
  ghost predicate Shrunk(a: OrderData, b: OrderData) {
    b == a.(left := b.left) && 0 < b.left <= a.left
  }

  /** s' is s without its first k orders, the next of which may have shrunk. */
  ghost predicate IsSuffix(s: seq<OrderData>, k: nat, s': seq<OrderData>) {
    && k <= |s| && |s'| == |s| - k
    && (k < |s| ==> Shrunk(s[k], s'[0]))
    && forall i :: 0 < i < |s'| ==> s'[i] == s[k + i]
  }

  function SumLeft(s: seq<OrderData>): int {
    if s == [] then 0 else s[0].left + SumLeft(s[1..])
  }

  /**
   Either the taker is used up, and then only the last selected maker can be left
   over; or every selected maker is gone and the next one is not acceptable.
   */
  ghost predicate Shape(t: OrderData, s: seq<OrderData>, k: nat) {
    var n := Selected(t, s, t.left);
    var taker := Fill(t, s[..n]).taker;
    k <= n <= k + 1 && IsSuffix(s, k, Remainder(t, s)) && TakerShape(t, s, k, n, taker)
  }

  ghost predicate TakerShape(t: OrderData, s: seq<OrderData>, k: nat, n: nat, taker: OrderData)
    requires n <= |s|
  {
    if Fulfilled(t, s, t.left)
    then 0 < n && taker == t.(left := 0, state := Closed)
    else k == n && taker == t.(left := t.left - SumLeft(s[..n])) && taker.left > 0
         && (n < |s| ==> !t.Accepts(s[n].price))
  }

  lemma {:induction false} FillShape(t: OrderData, s: seq<OrderData>) returns (k: nat)
    requires t.state == Opened && t.left > 0 && AllLeft(s)
    ensures Shape(t, s, k)
    decreases |s|
  {
    if s == [] || !t.Accepts(s[0].price) {
      k := 0;
      NoMaker(t, s);
    } else if s[0].left >= t.left {
      k := LastMaker(t, s);
    } else {
      k := FillShape(t.Settle(s[0].left), s[1..]);
      ShapeStep(t, s, k);
      k := k + 1;
    }
  }

  lemma {:induction false} NoMaker(t: OrderData, s: seq<OrderData>)
    requires t.state == Opened && t.left > 0 && AllLeft(s) && (s == [] || !t.Accepts(s[0].price))
    ensures Shape(t, s, 0)
  {
    assert s[..0] == [];
    assert Remainder(t, s) == s;
  }

  lemma {:induction false} ShapeStep(t: OrderData, s: seq<OrderData>, k: nat)
    requires t.state == Opened && t.left > 0 && AllLeft(s)
    requires s != [] && t.Accepts(s[0].price) && s[0].left < t.left
    requires Shape(t.Settle(s[0].left), s[1..], k)
    ensures Shape(t, s, k + 1)
  {
    RemainderStep(t, s);
    SuffixShift(s, k, Remainder(t, s));
    TakerStep(t, s, k);
  }

  lemma {:induction false} TakerStep(t: OrderData, s: seq<OrderData>, k: nat)
    requires t.state == Opened && t.left > 0 && AllLeft(s)
    requires s != [] && t.Accepts(s[0].price) && s[0].left < t.left
    requires var t1 := t.Settle(s[0].left);
             var n := Selected(t1, s[1..], t1.left);
             TakerShape(t1, s[1..], k, n, Fill(t1, s[1..][..n]).taker)
    ensures var n := Selected(t, s, t.left);
            TakerShape(t, s, k + 1, n, Fill(t, s[..n]).taker)
  {
    RemainderStep(t, s);
    var t1 := t.Settle(s[0].left);
    var n := Selected(t1, s[1..], t1.left);
    assert n < |s[1..]| ==> s[1..][n] == s[n + 1];
  }

  lemma {:induction false} LastMaker(t: OrderData, s: seq<OrderData>) returns (k: nat)
    requires t.state == Opened && t.left > 0 && AllLeft(s)
    requires s != [] && t.Accepts(s[0].price) && s[0].left >= t.left
    ensures Shape(t, s, k)
  {
    assert s[..1] == [s[0]];
    assert s[..1][1..] == [];
    var m := SettleMaker(s[0], t.left);
    assert Fill(t, s[..1]).makers == [m];
    assert [m][1..] == [];
    assert Open([m]) == if m.state == Opened then [m] else [];
    k := if m.state == Opened then 0 else 1;
    assert Remainder(t, s) == Open([m]) + s[1..];
  }

  lemma {:induction false} SuffixShift(s: seq<OrderData>, k: nat, s': seq<OrderData>)
    requires s != [] && IsSuffix(s[1..], k, s')
    ensures IsSuffix(s, k + 1, s')
  {
    assert forall i :: 0 <= i < |s[1..]| ==> s[1..][i] == s[i + 1];
  }

  /** A maker that is not enough for the taker is gone after its trade. */
  lemma {:induction false} RemainderStep(t: OrderData, s: seq<OrderData>)
    requires t.state == Opened && t.left > 0 && AllLeft(s)
    requires s != [] && t.Accepts(s[0].price) && s[0].left < t.left
    ensures var t1 := t.Settle(s[0].left);
            var n := Selected(t1, s[1..], t1.left);
            && Selected(t, s, t.left) == n + 1
            && Fulfilled(t, s, t.left) == Fulfilled(t1, s[1..], t1.left)
            && Remainder(t, s) == Remainder(t1, s[1..])
            && Fill(t, s[..n + 1]).taker == Fill(t1, s[1..][..n]).taker
            && SumLeft(s[..n + 1]) == s[0].left + SumLeft(s[1..][..n])
  {
    var t1 := t.Settle(s[0].left);
    SelectedStep(t, s);
    var n := Selected(t1, s[1..], t1.left);
    assert s[..n + 1][1..] == s[1..][..n];
    var rest := Fill(t1, s[1..][..n]);
    var f := Fill(t, s[..n + 1]);
    assert f.makers[1..] == rest.makers;
    assert Open(f.makers) == Open(rest.makers);
    assert s[n + 1..] == s[1..][n..];
  }

  lemma {:induction false} SelectedStep(t: OrderData, s: seq<OrderData>)
    requires t.left > 0 && s != [] && t.Accepts(s[0].price) && s[0].left < t.left
    ensures var t1 := t.Settle(s[0].left);
            && Selected(t, s, t.left) == Selected(t1, s[1..], t1.left) + 1
            && Fulfilled(t, s, t.left) == Fulfilled(t1, s[1..], t1.left)
  {
    var t1 := t.Settle(s[0].left);
    SelectedTail(t, t1, s[1..], t1.left);
  }

  /** What is accepted does not depend on how much is left. */
  lemma {:induction false} SelectedTail(t: OrderData, t1: OrderData, s: seq<OrderData>, need: int)
    requires t1 == t.(left := t1.left, state := t1.state)
    ensures Selected(t, s, need) == Selected(t1, s, need)
    ensures Fulfilled(t, s, need) == Fulfilled(t1, s, need)
  {
    if s != [] {
      SelectedTail(t, t1, s[1..], need - s[0].left);
    }
  }

  function Max0(x: int): int {
    if x < 0 then 0 else x
  }

  /** What maker i gives a taker of `need`: all it has until the need is met. */
  function Share(s: seq<OrderData>, need: int, i: nat): int
    requires i < |s|
  {
    Min(s[i].left, Max0(need - SumLeft(s[..i])))
  }

  lemma {:induction false} SumLeftSnoc(s: seq<OrderData>, i: nat)
    requires i < |s|
    ensures SumLeft(s[..i + 1]) == SumLeft(s[..i]) + s[i].left
    decreases i
  {
    if i > 0 {
      SumLeftSnoc(s[1..], i - 1);
      assert s[..i + 1][1..] == s[1..][..i] && s[..i][1..] == s[1..][..i - 1];
    } else {
      assert s[..0] == [] && s[..1] == [s[0]] && [s[0]][1..] == [];
    }
  }

  /** The walk over a stack, i candidates into it, all taken: they hold this quantity. */
  ghost predicate Walked(t: OrderData, s: seq<OrderData>, i: nat, quantity: int) {
    && i <= |s| && quantity == SumLeft(s[..i])
    && Selected(t, s, t.left) == i + Selected(t, s[i..], t.left - quantity)
    && Fulfilled(t, s, t.left) == Fulfilled(t, s[i..], t.left - quantity)
  }

  lemma {:induction false} WalkStart(t: OrderData, s: seq<OrderData>)
    ensures Walked(t, s, 0, 0)
  {
    assert s[0..] == s && s[..0] == [];
  }

  /** One more candidate: the walk ends with it when it is enough. */
  lemma {:induction false} WalkNext(t: OrderData, s: seq<OrderData>, i: nat, quantity: int)
    requires Walked(t, s, i, quantity) && i < |s| && t.Accepts(s[i].price)
    ensures quantity + s[i].left == SumLeft(s[..i + 1])
    ensures if quantity + s[i].left >= t.left then Selected(t, s, t.left) == i + 1 && Fulfilled(t, s, t.left)
            else Walked(t, s, i + 1, quantity + s[i].left)
  {
    assert s[i..][0] == s[i] && s[i..][1..] == s[i + 1..];
    SumLeftSnoc(s, i);
  }

  /** No candidate, or one that is refused: the walk ends before it. */
  lemma {:induction false} WalkEnd(t: OrderData, s: seq<OrderData>, i: nat, quantity: int)
    requires Walked(t, s, i, quantity) && (i < |s| ==> !t.Accepts(s[i].price))
    ensures Selected(t, s, t.left) == i && !Fulfilled(t, s, t.left)
  {
  }

  /** How many asks, best first, a budget in units of 10^-16 takes. */
  function BudgetSelected(s: seq<OrderData>, budget: int): (n: nat)
    ensures n <= |s|
  {
    if s == [] then 0
    else if budget - s[0].left * s[0].price <= 0 then 1
    else 1 + BudgetSelected(s[1..], budget - s[0].left * s[0].price)
  }

  function BudgetFulfilled(s: seq<OrderData>, budget: int): bool {
    s != [] && (budget - s[0].left * s[0].price <= 0 || BudgetFulfilled(s[1..], budget - s[0].left * s[0].price))
  }

  /** The walk over the asks, i of them taken, with this much of the budget left. */
  ghost predicate BudgetWalked(s: seq<OrderData>, budget: int, i: nat, quantity: int, left: int) {
    && i <= |s| && quantity == SumLeft(s[..i])
    && BudgetSelected(s, budget) == i + BudgetSelected(s[i..], left)
    && BudgetFulfilled(s, budget) == BudgetFulfilled(s[i..], left)
  }

  lemma {:induction false} BudgetStart(s: seq<OrderData>, budget: int)
    ensures BudgetWalked(s, budget, 0, 0, budget)
  {
    assert s[0..] == s && s[..0] == [];
  }

  lemma {:induction false} BudgetNext(s: seq<OrderData>, budget: int, i: nat, quantity: int, left: int)
    requires BudgetWalked(s, budget, i, quantity, left) && i < |s|
    ensures var left', quantity' := left - s[i].left * s[i].price, quantity + s[i].left;
            && quantity' == SumLeft(s[..i + 1])
            && if left' <= 0 then BudgetSelected(s, budget) == i + 1 && BudgetFulfilled(s, budget)
               else BudgetWalked(s, budget, i + 1, quantity', left')
  {
    assert s[i..][0] == s[i] && s[i..][1..] == s[i + 1..];
    SumLeftSnoc(s, i);
  }

  lemma {:induction false} BudgetEnd(s: seq<OrderData>, budget: int, quantity: int, left: int)
    requires BudgetWalked(s, budget, |s|, quantity, left)
    ensures BudgetSelected(s, budget) == |s| && !BudgetFulfilled(s, budget)
  {
  }

  function SumQuantity(ts: seq<Trade>): int {
    if ts == [] then 0 else ts[0].quantity + SumQuantity(ts[1..])
  }

  /** Trade by trade: who, at which price, how much, and what is left of the maker. */
  lemma {:induction false} FillTrades(t: OrderData, ms: seq<OrderData>, i: nat)
    requires AllLeft(ms) && t.left >= 0 && i < |ms|
    ensures var f := Fill(t, ms);
            && f.trades[i].maker == ms[i] && f.trades[i].price == ms[i].price
            && f.trades[i].quantity == Share(ms, t.left, i)
            && f.makers[i] == SettleMaker(ms[i], f.trades[i].quantity)
            && f.trades[i].taker == t.(left := f.trades[i].taker.left, state := f.trades[i].taker.state)
    decreases i
  {
    if i == 0 {
      assert ms[..0] == [];
    } else {
      var t1 := t.Settle(Min(t.left, ms[0].left));
      FillTrades(t1, ms[1..], i - 1);
      assert ms[..i][1..] == ms[1..][..i - 1];
      SumLeftNonNegative(ms[1..], i - 1);
    }
  }

  /** The taker of each trade is what the trade before left of it, open as long as something is. */
  lemma {:induction false} FillTakers(t: OrderData, ms: seq<OrderData>, i: nat)
    requires AllLeft(ms) && t.left >= 0 && (t.state == Opened <==> t.left > 0) && i < |ms|
    ensures var ts := Fill(t, ms).trades;
            && ts[i].taker == (if i == 0 then t else ts[i - 1].taker.Settle(ts[i - 1].quantity))
            && ts[i].quantity <= ts[i].taker.left && (ts[i].taker.state == Opened <==> ts[i].taker.left > 0)
    decreases i
  {
    if i > 0 {
      FillTakers(t.Settle(Min(t.left, ms[0].left)), ms[1..], i - 1);
    }
  }

  lemma {:induction false} SumLeftNonNegative(s: seq<OrderData>, i: nat)
    requires AllLeft(s) && i <= |s|
    ensures SumLeft(s[..i]) >= 0
    decreases i
  {
    if i > 0 {
      SumLeftNonNegative(s[1..], i - 1);
      assert s[..i][1..] == s[1..][..i - 1];
    }
  }

  /** What the taker loses is what the trades moved. */
  lemma {:induction false} FillConserves(t: OrderData, ms: seq<OrderData>)
    ensures var f := Fill(t, ms); t.left - f.taker.left == SumQuantity(f.trades)
    ensures SumLeft(ms) - SumLeft(Fill(t, ms).makers) == SumQuantity(Fill(t, ms).trades)
    decreases |ms|
  {
    if ms != [] {
      var q := Min(t.left, ms[0].left);
      FillConserves(t.Settle(q), ms[1..]);
      var f := Fill(t, ms);
      var rest := Fill(t.Settle(q), ms[1..]);
      assert f.trades[1..] == rest.trades && f.makers[1..] == rest.makers;
    }
  }

  /** Everything in a stack that a taker would accept, wherever it stands. */
  function Available(t: OrderData, s: seq<OrderData>): int {
    if s == [] then 0 else (if t.Accepts(s[0].price) then s[0].left else 0) + Available(t, s[1..])
  }

  /** Beyond the first price that is refused, every price is refused. */
  lemma {:induction false} NoneAvailable(t: OrderData, s: seq<OrderData>)
    requires Sorted(DirectionOf(t.op.Other()), s)
    requires s != [] && !t.Accepts(s[0].price)
    ensures Available(t, s) == 0
    ensures forall x :: x in s ==> !t.Accepts(x.price)
    decreases |s|
  {
    if |s| > 1 {
      assert KeyLess(DirectionOf(t.op.Other()), s[0], s[1]);
      NoneAvailable(t, s[1..]);
    }
    assert s == [s[0]] + s[1..];
  }

  /** Walking the stack from its top finds everything that is acceptable. */
  lemma {:induction false} SelectionIsComplete(t: OrderData, s: seq<OrderData>, need: int)
    requires Sorted(DirectionOf(t.op.Other()), s) && AllLeft(s) && need > 0
    ensures Fulfilled(t, s, need) <==> Available(t, s) >= need
    ensures !Fulfilled(t, s, need) ==> SumLeft(s[..Selected(t, s, need)]) == Available(t, s)
    ensures Available(t, s) >= 0
    decreases |s|
  {
    if s == [] {
    } else if !t.Accepts(s[0].price) {
      NoneAvailable(t, s);
      assert s[..0] == [];
    } else if s[0].left >= need {
      AvailableNonNegative(t, s[1..]);
    } else {
      SelectionIsComplete(t, s[1..], need - s[0].left);
      var n := Selected(t, s, need);
      assert s[..n][1..] == s[1..][..n - 1];
    }
  }

  lemma {:induction false} AvailableNonNegative(t: OrderData, s: seq<OrderData>)
    requires AllLeft(s)
    ensures Available(t, s) >= 0
    decreases |s|
  {
    if s != [] {
      AvailableNonNegative(t, s[1..]);
    }
  }

  /** Every selected maker but the last is needed in full, and the last is needed. */
  lemma {:induction false} SelectedShares(t: OrderData, s: seq<OrderData>, need: int, i: nat)
    requires AllLeft(s) && need > 0 && i < Selected(t, s, need)
    ensures t.Accepts(s[i].price)
    ensures need - SumLeft(s[..i]) > 0
    ensures i + 1 < Selected(t, s, need) ==> s[i].left < need - SumLeft(s[..i])
    decreases i
  {
    if i == 0 {
      assert s[..0] == [];
    } else {
      SelectedShares(t, s[1..], need - s[0].left, i - 1);
      assert s[..i][1..] == s[1..][..i - 1];
    }
  }

  ghost predicate Incoming(p: Pool, o: OrderData) {
    var s := p.Stack(o.op.Other());
    && o.state == Opened && o.left > 0
    && AllLeft(s) && Sorted(DirectionOf(o.op.Other()), s) && !HasId(s, o.id)
  }

  lemma {:induction false} PoolAllLeft(p: Pool, o: OrderData)
    requires PoolInv(p, o.bot) && Sane(o) && o.state == Opened && !HasId(p.Stack(o.op.Other()), o.id)
    ensures Incoming(p, o)
  {
    var s := p.Stack(o.op.Other());
    forall i | 0 <= i < |s| ensures s[i].state == Opened && s[i].left > 0 {
      assert s[i] in s;
    }
  }

  lemma {:induction false} ExecutedOrder(p: Pool, o: OrderData)
    requires Incoming(p, o)
    ensures var r := Execute(p, o);
            var s := p.Stack(o.op.Other());
            && r.order == o.(left := r.order.left, state := r.order.state)
            && r.pool.Stack(o.op) == Swept(p, r.order).Stack(o.op) && r.pool.Stack(o.op.Other()) == Remainder(o, s)
            && o.left - r.order.left == SumQuantity(r.trades)
            && if Fulfilled(o, s, o.left) then r.order.state == Closed && r.order.left == 0
               else r.order.left == o.left - SumLeft(s[..Selected(o, s, o.left)]) > 0
                    && r.order.state == if r.order.IsDust() then Canceled else Opened
  {
    var s := p.Stack(o.op.Other());
    var k := FillShape(o, s);
    FillConserves(o, s[..Selected(o, s, o.left)]);
  }

  /** An order that meets nothing acceptable, so that it rests at once. */
  predicate MeetsNothing(p: Pool, o: OrderData) {
    var s := p.Stack(o.op.Other());
    !o.IsMarket() && (s == [] || !o.Accepts(s[0].price))
  }

  lemma {:induction false} RestsAtOnce(p: Pool, o: OrderData)
    requires Incoming(p, o) && MeetsNothing(p, o)
    ensures Process(p, o) == Outcome(AddToBook(p, o), o, [])
    ensures var s := p.Stack(o.op.Other());
            !Fulfilled(o, s, o.left) && Selected(o, s, o.left) == 0 && Remainder(o, s) == s
            && Process(p, o).pool.Stack(o.op.Other()) == s
  {
    var s := p.Stack(o.op.Other());
    assert s[..0] == [];
  }

  /** The order's own stack afterwards: with the order, if it is still open, or swept of its id, or as it was. */
  function OwnAfter(p: Pool, r: Outcome): seq<OrderData> {
    if r.order.state == Opened then AddToBook(p, r.order).Stack(r.order.op)
    else if r.trades != [] then Swept(p, r.order).Stack(r.order.op)
    else p.Stack(r.order.op)
  }

  /** Where the order itself ends: out of its stack, or in it because it is still open. */
  lemma {:induction false} ProcessOrder(p: Pool, o: OrderData)
    requires Incoming(p, o)
    ensures var r := Process(p, o);
            && r.order == o.(left := r.order.left, state := r.order.state)
            && r.pool.Stack(o.op) == OwnAfter(p, r)
            && (r.order.state == Opened ==>
                  && r.order.left > 0 && !o.IsMarket() && !Fulfilled(o, p.Stack(o.op.Other()), o.left)
                  && r.pool.Stack(o.op.Other()) == Remainder(o, p.Stack(o.op.Other())))
  {
    if MeetsNothing(p, o) {
      RestsAtOnce(p, o);
    } else {
      ExecutedOrder(p, o);
    }
  }

  /** An order that can be matched is executed; what then rests is still open. */
  lemma {:induction false} ExecutesAtOnce(p: Pool, o: OrderData)
    requires Incoming(p, o) && if o.IsMarket() then Fulfilled(o, p.Stack(o.op.Other()), o.left) else !MeetsNothing(p, o)
    ensures Process(p, o).order == Execute(p, o).order && Process(p, o).trades == Execute(p, o).trades
    ensures Process(p, o).pool.Stack(o.op.Other()) == Execute(p, o).pool.Stack(o.op.Other())
    ensures Selected(o, p.Stack(o.op.Other()), o.left) > 0
  {
    var s := p.Stack(o.op.Other());
    assert s != [] && o.Accepts(s[0].price);
    var e := Execute(p, o);
    assert AddToBook(e.pool, e.order).Stack(e.order.op.Other()) == e.pool.Stack(e.order.op.Other());
    assert e.order.op == o.op by { ExecutedOrder(p, o); }
    assert Process(p, o).pool == e.pool || Process(p, o).pool == AddToBook(e.pool, e.order);
  }

  /**
   One limit order against a whole stack: the amount filled is the smaller of what it
   wants and everything acceptable in the stack; what is then left of the order rests
   or, as dust of a sell, is cancelled.
   */
  lemma {:induction false} LimitOrderFilled(p: Pool, o: OrderData)
    requires Incoming(p, o) && !o.IsMarket()
    ensures var r := Process(p, o);
            var filled := Min(o.left, Available(o, p.Stack(o.op.Other())));
            && SumQuantity(r.trades) == filled
            && r.order == o.(left := o.left - filled, state := r.order.state)
            && r.order.state == (if filled == o.left then Closed
                                 else if filled > 0 && r.order.IsDust() then Canceled else Opened)
            && r.pool.Stack(o.op) == (if r.order.state == Opened then
                                        if HasId(p.Stack(o.op), o.id) then p.Stack(o.op)
                                        else Insert(DirectionOf(o.op), p.Stack(o.op), r.order)
                                      else if r.order.IsDust() then Without(p.Stack(o.op), o.id)
                                      else p.Stack(o.op))
  {
    ProcessOrder(p, o);
    LimitOrderTrades(p, o);
  }

  lemma {:induction false} LimitOrderTrades(p: Pool, o: OrderData)
    requires Incoming(p, o) && !o.IsMarket()
    ensures var r := Process(p, o);
            var filled := Min(o.left, Available(o, p.Stack(o.op.Other())));
            && SumQuantity(r.trades) == filled && r.order.left == o.left - filled
            && r.order.state == (if filled == o.left then Closed
                                 else if filled > 0 && r.order.IsDust() then Canceled else Opened)
  {
    var s := p.Stack(o.op.Other());
    SelectionIsComplete(o, s, o.left);
    if MeetsNothing(p, o) {
      RestsAtOnce(p, o);
      assert s[..0] == [];
    } else {
      ExecutesAtOnce(p, o);
      ExecutedOrder(p, o);
      SumLeftPositive(s, Selected(o, s, o.left));
    }
  }

  /** Whether an order will be left open, told from the stacks: they hold less, and what is left is no dust. */
  predicate EndsOpen(p: Pool, o: OrderData) {
    var filled := Min(o.left, Available(o, p.Stack(o.op.Other())));
    filled < o.left && (filled == 0 || !o.(left := o.left - filled).IsDust())
  }

  lemma {:induction false} EndsOpenIff(p: Pool, o: OrderData)
    requires Incoming(p, o) && !o.IsMarket()
    ensures EndsOpen(p, o) <==> Process(p, o).order.state == Opened
    ensures MeetsNothing(p, o) <==> Process(p, o).trades == []
    ensures MeetsNothing(p, o) ==> EndsOpen(p, o)
  {
    LimitOrderFilled(p, o);
    if MeetsNothing(p, o) {
      RestsAtOnce(p, o);
    } else {
      ExecutesAtOnce(p, o);
    }
  }

  /** The list holds the order's id at the order's price. */
  predicate HoldsKey(s: seq<OrderData>, o: OrderData) {
    exists i :: 0 <= i < |s| && SameKey(s[i], o)
  }

  /**
   An order that comes in though its id is in its own stack at another price, and is left
   open: the id map then holds it under the new price, the list under the old one.
   */
  predicate TakesApart(p: Pool, o: OrderData) {
    && o.state == Opened && !o.IsMarket() && !HasId(p.Stack(o.op.Other()), o.id)
    && HasId(p.Stack(o.op), o.id) && !HoldsKey(p.Stack(o.op), o) && EndsOpen(p, o)
  }

  /** An order at the key of an entry of an uncrossed pool meets nothing, as that entry did. */
  lemma {:induction false} HeldMeetsNothing(p: Pool, o: OrderData, e: OrderData)
    requires PoolInv(p, o.bot) && !o.IsMarket() && e in p.Stack(o.op) && e.price == o.price
    ensures MeetsNothing(p, o)
  {
    var s := p.Stack(o.op.Other());
    if s != [] {
      assert s[0] in s;
      assert if o.op == Buy then e.price < s[0].price else s[0].price < e.price;
    }
  }

  lemma {:induction false} SumLeftPositive(s: seq<OrderData>, n: nat)
    requires AllLeft(s) && 0 < n <= |s|
    ensures SumLeft(s[..n]) > 0
  {
    SumLeftNonNegative(s[1..], n - 1);
    assert s[..n][1..] == s[1..][..n - 1];
  }

  /**
   Its trades: best first, at the makers' own prices, all acceptable; each maker but
   the last is exhausted before a worse one trades.
   */
  lemma {:induction false} OrderTrades(p: Pool, o: OrderData, i: nat)
    requires Incoming(p, o) && i < |Process(p, o).trades|
    ensures var s := p.Stack(o.op.Other());
            var ts := Process(p, o).trades;
            && |ts| <= |s|
            && ts[i].maker == s[i] && ts[i].price == s[i].price && o.Accepts(s[i].price)
            && ts[i].quantity == Share(s, o.left, i) > 0
            && (i + 1 < |ts| ==> ts[i].quantity == s[i].left)
  {
    var s := p.Stack(o.op.Other());
    var n := Selected(o, s, o.left);
    FillTrades(o, s[..n], i);
    SelectedShares(o, s, o.left, i);
    assert s[..n][..i] == s[..i];
  }

  /**
   Price, then id: of two orders of the opposite stack, the one with the worse price, or with
   the same price and the higher id, trades only after the other has given all it had.
   */
  lemma {:induction false} PriceThenId(p: Pool, o: OrderData, bot: bool, a: OrderData, b: OrderData,
      j: nat) returns (i: nat)
    requires PoolInv(p, bot) && Incoming(p, o) && a in p.Stack(o.op.Other()) && b in p.Stack(o.op.Other())
    requires (if o.op == Buy then a.price < b.price else a.price > b.price) || (a.price == b.price && a.id < b.id)
    requires j < |Process(p, o).trades| && Process(p, o).trades[j].maker == b
    ensures var ts := Process(p, o).trades;
            i < j && ts[i].maker == a && ts[i].price == a.price && ts[i].quantity == a.left
  {
    var s := p.Stack(o.op.Other());
    i :| 0 <= i < |s| && s[i] == a;
    var k :| 0 <= k < |s| && s[k] == b;
    assert i < k;
    OrderTrades(p, o, j);
    assert j == k;
    OrderTrades(p, o, i);
  }

  /** Exactly the used-up makers leave: the stack keeps its tail, whose head may have shrunk. */
  lemma {:induction false} LimitOrderRemainder(p: Pool, o: OrderData) returns (k: nat)
    requires Incoming(p, o)
    ensures var r := Process(p, o);
            k <= |r.trades| <= k + 1 && IsSuffix(p.Stack(o.op.Other()), k, r.pool.Stack(o.op.Other()))
  {
    k := 0;
    if MeetsNothing(p, o) {
      RestsAtOnce(p, o);
    } else if !o.IsMarket() || Fulfilled(o, p.Stack(o.op.Other()), o.left) {
      k := FillShape(o, p.Stack(o.op.Other()));
      ExecutesAtOnce(p, o);
      ExecutedOrder(p, o);
    }
  }

  /**
   What a trade leaves of its maker: it stays in its place with so much less, or is gone when
   nothing is left or, of a sell, less than the smallest cost kept in a book.
   */
  lemma {:induction false} MakerAfter(p: Pool, o: OrderData, bot: bool, i: nat)
    requires PoolInv(p, bot) && Incoming(p, o) && i < |Process(p, o).trades|
    ensures var s, r := p.Stack(o.op.Other()), Process(p, o);
            var left := s[i].left - r.trades[i].quantity;
            if left == 0 || (s[i].op == Sell && left * s[i].price < 1_000_000_000)
            then !HasId(r.pool.Stack(o.op.Other()), s[i].id)
            else s[i].(left := left) in r.pool.Stack(o.op.Other())
  {
    var s := p.Stack(o.op.Other());
    OrderTrades(p, o, i);
    TradesOfFill(p, o);
    ExecutesWithTrades(p, o);
    MakersAfter(o, s, Selected(o, s, o.left), i);
  }

  lemma {:induction false} MakersAfter(o: OrderData, s: seq<OrderData>, n: nat, i: nat)
    requires AllLeft(s) && UniqueIds(s) && o.left > 0 && i < n <= |s|
    ensures var f := Fill(o, s[..n]);
            var r, left := Open(f.makers) + s[n..], s[i].left - f.trades[i].quantity;
            if left == 0 || (s[i].op == Sell && left * s[i].price < 1_000_000_000) then !HasId(r, s[i].id)
            else s[i].(left := left) in r
  {
    var ms := Fill(o, s[..n]).makers;
    FillTrades(o, s[..n], i);
    if ms[i].state == Opened {
      OpenKeeps(ms, i);
    } else {
      forall j | 0 <= j < n ensures ms[j].id == s[j].id { FillTrades(o, s[..n], j); }
      GoneMaker(s, n, ms, i);
    }
  }

  lemma {:induction false} GoneMaker(s: seq<OrderData>, n: nat, ms: seq<OrderData>, i: nat)
    requires UniqueIds(s) && i < n == |ms| <= |s| && forall j :: 0 <= j < n ==> ms[j].id == s[j].id
    requires ms[i].state != Opened
    ensures !HasId(Open(ms) + s[n..], s[i].id)
  {
    OpenOnly(ms);
    var r := Open(ms) + s[n..];
    forall k | 0 <= k < |r| ensures r[k].id != s[i].id {
      if k < |Open(ms)| {
        assert r[k] in Open(ms);
        var j :| 0 <= j < n && ms[j] == r[k];
        assert j != i && s[j].id != s[i].id;
      } else {
        assert r[k] == s[n + (k - |Open(ms)|)];
      }
    }
  }

  /** Trades are only made by executing. */
  lemma {:induction false} ExecutesWithTrades(p: Pool, o: OrderData)
    requires Incoming(p, o) && Process(p, o).trades != []
    ensures Process(p, o).pool.Stack(o.op.Other()) == Remainder(o, p.Stack(o.op.Other()))
  {
    ExecutedOrder(p, o);
    ExecutesAtOnce(p, o);
  }

  lemma {:induction false} OpenKeeps(ms: seq<OrderData>, i: nat)
    requires i < |ms| && ms[i].state == Opened
    ensures ms[i] in Open(ms)
    decreases i
  {
    if i > 0 {
      OpenKeeps(ms[1..], i - 1);
    }
  }

  // ---- Processing keeps the pool uncrossed and every trade fair ----

  ghost predicate Fair(t: Trade) {
    && t.taker.bot == t.maker.bot && t.taker.op == t.maker.op.Other()
    && t.quantity > 0 && t.price == t.maker.price
    && NoWorse(t.taker, t.price) && NoWorse(t.maker, t.price)
    && RespectsOtcLimit(t.taker, t.price) && RespectsOtcLimit(t.maker, t.price)
  }

  /** A buy costs no more and a sell earns no less than the order's own price; market orders have none. */
  ghost predicate NoWorse(o: OrderData, price: int) {
    o.kind == Market || o.kind == Exchange || if o.op == Buy then price <= o.price else o.price <= price
  }

  /** An order repriced by the updater never buys above or sells below its limit. */
  ghost predicate RespectsOtcLimit(o: OrderData, price: int) {
    o.otcUpdated && !o.IsMarket() ==>
      o.otcLimit.Some? && if o.op == Buy then price <= o.otcLimit.value else o.otcLimit.value <= price
  }

  lemma {:induction false} SuffixInv(s: seq<OrderData>, k: nat, s': seq<OrderData>, op: Operation, bot: bool)
    requires StackInv(s, op, bot) && IsSuffix(s, k, s')
    ensures StackInv(s', op, bot)
    ensures forall x :: x in s' ==> exists y :: y in s && y.price == x.price && y.id == x.id
  {
    forall i | 0 <= i < |s'|
      ensures s'[i].price == s[k + i].price && s'[i].id == s[k + i].id && Resting(s'[i], op, bot)
    {
      assert s[k + i] in s;
    }
    forall x | x in s' ensures exists y :: y in s && y.price == x.price && y.id == x.id {
      var i :| 0 <= i < |s'| && s'[i] == x;
      assert s[k + i] in s && s[k + i].price == x.price && s[k + i].id == x.id;
    }
  }

  /** A taker that was not fulfilled refuses everything that is left. */
  lemma {:induction false} UnfulfilledRefuses(t: OrderData, s: seq<OrderData>, x: OrderData)
    requires t.state == Opened && t.left > 0 && AllLeft(s) && Sorted(DirectionOf(t.op.Other()), s)
    requires !Fulfilled(t, s, t.left) && x in Remainder(t, s)
    ensures !t.Accepts(x.price)
  {
    var n := Selected(t, s, t.left);
    var k := FillShape(t, s);
    var r := Remainder(t, s);
    var i :| 0 <= i < |r| && r[i] == x;
    assert s[n + i].price == x.price;
    NoneAvailable(t, s[n..]);
    assert s[n..][i] in s[n..];
  }

  lemma {:induction false} TradesOfFill(p: Pool, o: OrderData)
    requires Incoming(p, o) && Process(p, o).trades != []
    ensures var s := p.Stack(o.op.Other());
            Process(p, o).trades == Fill(o, s[..Selected(o, s, o.left)]).trades
  {
  }

  lemma {:induction false} ProcessFair(p: Pool, o: OrderData, bot: bool, i: nat)
    requires PoolInv(p, bot) && Incoming(p, o) && Sane(o) && o.bot == bot
    requires i < |Process(p, o).trades|
    ensures Fair(Process(p, o).trades[i])
  {
    var s := p.Stack(o.op.Other());
    var n := Selected(o, s, o.left);
    OrderTrades(p, o, i);
    TradesOfFill(p, o);
    FillTrades(o, s[..n], i);
    assert s[i] in s;
    assert Resting(s[i], o.op.Other(), bot);
  }

  /** Whatever arrives, the pool stays sorted and uncrossed and every trade is fair. */
  lemma {:induction false} ProcessKeepsPool(p: Pool, o: OrderData, bot: bool)
    requires PoolInv(p, bot) && Sane(o) && o.bot == bot
    ensures var r := Process(p, o);
            && PoolInv(r.pool, bot)
            && (forall i :: 0 <= i < |r.trades| ==> Fair(r.trades[i]))
            && (forall op, x :: x in r.pool.Stack(op) ==> x.id == o.id || HasId(p.Stack(op), x.id))
  {
    var s := p.Stack(o.op.Other());
    if o.state == Opened && !HasId(s, o.id) {
      forall x | x in s ensures x.state == Opened && x.left > 0 {}
      forall i | 0 <= i < |s| ensures s[i].state == Opened && s[i].left > 0 { assert s[i] in s; }
      var r := Process(p, o);
      forall i | 0 <= i < |r.trades| ensures Fair(r.trades[i]) { ProcessFair(p, o, bot, i); }
      var k := LimitOrderRemainder(p, o);
      SuffixInv(s, k, r.pool.Stack(o.op.Other()), o.op.Other(), bot);
      ProcessOwn(p, o, bot);
      forall op, x | x in r.pool.Stack(op) ensures x.id == o.id || HasId(p.Stack(op), x.id) {}
      forall b, a | b in r.pool.buys && a in r.pool.sells ensures b.price < a.price {
        ProcessPair(p, o, bot, b, a);
      }
    } else {
      forall op, x | x in p.Stack(op) ensures HasId(p.Stack(op), x.id) {}
    }
  }

  /** The order's own stack gains the order, if it rests, and nothing else. */
  lemma {:induction false} ProcessOwn(p: Pool, o: OrderData, bot: bool)
    requires PoolInv(p, bot) && Incoming(p, o) && Sane(o) && o.bot == bot
    ensures var r := Process(p, o);
            && StackInv(r.pool.Stack(o.op), o.op, bot)
            && forall x :: x in r.pool.Stack(o.op) ==>
                 x in p.Stack(o.op) || (x == r.order && x.state == Opened && !o.IsMarket() && x.price == o.price
                     && x.id == o.id)
  {
    ProcessOrder(p, o);
    OwnInv(p, Process(p, o), bot);
  }

  lemma {:induction false} OwnInv(p: Pool, r: Outcome, bot: bool)
    requires StackInv(p.Stack(r.order.op), r.order.op, bot)
    requires r.order.state == Opened ==> Resting(r.order, r.order.op, bot)
    ensures StackInv(OwnAfter(p, r), r.order.op, bot)
    ensures forall x :: x in OwnAfter(p, r) ==>
              x in p.Stack(r.order.op) || (x == r.order && x.state == Opened && !HasId(p.Stack(r.order.op), x.id))
  {
    var own, u := p.Stack(r.order.op), r.order;
    if u.state == Opened {
      if !HasId(own, u.id) {
        InsertKeeps(DirectionOf(u.op), own, u);
        InsertContents(DirectionOf(u.op), own, u);
      }
    } else {
      WithoutContents(own, u.id);
      WithoutSorted(DirectionOf(u.op), own, u.id);
    }
  }

  lemma {:induction false} ProcessPair(p: Pool, o: OrderData, bot: bool, b: OrderData, a: OrderData)
    requires PoolInv(p, bot) && Incoming(p, o) && Sane(o) && o.bot == bot
    requires b in Process(p, o).pool.buys && a in Process(p, o).pool.sells
    ensures b.price < a.price
  {
    var r := Process(p, o);
    var k := LimitOrderRemainder(p, o);
    ProcessOwn(p, o, bot);
    ProcessOrder(p, o);
    if o.op == Buy {
      NotCrossed(p, o, bot, r, k, b, a);
    } else {
      NotCrossed(p, o, bot, r, k, a, b);
    }
  }

  /** One order of the own stack afterwards, and one of what is left of the opposite stack. */
  lemma {:induction false} NotCrossed(p: Pool, o: OrderData, bot: bool, r: Outcome, k: nat, mine: OrderData,
      theirs: OrderData)
    requires PoolInv(p, bot) && Incoming(p, o)
    requires IsSuffix(p.Stack(o.op.Other()), k, r.pool.Stack(o.op.Other()))
    requires theirs in r.pool.Stack(o.op.Other())
    requires mine in p.Stack(o.op) || (r.order.state == Opened && !o.IsMarket() && mine.price == o.price)
    requires r.order.state == Opened ==>
               && !Fulfilled(o, p.Stack(o.op.Other()), o.left)
               && r.pool.Stack(o.op.Other()) == Remainder(o, p.Stack(o.op.Other()))
    ensures if o.op == Buy then mine.price < theirs.price else theirs.price < mine.price
  {
    var s := p.Stack(o.op.Other());
    if mine in p.Stack(o.op) {
      SuffixInv(s, k, r.pool.Stack(o.op.Other()), o.op.Other(), bot);
      var y :| y in s && y.price == theirs.price && y.id == theirs.id;
    } else {
      UnfulfilledRefuses(o, s, theirs);
    }
  }
}
