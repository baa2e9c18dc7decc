/** The order book of a pair and the processor that runs one order through it. */
module Books {
  import opened OrderTypes
  import opened StackModel
  import opened Matching
  import opened Orders
  import opened Stacks
  import opened Runs

  class OrderBook {
    const sells: BaseStack
    const buys: BaseStack
    const botSells: BaseStack
    const botBuys: BaseStack
    /** The execution results stored for the pair, oldest first. */
    var log: seq<Trade>

    constructor ()
      ensures Valid() && View() == EMPTY && log == []
      ensures fresh(sells) && fresh(buys) && fresh(botSells) && fresh(botBuys)
      ensures Resting() == {}
    {
      sells := new BaseStack(Asc);
      buys := new BaseStack(Desc);
      botSells := new BaseStack(Asc);
      botBuys := new BaseStack(Desc);
      log := [];
    }

    function StackFor(op: Operation, bot: bool): BaseStack {
      if bot then (if op == Buy then botBuys else botSells) else (if op == Buy then buys else sells)
    }

    ghost function Resting(): set<Order>
      reads sells, buys, botSells, botBuys
    {
      (set o | o in sells.list) + (set o | o in buys.list) + (set o | o in botSells.list) + (set o | o in botBuys.list)
    }

    /** Each stack is consistent and holds orders of its own side and owner only. */
    ghost predicate StackValid(op: Operation, bot: bool)
      reads StackFor(op, bot), StackFor(op, bot).list
    {
      var s := StackFor(op, bot);
      && s.direction == DirectionOf(op) && s.Valid()
      && forall o :: o in s.list ==> o.op == op && o.bot == bot && o.state == Opened
    }

    ghost predicate Apart() {
      sells != buys && sells != botSells && sells != botBuys && buys != botSells && buys != botBuys
          && botSells != botBuys
    }

    /** The stacks of one owner as a pool. */
    ghost function PoolView(bot: bool): Pool
      reads StackFor(Buy, bot), StackFor(Buy, bot).list, StackFor(Sell, bot), StackFor(Sell, bot).list
    {
      Pool(StackFor(Buy, bot).View(), StackFor(Sell, bot).View())
    }

    ghost predicate PoolValid(bot: bool)
      reads StackFor(Buy, bot), StackFor(Buy, bot).list, StackFor(Sell, bot), StackFor(Sell, bot).list
    {
      StackValid(Buy, bot) && StackValid(Sell, bot)
    }

    ghost predicate Valid()
      reads sells, buys, botSells, botBuys, sells.list, buys.list, botSells.list, botBuys.list
    {
      Apart() && PoolValid(false) && PoolValid(true)
    }

    ghost function View(): Book
      reads sells, buys, botSells, botBuys, sells.list, buys.list, botSells.list, botBuys.list
    {
      Book(PoolView(false), PoolView(true))
    }

    /** Nothing is in a stack that was not there before, but for this order. */
    twostate predicate OnlyNew(order: Order)
      reads sells, buys, botSells, botBuys
    {
      forall op, bot :: StackFor(op, bot).Follows(order)
    }

    /** Every order that rests is one of these objects. */
    ghost predicate Within(live: set<Order>)
      reads sells, buys, botSells, botBuys
    {
      forall op, bot, j :: 0 <= j < |StackFor(op, bot).list| ==> StackFor(op, bot).list[j] in live
    }

    /** Runs one order through its own pool; the other pool is not touched. */
    method ProcessInPool(order: Order)
      requires Apart() && PoolValid(order.bot) && order.id !in StackFor(order.op, order.bot).orders
      requires order.Row().IsMarket() ==> order.op == Sell
      modifies this`log, StackFor(Buy, order.bot), StackFor(Sell, order.bot)
      modifies order`left, order`state, StackFor(order.op.Other(), order.bot).list
      ensures PoolValid(order.bot)
      ensures var r := Process(old(PoolView(order.bot)), old(order.Row()));
              PoolView(order.bot) == r.pool && order.Row() == r.order && log == old(log) + r.trades
      ensures StackFor(Buy, order.bot).Follows(order) && StackFor(Sell, order.bot).Follows(order)
    {
      var processor := new OrderProcessor(this, order);
      processor.Process();
    }

    /** Runs one order through the book. */
    method ProcessOrder(order: Order)
      requires Valid() && order.id !in StackFor(order.op, order.bot).orders
      requires order.Row().IsMarket() ==> order.op == Sell
      modifies this`log, StackFor(Buy, order.bot), StackFor(Sell, order.bot)
      modifies order`left, order`state, StackFor(order.op.Other(), order.bot).list
      ensures Valid()
      ensures var r := Process(old(View().Pool(order.bot)), old(order.Row()));
              && View() == old(View()).With(order.bot, r.pool)
              && order.Row() == r.order
              && log == old(log) + r.trades
      ensures OnlyNew(order)
    {
      ghost var b, s := StackFor(Buy, !order.bot).list, StackFor(Sell, !order.bot).list;
      forall j | 0 <= j < |b| ensures b[j].bot != order.bot { assert b[j] in StackFor(Buy, !order.bot).list; }
      forall j | 0 <= j < |s| ensures s[j].bot != order.bot { assert s[j] in StackFor(Sell, !order.bot).list; }
      ghost var l := StackFor(order.op.Other(), order.bot).list;
      forall j | 0 <= j < |l|
          ensures l[j].bot == order.bot { assert l[j] in StackFor(order.op.Other(), order.bot).list; }
      ProcessInPool(order);
      PoolStays(!order.bot);
    }

    /** A pool whose stacks and orders are as before. */
    twostate lemma {:induction false} PoolStays(bot: bool)
      requires old(PoolValid(bot)) && unchanged(StackFor(Buy, bot)) && unchanged(StackFor(Sell, bot))
      requires forall op, j :: 0 <= j < |StackFor(op, bot).list| ==>
                 StackFor(op, bot).list[j].Row() == old(StackFor(op, bot).list[j].Row())
      ensures PoolValid(bot) && PoolView(bot) == old(PoolView(bot))
    {
      forall op ensures StackValid(op, bot) && StackFor(op, bot).View() == old(StackFor(op, bot).View()) {
        RowsUnchanged(StackFor(op, bot).list);
      }
    }

    /** Takes an order out of its own stack, by id, and marks the given object canceled. */
    method CancelOrder(order: Order)
      requires StackFor(order.op, order.bot).Valid()
      modifies StackFor(order.op, order.bot), order`state
      ensures order.Row() == old(order.Row()).Cancel()
      ensures order.id !in StackFor(order.op, order.bot).orders
      ensures old(StackValid(order.op, order.bot)) ==> StackValid(order.op, order.bot)
      ensures StackFor(order.op, order.bot).Removed(old(StackFor(order.op, order.bot).list), order.id)
      ensures StackFor(order.op, order.bot).View() == Without(old(StackFor(order.op, order.bot).View()), order.id)
    {
      var processor := new OrderProcessor(this, order);
      processor.Cancel();
    }

    lemma {:induction false} NotResting(order: Order)
      requires Valid() && order.id !in StackFor(order.op, order.bot).orders
      ensures forall op, bot, j :: 0 <= j < |StackFor(op, bot).list| ==> StackFor(op, bot).list[j] != order
    {
      forall op, bot, j | 0 <= j < |StackFor(op, bot).list| ensures StackFor(op, bot).list[j] != order {
        assert StackValid(op, bot) && StackFor(op, bot).list[j] in StackFor(op, bot).list;
      }
    }

    /** A change to objects outside the stacks does not show in the book. */
    twostate lemma {:induction false} SameRows()
      requires old(Valid())
      requires unchanged(sells) && unchanged(buys) && unchanged(botSells) && unchanged(botBuys)
      requires forall op, bot, j :: 0 <= j < |StackFor(op, bot).list| ==>
                 StackFor(op, bot).list[j].Row() == old(StackFor(op, bot).list[j].Row())
      ensures Valid() && View() == old(View())
    {
      forall op, bot ensures StackFor(op, bot).View() == old(StackFor(op, bot).View()) {
        RowsUnchanged(StackFor(op, bot).list);
      }
      assert sells == StackFor(Sell, false) && buys == StackFor(Buy, false) && botSells == StackFor(Sell, true)
          && botBuys == StackFor(Buy, true);
    }

    /** Takes an id out of the user stack of the order's side, whoever owns the order. */
    method RemoveOrderFromStack(order: Order)
      requires Valid()
      modifies StackFor(order.op, false)
      ensures Valid() && View() == RemoveFromStack(old(View()), order.Row())
      ensures order.id !in StackFor(order.op, false).orders
      ensures forall op, bot :: StackFor(op, bot).Shrinks()
    {
      TakeOut(StackFor(order.op, false), order, false);
    }

    lemma {:induction false} StillValid(s: BaseStack, before: seq<Order>, op: Operation, bot: bool)
      requires s == StackFor(op, bot) && s.direction == DirectionOf(op) && s.Valid()
      requires forall j :: 0 <= j < |before| ==> before[j].op == op && before[j].bot == bot
      requires forall j :: 0 <= j < |s.list| ==> s.list[j] in before && s.list[j].state == Opened
      ensures StackValid(op, bot)
    {
    }

    method TakeOut(stack: BaseStack, order: Order, ghost bot: bool)
      requires stack == StackFor(order.op, bot) && Apart() && PoolValid(bot)
      modifies stack
      ensures PoolValid(bot)
      ensures PoolView(bot) == old(PoolView(bot)).With(order.op, Without(old(PoolView(bot)).Stack(order.op), order.id))
      ensures order.id !in stack.orders && stack.Shrinks()
    {
      ghost var l, other := stack.list, StackFor(order.op.Other(), bot);
      forall j | 0 <= j < |l| ensures l[j].op == order.op && l[j].bot == bot
          && l[j].state == Opened { assert l[j] in stack.list; }
      assert other != stack && other.Valid();
      stack.Remove(order);
      assert other.Valid() && other.View() == old(other.View());
      StillValid(stack, l, order.op, bot);
    }

    /** Cancelling by a fresh object: the held object with its id leaves its stack. */
    method CancelFresh(order: Order)
      requires Apart() && PoolValid(order.bot) && order !in StackFor(order.op, order.bot).list
      modifies order`state, StackFor(order.op, order.bot)
      ensures PoolValid(order.bot)
      ensures var p := old(PoolView(order.bot));
              PoolView(order.bot) == p.With(order.op, Without(p.Stack(order.op), order.id))
      ensures order.Row() == old(order.Row()).Cancel()
    {
      ghost var other := StackFor(order.op.Other(), order.bot).list;
      forall j | 0 <= j < |other|
          ensures other[j].op != order.op { assert other[j] in StackFor(order.op.Other(), order.bot).list; }
      CancelOrder(order);
      RowsUnchanged(other);
    }

    predicate IsExistsInStack(order: Order)
      reads StackFor(order.op, false)
    {
      order.id in StackFor(order.op, false).orders
    }
  }

  class OrderProcessor {
    const book: OrderBook
    const order: Order
    const stack: BaseStack
    const thisOrderStack: BaseStack
    const isMarket: bool

    constructor (book: OrderBook, order: Order)
      ensures this.book == book && this.order == order
      ensures stack == book.StackFor(order.op.Other(), order.bot)
      ensures thisOrderStack == book.StackFor(order.op, order.bot)
      ensures isMarket == (order.kind == Market || order.kind == Exchange)
    {
      this.book, this.order := book, order;
      stack := book.StackFor(order.op.Other(), order.bot);
      thisOrderStack := book.StackFor(order.op, order.bot);
      isMarket := order.kind == Market || order.kind == Exchange;
    }

    method Cancel()
      requires thisOrderStack.Valid()
      modifies thisOrderStack, order`state
      ensures order.Row() == old(order.Row()).Cancel()
      ensures thisOrderStack.Removed(old(thisOrderStack.list), order.id)
      ensures thisOrderStack.View() == Without(old(thisOrderStack.View()), order.id)
      ensures order.id !in thisOrderStack.orders
    {
      thisOrderStack.Remove(order);
      label removed:
      order.CancelOrder();
      assert thisOrderStack.View() == old@removed(thisOrderStack.View());
    }

    /** Walks the opposite stack from its top until the order is covered or a price is refused. */
    method MatchingOrders() returns (fulfill: bool, quantity: int, orders: seq<Order>)
      requires isMarket == order.Row().IsMarket()
      ensures var s := stack.View();
              var n := Selected(order.Row(), s, order.left);
              && orders == stack.list[..n]
              && fulfill == Fulfilled(order.Row(), s, order.left)
              && quantity == SumLeft(s[..n])
    {
      orders, quantity, fulfill := [], 0, false;
      ghost var s := stack.View();
      ghost var t := order.Row();
      var i := 0;
      WalkStart(t, s);
      while i < |stack.list|
        invariant 0 <= i <= |stack.list| && orders == stack.list[..i]
        invariant Walked(t, s, i, quantity)
      {
        var candidate := stack.list[i];
        if !PriceMatch(candidate.price) {
          WalkEnd(t, s, i, quantity);
          return;
        }
        WalkNext(t, s, i, quantity);
        orders := orders + [candidate];
        quantity := quantity + candidate.left;
        i := i + 1;
        if quantity >= order.left {
          fulfill := true;
          return;
        }
      }
      WalkEnd(t, s, i, quantity);
    }

    predicate PriceMatch(price: int)
      requires isMarket == order.Row().IsMarket()
      reads order
      ensures PriceMatch(price) == order.Row().Accepts(price)
    {
      if isMarket then true else if order.op == Sell then order.price <= price else order.price >= price
    }

    /** The selection for a market buy: asks from the top until the budget is spent. */
    method MarketMatchingOrders() returns (fulfill: bool, quantity: int, orders: seq<Order>)
      requires order.cost.Some?
      ensures var s := stack.View();
              var budget := order.cost.value * 100_000_000;
              var n := BudgetSelected(s, budget);
              && orders == stack.list[..n]
              && fulfill == BudgetFulfilled(s, budget)
              && quantity == SumLeft(s[..n])
    {
      orders, quantity, fulfill := [], 0, false;
      ghost var s := stack.View();
      var orderCost := order.cost.value * 100_000_000;
      ghost var budget := orderCost;
      var i := 0;
      BudgetStart(s, budget);
      while i < |stack.list|
        invariant 0 <= i <= |stack.list| && !fulfill
        invariant orders == stack.list[..i] && BudgetWalked(s, budget, i, quantity, orderCost)
      {
        var candidate := stack.list[i];
        BudgetNext(s, budget, i, quantity, orderCost);
        orders := orders + [candidate];
        quantity := quantity + candidate.left;
        orderCost := orderCost - candidate.left * candidate.price;
        i := i + 1;
        if orderCost <= 0 {
          fulfill := true;
          return;
        }
      }
      BudgetEnd(s, budget, quantity, orderCost);
    }

    method AddToBook()
      requires thisOrderStack.Valid()
      modifies thisOrderStack
      ensures var s := thisOrderStack;
              if order.id !in old(s.orders) then
                && s.Valid() && s.View() == Insert(s.direction, old(s.View()), order.Row())
                && forall x :: x in s.list <==> x in old(s.list) || x == order
              else s.list == old(s.list) && (s.Valid() <==> old(s.orders)[order.id] == order)
    {
      thisOrderStack.Add(order);
    }

    /** The trade with one maker; a closed maker leaves the stack. */
    method ExecuteOrderWith(maker: Order, ghost before: seq<Order>, ghost after: seq<Order>)
      requires order.op == maker.op.Other() && stack.Valid() && stack.list == before + [maker] + after
      requires order !in stack.list && maker.state == Opened
      modifies stack, order`left, order`state, maker`left, maker`state, book`log
      ensures var q := Min(old(order.left), old(maker.left));
              && order.Row() == old(order.Row()).Settle(q) && maker.Row() == old(maker.Row()).Settle(q)
              && book.log == old(book.log) + [Trade(old(order.Row()), old(maker.Row()), maker.price, q)]
      ensures stack.Valid() && stack.list == if maker.state == Closed then before + after else before + [maker] + after
    {
      var trade := order.Execute(maker);
      book.log := book.log + [trade];
      stack.StaysValid();
      if maker.state == Closed {
        WithoutIdSplit(before, maker, after);
        stack.Remove(maker);
      }
    }

    /** One maker in full: trade, removal when closed, cancellation when only dust is left. */
    method MatchOne(maker: Order, ghost before: seq<Order>, ghost after: seq<Order>)
      requires stack == book.StackFor(maker.op, maker.bot)
      requires order.op == maker.op.Other() && stack.Valid() && stack.list == before + [maker] + after
      requires order !in stack.list && maker.state == Opened
      modifies stack, order`left, order`state, maker`left, maker`state, book`log
      ensures var q := Min(old(order.left), old(maker.left));
              && order.Row() == old(order.Row()).Settle(q) && maker.Row() == SettleMaker(old(maker.Row()), q)
              && book.log == old(book.log) + [Trade(old(order.Row()), old(maker.Row()), maker.price, q)]
      ensures stack.Valid() && stack.list == if maker.state == Opened then before + [maker] + after else before + after
    {
      assert DistinctIds(before + [maker] + after);
      ExecuteOrderWith(maker, before, after);
      if maker.op == Sell && maker.left * maker.price < MIN_COST_ORDER_CANCEL {
        CancelMaker(maker, before, after);
      }
    }

    /** Cancelling what is left of a maker takes it out of the stack, when it is there still. */
    method CancelMaker(maker: Order, ghost before: seq<Order>, ghost after: seq<Order>)
      requires stack == book.StackFor(maker.op, maker.bot) && stack.Valid()
      requires DistinctIds(before + [maker] + after)
      requires stack.list == before + after || stack.list == before + [maker] + after
      modifies stack, maker`state
      ensures maker.Row() == old(maker.Row()).Cancel() && maker.state != Opened
      ensures stack.Valid() && stack.list == before + after
    {
      RemovalEither(before, maker, after, stack.list);
      book.CancelOrder(maker);
    }

    lemma {:induction false} OthersDiffer(before: seq<Order>, maker: Order, after: seq<Order>)
      requires DistinctIds(before + [maker] + after) && order !in before + [maker] + after
      ensures forall i :: 0 <= i < |before| ==> before[i] != maker && before[i] != order
      ensures forall i :: 0 <= i < |after| ==> after[i] != maker && after[i] != order
    {
      var all := before + [maker] + after;
      assert all[|before|] == maker;
      assert forall i :: 0 <= i < |before| ==> all[i] == before[i];
      assert forall i :: 0 <= i < |after| ==> all[|before| + 1 + i] == after[i];
    }

    lemma {:induction false} RemovalEither(before: seq<Order>, maker: Order, after: seq<Order>, l: seq<Order>)
      requires DistinctIds(before + [maker] + after)
      requires l == before + after || l == before + [maker] + after
      ensures WithoutId(l, maker.id) == before + after
    {
      var all := before + [maker] + after;
      assert all[|before|] == maker;
      if l == before + after {
        forall i | 0 <= i < |l| ensures l[i].id != maker.id {
          assert l[i] == if i < |before| then all[i] else all[i + 1];
        }
        stack.NothingRemoved(l, maker.id);
      } else {
        WithoutIdSplit(before, maker, after);
      }
    }

    /** The other orders of the stack are not touched by a match with one. */
    method MatchAmong(maker: Order, ghost before: seq<Order>, ghost after: seq<Order>)
      requires stack == book.StackFor(maker.op, maker.bot)
      requires order.op == maker.op.Other() && stack.Valid() && stack.list == before + [maker] + after
      requires order !in stack.list && maker.state == Opened
      modifies stack, order`left, order`state, maker`left, maker`state, book`log
      ensures var q := Min(old(order.left), old(maker.left));
              && order.Row() == old(order.Row()).Settle(q) && maker.Row() == SettleMaker(old(maker.Row()), q)
              && book.log == old(book.log) + [Trade(old(order.Row()), old(maker.Row()), maker.price, q)]
      ensures stack.Valid() && stack.list == if maker.state == Opened then before + [maker] + after else before + after
      ensures Rows(before) == old(Rows(before)) && Rows(after) == old(Rows(after))
    {
      OthersDiffer(before, maker, after);
      MatchOne(maker, before, after);
      RowsUnchanged(before);
      RowsUnchanged(after);
    }

    /** Where the loop stands: i of the n matched orders done, `kept` of them still rest. */
    ghost predicate Matched(l: seq<Order>, rows: seq<OrderData>, n: nat, i: nat, t: OrderData, kept: seq<Order>,
        done: seq<Trade>)
      reads order, stack, stack.list, l, kept
    {
      && i <= n <= |l| == |rows|
      && stack.Valid() && stack.list == kept + l[i..] && Rows(l[i..]) == rows[i..]
      && (forall j :: 0 <= j < |kept| ==> kept[j] in l)
      && Progress(t, rows[..n], i, order.Row(), Rows(kept), done)
    }

    /** One turn of the loop over the matched orders. */
    method MatchNext(maker: Order, ghost l: seq<Order>, ghost rows: seq<OrderData>, ghost n: nat, ghost i: nat,
                     ghost t: OrderData, ghost kept: seq<Order>, ghost done: seq<Trade>)
      returns (ghost kept': seq<Order>, ghost trade: Trade)
      requires Matched(l, rows, n, i, t, kept, done) && i < n && maker == l[i] && rows[i].state == Opened
      requires stack == book.StackFor(maker.op, maker.bot) && OnOtherSide(maker) && order !in l
      modifies stack, order`left, order`state, maker`left, maker`state, book`log
      ensures Matched(l, rows, n, i + 1, t, kept', done + [trade])
      ensures book.log == old(book.log) + [trade]
    {
      ghost var m, t1, keptRows := rows[i], order.Row(), Rows(kept);
      ghost var q := Min(t1.left, m.left);
      ghost var m' := SettleMaker(m, q);
      assert l[i..] == [maker] + l[i + 1..] && Rows(l[i..])[0] == m && Rows(l[i..])[1..] == Rows(l[i + 1..]);
      assert rows[..n][i] == m;
      ProgressStep(t, rows[..n], i, t1, keptRows, done);
      assert stack.list == kept + [maker] + l[i + 1..];
      MatchAmong(maker, kept, l[i + 1..]);
      trade := Trade(t1, m, m.price, q);
      if maker.state == Opened {
        RowsAppend(kept, maker);
        kept' := kept + [maker];
        assert stack.list == kept' + l[i + 1..];
        assert Rows(kept') == keptRows + [m'];
      } else {
        kept' := kept;
        assert keptRows + [] == keptRows;
      }
    }

    predicate OnOtherSide(o: Order) {
      o.op == order.op.Other() && o.bot == order.bot
    }

    lemma {:induction false} MatchedStart(l: seq<Order>, rows: seq<OrderData>, n: nat)
      requires stack.Valid() && stack.list == l && stack.View() == rows && n <= |l|
      ensures Matched(l, rows, n, 0, order.Row(), [], [])
    {
      assert l[0..] == l && rows[0..] == rows && rows[..n][0..] == rows[..n];
    }

    lemma {:induction false} MatchedEnd(l: seq<Order>, rows: seq<OrderData>, n: nat, t: OrderData, kept: seq<Order>,
        done: seq<Trade>)
      requires Matched(l, rows, n, n, t, kept, done)
      requires forall j :: 0 <= j < |rows| ==> rows[j].state == Opened
      ensures var f := Fill(t, rows[..n]);
              order.Row() == f.taker && done == f.trades && stack.View() == Open(f.makers) + rows[n..]
      ensures forall j :: 0 <= j < |stack.list| ==> stack.list[j] in l && stack.list[j].state == Opened
    {
      assert rows[..n][n..] == [];
      RowsConcat(kept, l[n..]);
      OpenOnly(Fill(t, rows[..n]).makers);
      assert Rows(kept) == Open(Fill(t, rows[..n]).makers);
      forall j | 0 <= j < |stack.list| ensures stack.list[j].state == Opened {
        assert stack.list[j].Row() == if j < |kept| then Rows(kept)[j] else rows[n..][j - |kept|];
        assert j < |kept| ==> Rows(kept)[j] in Rows(kept);
      }
    }

    /** The loop over the matched orders. */
    method MatchLoop(orders: seq<Order>, ghost l: seq<Order>, ghost rows: seq<OrderData>, ghost t: OrderData)
      returns (ghost kept: seq<Order>, ghost done: seq<Trade>)
      requires stack == book.StackFor(order.op.Other(), order.bot) && orders <= l && order !in l
      requires forall j :: 0 <= j < |l| ==> OnOtherSide(l[j])
      requires forall j :: 0 <= j < |rows| ==> rows[j].state == Opened
      requires Matched(l, rows, |orders|, 0, t, [], [])
      modifies stack, order`left, order`state, orders, book`log
      ensures Matched(l, rows, |orders|, |orders|, t, kept, done) && book.log == old(book.log) + done
    {
      ghost var log := book.log;
      kept, done := [], [];
      assert log + [] == log;
      for i := 0 to |orders|
        invariant Matched(l, rows, |orders|, i, t, kept, done)
        invariant book.log == log + done
      {
        ghost var trade;
        kept, trade := MatchNext(orders[i], l, rows, |orders|, i, t, kept, done);
        AppendAssoc(log, done, [trade]);
        done := done + [trade];
      }
    }

    /** All matched orders, the best of the stack. */
    method MatchAll(orders: seq<Order>)
      requires stack == book.StackFor(order.op.Other(), order.bot) && stack.Valid()
      requires orders <= stack.list && order !in stack.list
      requires forall j :: 0 <= j < |stack.list| ==> OnOtherSide(stack.list[j]) && stack.list[j].state == Opened
      modifies stack, order`left, order`state, orders, book`log
      ensures var s := old(stack.View());
              var f := Fill(old(order.Row()), s[..|orders|]);
              && order.Row() == f.taker
              && book.log == old(book.log) + f.trades
              && stack.View() == Open(f.makers) + s[|orders|..]
      ensures stack.Valid()
      ensures forall j :: 0 <= j < |stack.list| ==> stack.list[j] in old(stack.list) && stack.list[j].state == Opened
    {
      ghost var l, rows, n, t := stack.list, stack.View(), |orders|, order.Row();
      MatchedStart(l, rows, n);
      ghost var kept, done := MatchLoop(orders, l, rows, t);
      MatchedEnd(l, rows, n, t, kept, done);
    }

    /** The two stacks the order meets, as a pool. */
    ghost function MyPool(): Pool
      reads stack, stack.list, thisOrderStack, thisOrderStack.list
    {
      if order.op == Buy then Pool(thisOrderStack.View(), stack.View()) else Pool(stack.View(), thisOrderStack.View())
    }

    /** Both stacks are consistent and hold orders of their own side, open ones only. */
    ghost predicate Consistent()
      reads stack, stack.list, thisOrderStack, thisOrderStack.list
    {
      && stack == book.StackFor(order.op.Other(), order.bot) && thisOrderStack == book.StackFor(order.op, order.bot)
      && stack != thisOrderStack
      && book.StackValid(order.op.Other(), order.bot) && book.StackValid(order.op, order.bot)
    }

    /** The matched makers trade; the order's own stack is not involved. */
    method MatchSide(orders: seq<Order>)
      requires Consistent() && orders <= stack.list
      requires order.id !in thisOrderStack.orders
      modifies stack, order`left, order`state, orders, book`log
      ensures book.StackValid(order.op.Other(), order.bot) && book.StackValid(order.op, order.bot)
      ensures var s := old(stack.View());
              var f := Fill(old(order.Row()), s[..|orders|]);
              && order.Row() == f.taker
              && book.log == old(book.log) + f.trades
              && stack.View() == Open(f.makers) + s[|orders|..]
      ensures thisOrderStack.View() == old(thisOrderStack.View())
      ensures forall j :: 0 <= j < |stack.list| ==> stack.list[j] in old(stack.list)
    {
      ghost var l, own := stack.list, thisOrderStack.list;
      forall j | 0 <= j < |l| ensures OnOtherSide(l[j]) && l[j].state == Opened { assert l[j] in stack.list; }
      forall j | 0 <= j < |own| ensures own[j].op == order.op
          && own[j] != order { assert own[j] in thisOrderStack.list; }
      forall j | 0 <= j < |orders| ensures orders[j].op == order.op.Other() { assert orders[j] == l[j]; }
      MatchAll(orders);
      book.StillValid(stack, l, order.op.Other(), order.bot);
      RowsUnchanged(own);
    }

    method ExecuteOrderWithMatched(orders: seq<Order>)
      requires Consistent() && order.id !in thisOrderStack.orders
      requires isMarket == order.Row().IsMarket() && orders <= stack.list
      modifies stack, thisOrderStack, order`left, order`state, orders, book`log
      ensures Consistent() && order.id !in thisOrderStack.orders
      ensures var s := old(stack.View());
              var f := Fill(old(order.Row()), s[..|orders|]);
              && order.Row() == (if f.taker.IsDust() then f.taker.Cancel() else f.taker)
              && book.log == old(book.log) + f.trades
              && stack.View() == Open(f.makers) + s[|orders|..]
      ensures thisOrderStack.list == old(thisOrderStack.list) && thisOrderStack.View() == old(thisOrderStack.View())
      ensures forall j :: 0 <= j < |stack.list| ==> stack.list[j] in old(stack.list)
    {
      MatchSide(orders);
      CancelDustOnly();
    }

    /** The opposite stack is not involved in cancelling dust. */
    method CancelDustOnly()
      requires Consistent() && order.id !in thisOrderStack.orders
      modifies thisOrderStack, order`state
      ensures order.Row() == if old(order.Row()).IsDust() then old(order.Row()).Cancel() else old(order.Row())
      ensures Consistent() && order.id !in thisOrderStack.orders
      ensures thisOrderStack.list == old(thisOrderStack.list) && thisOrderStack.View() == old(thisOrderStack.View())
      ensures stack.list == old(stack.list) && stack.View() == old(stack.View())
    {
      CancelDust();
      forall j | 0 <= j < |stack.list|
          ensures stack.list[j].op == order.op.Other() { assert stack.list[j] in stack.list; }
      RowsUnchanged(stack.list);
    }

    /** What is left of a sell order is cancelled when it is dust. */
    method CancelDust()
      requires thisOrderStack == book.StackFor(order.op, order.bot)
      requires book.StackValid(order.op, order.bot) && order.id !in thisOrderStack.orders
      modifies thisOrderStack, order`state
      ensures order.Row() == if old(order.Row()).IsDust() then old(order.Row()).Cancel() else old(order.Row())
      ensures book.StackValid(order.op, order.bot) && order.id !in thisOrderStack.orders
      ensures thisOrderStack.list == old(thisOrderStack.list) && thisOrderStack.View() == old(thisOrderStack.View())
    {
      if order.op == Sell && order.left * order.price < MIN_COST_ORDER_CANCEL {
        if isMarket {
          CancelMarket();
        } else {
          thisOrderStack.NothingRemoved(thisOrderStack.list, order.id);
          book.CancelOrder(order);
        }
      }
    }

    method CancelMarket()
      modifies order`state
      ensures order.Row() == old(order.Row()).Cancel()
    {
      order.CancelOrder();
    }

    /** A market order that can not be filled is cancelled; the stacks are not involved. */
    method CancelUnfulfilled()
      requires Consistent() && order.id !in thisOrderStack.orders && !HasId(stack.View(), order.id)
      modifies order`state
      ensures Consistent() && MyPool() == old(MyPool())
      ensures order.Row() == old(order.Row()).Cancel()
    {
      forall j | 0 <= j < |stack.list| ensures stack.list[j] != order { assert stack.View()[j].id != order.id; }
      forall j | 0 <= j < |thisOrderStack.list|
          ensures thisOrderStack.list[j] != order { assert thisOrderStack.list[j] in thisOrderStack.list; }
      CancelMarket();
      RowsUnchanged(stack.list);
      RowsUnchanged(thisOrderStack.list);
    }

    /** The matching part of a run, up to what happens with the rest of the order. */
    method ExecuteSelected(orders: seq<Order>)
      requires Consistent() && order.id !in thisOrderStack.orders && isMarket == order.Row().IsMarket()
      requires orders == stack.list[..Selected(order.Row(), stack.View(), order.left)]
      modifies stack, thisOrderStack, order`left, order`state, orders, book`log
      ensures Consistent() && order.id !in thisOrderStack.orders
      ensures var r := Matching.Execute(old(MyPool()), old(order.Row()));
              MyPool() == r.pool && order.Row() == r.order && book.log == old(book.log) + r.trades
      ensures thisOrderStack.list == old(thisOrderStack.list)
      ensures forall j :: 0 <= j < |stack.list| ==> stack.list[j] in old(stack.list)
    {
      thisOrderStack.ViewIds(order.id);
      FreshExecute(MyPool(), order.Row());
      ExecuteOrderWithMatched(orders);
    }

    /** A live order takes its place in its own stack. */
    method Rest()
      requires Consistent() && order.id !in thisOrderStack.orders && order.state == Opened
      modifies thisOrderStack
      ensures Consistent()
      ensures MyPool() == Matching.AddToBook(old(MyPool()), order.Row())
      ensures forall j :: 0 <= j < |thisOrderStack.list| ==>
                thisOrderStack.list[j] in old(thisOrderStack.list) || thisOrderStack.list[j] == order
    {
      AddToBook();
    }

    /** Everything the processor promises about its two stacks, its order and the log. */
    twostate predicate Processed()
      reads order, book, stack, stack.list, thisOrderStack, thisOrderStack.list
    {
      && Consistent()
      && (var r := Matching.Process(old(MyPool()), old(order.Row()));
          MyPool() == r.pool && order.Row() == r.order && book.log == old(book.log) + r.trades)
      && stack.Follows(order) && thisOrderStack.Follows(order)
    }

    method InstantExecute()
      requires Consistent() && order.id !in thisOrderStack.orders && !isMarket && !order.Row().IsMarket()
      requires order.state == Opened && !HasId(stack.View(), order.id)
      requires stack.list != [] && order.Row().Accepts(stack.View()[0].price)
      modifies stack, thisOrderStack, order`left, order`state, stack.list, book`log
      ensures Processed()
    {
      var fulfill, qty, orders := MatchingOrders();
      ExecuteSelected(orders);
      if order.state == Opened {
        Rest();
      }
    }

    method MarketExecute()
      requires Consistent() && order.id !in thisOrderStack.orders && isMarket && order.Row().IsMarket()
      requires order.state == Opened && !HasId(stack.View(), order.id) && order.op == Sell
      modifies stack, thisOrderStack, order`left, order`state, stack.list, book`log
      ensures Processed()
    {
      var fulfill, qty, orders := MatchingOrders();
      if !fulfill {
        CancelUnfulfilled();
        return;
      }
      ExecuteSelected(orders);
      if order.state == Opened && order.kind != Exchange {
        Rest();
      }
    }

    method Process()
      requires Consistent() && order.id !in thisOrderStack.orders && isMarket == order.Row().IsMarket()
      requires isMarket ==> order.op == Sell
      modifies stack, thisOrderStack, order`left, order`state, stack.list, book`log
      ensures Processed()
    {
      stack.ViewIds(order.id);
      if order.state != Opened {
        return;
      }
      if stack.Contains(order.id) {
        return;
      }
      if isMarket {
        MarketExecute();
        return;
      }
      if stack.list == [] {
        Rest();
        return;
      }
      if !PriceMatch(stack.TopPrice().value) {
        Rest();
        return;
      }
      InstantExecute();
    }
  }
}
