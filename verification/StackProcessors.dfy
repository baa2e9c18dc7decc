/** The stack processor: the tasks that drive the book of one pair. */
module StackProcessors {
  import opened OrderTypes
  import opened StackModel
  import opened Matching
  import opened Orders
  import opened Stacks
  import opened Books
  import opened OrderUpdates
  import opened OtcUpdater
  import Runs

  class StackProcessor {
    const book: OrderBook
    /** The orders whose placement key is set in the cache, which outlives this object. */
    var placed: set<int>

    constructor (placed: set<int>)
      ensures book.Valid() && book.View() == Runs.EMPTY && book.log == [] && this.placed == placed
    {
      book := new OrderBook();
      this.placed := placed;
    }

    /** After a restart: every open order of the database, oldest first. */
    method LoadOpenedOrders(orders: seq<Order>, ghost live: set<Order>)
      requires book.Valid() && Arriving(orders) && book.Within(live)
      modifies book`log, book.sells, book.buys, book.botSells, book.botBuys, orders, live
      ensures book.Valid()
      ensures var r := Runs.ProcessAll(old(book.View()), old(Rows(orders)));
              book.View() == r.book && book.log == old(book.log) + r.trades
    {
      ProcessEach(orders, live);
    }

    /** A message is dropped while the order's key is set. */
    method PlaceOrder(order: Order)
      requires book.Valid() && (order.id in placed || order.id !in book.StackFor(order.op, order.bot).orders)
      requires order.Row().IsMarket() ==> order.op == Sell
      modifies this`placed, book`log, book.StackFor(Buy, order.bot), book.StackFor(Sell, order.bot)
      modifies order`left, order`state, book.StackFor(order.op.Other(), order.bot).list
      ensures book.Valid() && placed == old(placed) + {order.id}
      ensures var step := if order.id in old(placed) then Runs.Step(old(book.View()), [])
                          else Runs.BookProcess(old(book.View()), old(order.Row()));
              book.View() == step.book && book.log == old(book.log) + step.trades
    {
      if order.id in placed {
        return;
      }
      placed := placed + {order.id};
      assert book.Valid() && book.View() == old(book.View()) && order.Row() == old(order.Row());
      PlaceFresh(order);
    }

    method PlaceFresh(order: Order)
      requires book.Valid() && order.id !in book.StackFor(order.op, order.bot).orders
      requires order.Row().IsMarket() ==> order.op == Sell
      modifies book`log, book.StackFor(Buy, order.bot), book.StackFor(Sell, order.bot)
      modifies order`left, order`state, book.StackFor(order.op.Other(), order.bot).list
      ensures book.Valid()
      ensures var step := Runs.BookProcess(old(book.View()), old(order.Row()));
              book.View() == step.book && book.log == old(book.log) + step.trades
    {
      book.ProcessOrder(order);
    }

    /** The order comes fresh from the database; the held object with its id leaves its stack. */
    method CancelOrder(order: Order)
      requires book.Valid() && order !in book.StackFor(order.op, order.bot).list
      modifies order`state, book.StackFor(order.op, order.bot)
      ensures book.Valid() && book.View() == Runs.BookCancel(old(book.View()), order.Row())
      ensures order.Row() == old(order.Row()).Cancel()
    {
      ghost var b, s := book.StackFor(Buy, !order.bot).list, book.StackFor(Sell, !order.bot).list;
      forall j | 0 <= j < |b| ensures b[j].bot != order.bot { assert b[j] in book.StackFor(Buy, !order.bot).list; }
      forall j | 0 <= j < |s| ensures s[j].bot != order.bot { assert s[j] in book.StackFor(Sell, !order.bot).list; }
      book.CancelFresh(order);
      RowsUnchanged(b);
      RowsUnchanged(s);
    }

    /** The order comes fresh from the database; false when the change is refused. */
    method UpdateOrder(order: Order, data: UpdateData, allowed: bool) returns (ok: bool)
      requires book.Valid() && order !in book.StackFor(order.op, order.bot).list && !order.bot
      modifies book`log, book.buys, book.sells, order, book.StackFor(order.op.Other(), false).list
      ensures book.Valid() && ok == OrderUpdates.UpdateOrder(old(order.Row()), data, allowed).Some?
      ensures var step := Runs.UpdateStep(old(book.View()), old(order.Row()), data, allowed);
              book.View() == step.book && book.log == old(book.log) + step.trades
    {
      var exist := book.IsExistsInStack(order);
      book.StackFor(order.op, false).ViewIds(order.id);
      book.RemoveOrderFromStack(order);
      ok := ChangeOutside(order, data, allowed);
      if ok && exist {
        book.ProcessOrder(order);
      }
    }

    /** Changing an object that is in no stack leaves the book as it is. */
    method ChangeOutside(order: Order, data: UpdateData, allowed: bool) returns (ok: bool)
      requires book.Valid() && order.id !in book.StackFor(order.op, order.bot).orders
      modifies order
      ensures book.Valid() && book.View() == old(book.View())
      ensures ok == OrderUpdates.UpdateOrder(old(order.Row()), data, allowed).Some?
      ensures ok ==> order.Row() == OrderUpdates.UpdateOrder(old(order.Row()), data, allowed).value
    {
      book.NotResting(order);
      ok := order.UpdateOrder(data, allowed);
      book.SameRows();
    }

    /**
     Reprices the auto orders of users and sends the changed ones through the book again;
     false when the updater raised, which leaves the book as it was.
     */
    method OtcBulkUpdate(updater: OtcOrdersBulkUpdater, ghost live: set<Order>) returns (ok: bool)
      requires book.Valid() && book.Within(live) && DistinctIds(updater.orders)
      requires forall j :: 0 <= j < |updater.orders| ==> !updater.orders[j].bot && updater.orders[j] !in live
      modifies book`log, book.sells, book.buys, book.botSells, book.botBuys, updater.orders, live
      ensures book.Valid()
      ensures var cs := updater.Candidates(old(Rows(updater.orders)));
              var step := if AnyRaises(cs, updater.currentPrice) then Runs.Step(old(book.View()), [])
                          else Runs.BulkStep(old(book.View()), RepriceAll(cs, updater.currentPrice));
              && ok == !AnyRaises(cs, updater.currentPrice)
              && book.View() == step.book && book.log == old(book.log) + step.trades
    {
      var orders2reload;
      ok, orders2reload := RepriceOutside(updater, live);
      if !ok {
        return;
      }
      ghost var us, b := Rows(orders2reload), book.View();
      RemoveEach(orders2reload, live);
      assert Rows(orders2reload) == us && book.View() == Runs.RemoveAll(b, us);
      ProcessEach(orders2reload, live);
    }

    /** The updater works on objects that are in no stack. */
    method RepriceOutside(updater: OtcOrdersBulkUpdater, ghost live: set<Order>) returns (ok: bool, updated: seq<Order>)
      requires book.Valid() && book.Within(live) && DistinctIds(updater.orders)
      requires forall j :: 0 <= j < |updater.orders| ==> !updater.orders[j].bot && updater.orders[j] !in live
      modifies updater.orders
      ensures book.Valid() && book.View() == old(book.View())
      ensures ok <==> !AnyRaises(updater.Candidates(old(Rows(updater.orders))), updater.currentPrice)
      ensures Rows(updated) == RepriceAll(updater.Candidates(old(Rows(updater.orders))), updater.currentPrice)
      ensures DistinctIds(updated)
      ensures forall j :: 0 <= j < |updated| ==>
                && updated[j] in updater.orders && updated[j].kind == External
                && !updated[j].bot && updated[j] !in live
    {
      ok, updated := updater.ProcessOrders();
      book.SameRows();
    }

    /** First every repriced order leaves its stack. */
    method RemoveEach(orders: seq<Order>, ghost live: set<Order>)
      requires book.Valid() && book.Within(live) && DistinctIds(orders)
      requires forall j :: 0 <= j < |orders| ==> !orders[j].bot && orders[j].kind == External && orders[j] !in live
      modifies book.sells, book.buys
      ensures book.Valid() && book.Within(live) && Arriving(orders)
      ensures book.View() == Runs.RemoveAll(old(book.View()), Rows(orders))
    {
      ghost var rows, b := Rows(orders), book.View();
      assert rows[0..] == rows;
      for i := 0 to |orders|
        invariant book.Valid() && book.Within(live) && Rows(orders) == rows
        invariant Gone(orders, i) && Runs.RemoveAll(b, rows) == Runs.RemoveAll(book.View(), rows[i..])
      {
        assert rows[i..][0] == orders[i].Row() && rows[i..][1..] == rows[i + 1..];
        RemoveNext(orders[i], orders, i, live);
      }
    }

    ghost predicate Gone(orders: seq<Order>, i: nat)
      reads book.sells, book.buys
    {
      i <= |orders| && forall j :: 0 <= j < i ==> orders[j].id !in book.StackFor(orders[j].op, false).orders
    }

    method RemoveNext(order: Order, ghost orders: seq<Order>, ghost i: nat, ghost live: set<Order>)
      requires book.Valid() && book.Within(live) && Gone(orders, i) && i < |orders| && order == orders[i]
      modifies book.StackFor(order.op, false)
      ensures book.Valid() && book.Within(live) && Gone(orders, i + 1)
      ensures book.View() == Runs.RemoveFromStack(old(book.View()), order.Row())
    {
      book.RemoveOrderFromStack(order);
      assert book.StackFor(Buy, false).Shrinks() && book.StackFor(Sell, false).Shrinks();
      assert Gone(orders, i);
    }

    /** Orders about to be processed: different ids, none of them in its own stack. */
    ghost predicate Arriving(orders: seq<Order>)
      reads book.sells, book.buys, book.botSells, book.botBuys
    {
      && DistinctIds(orders)
      && forall j :: 0 <= j < |orders| ==>
           && orders[j].id !in book.StackFor(orders[j].op, orders[j].bot).orders
           && (orders[j].kind == Market || orders[j].kind == Exchange ==> orders[j].op == Sell)
    }

    /** One order processed; the orders that wait behind it are as they were. */
    method Advance(order: Order, ghost waiting: seq<Order>, ghost live: set<Order>)
      requires book.Valid() && Arriving([order] + waiting) && book.Within(live)
      modifies book`log, book.sells, book.buys, book.botSells, book.botBuys, order, live
      ensures book.Valid() && Arriving(waiting) && book.Within(live + {order})
      ensures var step := Runs.BookProcess(old(book.View()), old(order.Row()));
              book.View() == step.book && book.log == old(book.log) + step.trades
      ensures Rows(waiting) == old(Rows(waiting))
    {
      FirstArriving(order, waiting);
      book.ProcessOrder(order);
      RowsUnchanged(waiting);
    }

    lemma {:induction false} FirstArriving(order: Order, waiting: seq<Order>)
      requires Arriving([order] + waiting)
      ensures order.id !in book.StackFor(order.op, order.bot).orders
      ensures order.Row().IsMarket() ==> order.op == Sell
      ensures Arriving(waiting) && forall j :: 0 <= j < |waiting| ==> waiting[j].id != order.id
    {
      var all := [order] + waiting;
      assert all[0] == order && forall j :: 0 <= j < |waiting| ==> all[j + 1] == waiting[j];
    }

    /** Runs the given orders through the book, one after another. */
    method ProcessEach(orders: seq<Order>, ghost live: set<Order>)
      requires book.Valid() && Arriving(orders) && book.Within(live)
      modifies book`log, book.sells, book.buys, book.botSells, book.botBuys, orders, live
      ensures book.Valid()
      ensures var r := Runs.ProcessAll(old(book.View()), old(Rows(orders)));
              book.View() == r.book && book.log == old(book.log) + r.trades
    {
      ghost var rows, log, b := Rows(orders), book.log, book.View();
      ghost var done: seq<Trade>, seen := [], live;
      Start(orders, live);
      for i := 0 to |orders|
        invariant Underway(orders, rows, i, seen, b, log, done)
        invariant forall o :: o in seen ==> o in live || o in orders
      {
        done := ProcessNext(orders[i], orders, rows, i, seen, b, log, done);
        seen := seen + {orders[i]};
      }
      End(orders, rows, seen, b, log, done);
    }

    lemma {:induction false} End(orders: seq<Order>, rows: seq<OrderData>, seen: set<Order>, b: Runs.Book,
        log: seq<Trade>, done: seq<Trade>)
      requires Underway(orders, rows, |orders|, seen, b, log, done)
      ensures book.Valid()
      ensures var r := Runs.ProcessAll(b, rows); book.View() == r.book && book.log == log + r.trades
    {
      assert done + [] == done;
    }

    /** i of the orders processed from book b, with these trades; the others as they came. */
    ghost predicate Underway(orders: seq<Order>, rows: seq<OrderData>, i: nat, seen: set<Order>, b: Runs.Book,
        log: seq<Trade>, done: seq<Trade>)
      reads book, book.sells, book.buys, book.botSells, book.botBuys
      reads book.sells.list, book.buys.list, book.botSells.list, book.botBuys.list, orders
    {
      && i <= |orders| == |rows|
      && book.Valid() && book.Within(seen) && Arriving(orders[i..]) && Rows(orders[i..]) == rows[i..]
      && Runs.Reaches(b, rows, i, book.View(), done) && book.log == log + done
    }

    lemma {:induction false} Start(orders: seq<Order>, live: set<Order>)
      requires book.Valid() && Arriving(orders) && book.Within(live)
      ensures Underway(orders, Rows(orders), 0, live, book.View(), book.log, [])
    {
      assert Rows(orders)[0..] == Rows(orders) && orders[0..] == orders && book.log + [] == book.log;
    }

    method ProcessNext(order: Order, ghost orders: seq<Order>, ghost rows: seq<OrderData>, ghost i: nat,
                       ghost seen: set<Order>, ghost b: Runs.Book, ghost log: seq<Trade>, ghost done: seq<Trade>)
      returns (ghost done': seq<Trade>)
      requires Underway(orders, rows, i, seen, b, log, done) && i < |orders| && order == orders[i]
      modifies book`log, book.sells, book.buys, book.botSells, book.botBuys, order, seen
      ensures Underway(orders, rows, i + 1, seen + {order}, b, log, done')
    {
      ghost var view, waiting := book.View(), orders[i + 1..];
      assert orders[i..] == [order] + waiting;
      assert order.Row() == rows[i] && Rows(waiting) == rows[i + 1..] by {
        assert order == orders[i..][0] && forall j :: 0 <= j < |waiting| ==> waiting[j] == orders[i..][j + 1];
      }
      Runs.ReachesNext(b, rows, i, view, done);
      Advance(order, waiting, seen);
      done' := done + Runs.BookProcess(view, rows[i]).trades;
      AppendAssoc(log, done, Runs.BookProcess(view, rows[i]).trades);
    }
  }
}
