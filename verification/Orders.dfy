/** Orders as objects: the fields the engine changes in place. */
module Orders {
  import opened OrderTypes
  import opened Decimals
  import OrderUpdates

  class Order {
    const id: int
    const op: Operation
    const kind: Kind
    const bot: bool
    var state: State
    var price: int
    var quantity: int
    var left: int
    var cost: Option<int>
    var stop: Option<int>
    var otcLimit: Option<int>
    var otcPercent: Option<int>
    var otcUpdated: bool

    constructor (row: OrderData)
      ensures Row() == row
    {
      id, op, kind, bot := row.id, row.op, row.kind, row.bot;
      state, price, quantity, left := row.state, row.price, row.quantity, row.left;
      cost, stop := row.cost, row.stop;
      otcLimit, otcPercent, otcUpdated := row.otcLimit, row.otcPercent, row.otcUpdated;
    }

    function Row(): (r: OrderData)
      reads this
      ensures r.id == id && r.op == op && r.bot == bot && r.kind == kind
    {
      OrderData(id, op, kind, bot, state, price, quantity, left, cost, stop, otcLimit, otcPercent, otcUpdated)
    }

    /** Trades with an order of the stack, at that order's price. */
    method Execute(order: Order) returns (trade: Trade)
      requires op == order.op.Other()
      modifies this`left, this`state, order`left, order`state
      ensures var q := Min(old(left), old(order.left));
              && Row() == old(Row()).Settle(q) && order.Row() == old(order.Row()).Settle(q)
              && trade == Trade(old(Row()), old(order.Row()), order.price, q)
              && left == old(left) - q && order.left == old(order.left) - q
              && (left == 0 ==> state == Closed) && (order.left == 0 ==> order.state == Closed)
    {
      var q := Min(left, order.left);
      trade := Trade(Row(), order.Row(), order.price, q);
      ExecuteHalf(q);
      order.ExecuteHalf(q);
    }

    method ExecuteHalf(q: int)
      modifies this`left, this`state
      ensures Row() == old(Row()).Settle(q)
    {
      left := left - q;
      if left == 0 {
        state := Closed;
      }
    }

    method CancelOrder()
      modifies this`state
      ensures Row() == old(Row()).Cancel()
      ensures state == if old(state) == Opened then Canceled else old(state)
    {
      if state != Opened {
        return;
      }
      state := Canceled;
    }

    /** Changes this object; on failure the source raises and nothing of it is saved. */
    method UpdateOrder(d: OrderUpdates.UpdateData, allowed: bool) returns (ok: bool)
      modifies this
      ensures ok <==> OrderUpdates.UpdateOrder(old(Row()), d, allowed).Some?
      ensures ok ==> Row() == OrderUpdates.UpdateOrder(old(Row()), d, allowed).value
      ensures ok ==> OrderUpdates.AsRequested(old(Row()), d, Row())
      ensures !ok ==> Row() == if d.IsOtc() then old(Row()).(otcPercent := otcPercent, otcLimit := otcLimit)
                               else old(Row())
    {
      ghost var row := Row();
      if state != Opened || Row().IsMarket() || (d.IsOtc() && kind != External) {
        return false;
      }
      if d.IsOtc() {
        otcPercent := OrderUpdates.TicksOption(d.otcPercent);
        otcLimit := OrderUpdates.TicksOption(d.otcLimit);
      }
      var newPrice := OrderUpdates.TicksOr(d.price, price);
      var newStop := if d.stop.Some? then OrderUpdates.TicksOption(d.stop.value) else stop;
      var newQuantity := OrderUpdates.TicksOr(d.quantity, quantity);
      if newPrice <= 0 {
        return false;
      }
      if price == newPrice && quantity == newQuantity && stop == newStop {
        OrderUpdates.UpdatedFields(row, d, allowed);
        return true;
      }
      var executed := quantity - left;
      var newLeft := newQuantity - executed;
      if newLeft <= 0 || !allowed {
        return false;
      }
      price, stop, left, quantity := newPrice, newStop, newLeft, newQuantity;
      OrderUpdates.UpdatedFields(row, d, allowed);
      return true;
    }
  }

  /** The values of a list of orders. */
  function Rows(l: seq<Order>): (r: seq<OrderData>)
    reads l
    ensures |r| == |l| && forall i :: 0 <= i < |l| ==> r[i] == l[i].Row()
  {
    seq(|l|, i requires 0 <= i < |l| reads l => l[i].Row())
  }

  lemma {:induction false} RowsAppend(l: seq<Order>, o: Order)
    ensures Rows(l + [o]) == Rows(l) + [o.Row()]
  {
  }

  lemma {:induction false} RowsCons(o: Order, l: seq<Order>)
    ensures Rows([o] + l) == [o.Row()] + Rows(l)
  {
  }

  lemma {:induction false} RowsConcat(a: seq<Order>, b: seq<Order>)
    ensures Rows(a + b) == Rows(a) + Rows(b)
  {
  }

  twostate lemma {:induction false} RowsUnchanged(l: seq<Order>)
    requires forall i :: 0 <= i < |l| ==> l[i].Row() == old(l[i].Row())
    ensures Rows(l) == old(Rows(l))
  {
  }

  ghost predicate DistinctIds(l: seq<Order>) {
    forall i, j :: 0 <= i < j < |l| ==> l[i].id != l[j].id
  }
}
