/** The price updater of auto orders, on objects read afresh from the database. */
module OtcUpdater {
  import opened OrderTypes
  import opened Decimals
  import opened Orders
  import opened OrderUpdates

  class OtcOrdersBulkUpdater {
    const orders: seq<Order>
    const currentPrice: real
    /** Orders whose new price fails the deviation check, and those whose change is refused. */
    const tooFar: set<int>
    const refused: set<int>

    constructor (orders: seq<Order>, currentPrice: real, tooFar: set<int>, refused: set<int>)
      ensures this.orders == orders && this.currentPrice == currentPrice
      ensures this.tooFar == tooFar && this.refused == refused
    {
      this.orders, this.currentPrice, this.tooFar, this.refused := orders, currentPrice, tooFar, refused;
    }

    function CandidateOf(row: OrderData): Candidate {
      Candidate(row.(otcUpdated := false), row.id in tooFar, row.id !in refused)
    }

    function Candidates(rows: seq<OrderData>): (cs: seq<Candidate>)
      ensures |cs| == |rows| && forall i :: 0 <= i < |rows| ==> cs[i] == CandidateOf(rows[i])
    {
      seq(|rows|, i requires 0 <= i < |rows| => CandidateOf(rows[i]))
    }

    /**
     Reprices the auto orders that need it and returns them, in order. When an order has no
     percent or limit the source raises there: the orders before it have their new prices
     already, and nothing is returned to the caller.
     */
    method ProcessOrders() returns (ok: bool, updated: seq<Order>)
      requires DistinctIds(orders)
      modifies orders
      ensures ok <==> !AnyRaises(Candidates(old(Rows(orders))), currentPrice)
      ensures Rows(updated) == RepriceAll(Candidates(old(Rows(orders))), currentPrice)
      ensures DistinctIds(updated)
      ensures forall j :: 0 <= j < |updated| ==> updated[j] in orders && updated[j].kind == External
    {
      updated := [];
      ghost var rows := Rows(orders);
      Start(rows);
      for i := 0 to |orders|
        invariant Done(rows, i, updated)
      {
        var raised;
        raised, updated := ProcessNext(orders[i], rows, i, updated);
        if raised {
          return false, updated;
        }
      }
      assert Candidates(rows)[|orders|..] == [];
      return true, updated;
    }

    /** i orders seen; `updated` are the repriced ones, the rest of the work is on the others. */
    ghost predicate Done(rows: seq<OrderData>, i: nat, updated: seq<Order>)
      reads orders, updated
    {
      && i <= |orders| == |rows|
      && Rows(orders[i..]) == rows[i..]
      && (forall k :: 0 <= k < i ==> !Raises(Candidates(rows)[k], currentPrice))
      && RepriceAll(Candidates(rows), currentPrice) == Rows(updated) + RepriceAll(Candidates(rows)[i..], currentPrice)
      && Chosen(updated, i)
    }

    ghost predicate Chosen(updated: seq<Order>, i: nat)
      requires i <= |orders|
    {
      && DistinctIds(updated)
      && forall j :: 0 <= j < |updated| ==> updated[j] in orders[..i] && updated[j].kind == External
    }

    lemma {:induction false} Start(rows: seq<OrderData>)
      requires rows == Rows(orders)
      ensures Done(rows, 0, [])
    {
      assert orders[0..] == orders && rows[0..] == rows && Candidates(rows)[0..] == Candidates(rows);
    }

    /** The next order as it was read, and what the updater makes of it and of the others. */
    lemma {:induction false} Next(rows: seq<OrderData>, i: nat, updated: seq<Order>)
      requires DistinctIds(orders) && i < |orders| && Done(rows, i, updated)
      ensures orders[i].Row() == rows[i] && Rows(orders[i + 1..]) == rows[i + 1..]
      ensures forall j :: 0 <= j < |updated| ==> updated[j].id != orders[i].id
      ensures var cs := Candidates(rows);
              RepriceAll(cs[i..], currentPrice) ==
              if Raises(cs[i], currentPrice) then []
              else
                var u, rest := Reprice(cs[i], currentPrice), RepriceAll(cs[i + 1..], currentPrice);
                if u.Some? then [u.value] + rest else rest
    {
      var cs := Candidates(rows);
      assert orders[i..][0] == orders[i] && orders[i..][1..] == orders[i + 1..] && rows[i..][1..] == rows[i + 1..];
      assert cs[i..][0] == cs[i] && cs[i..][1..] == cs[i + 1..];
      forall j | 0 <= j < |updated| ensures updated[j].id != orders[i].id {
        var k :| 0 <= k < i && orders[k] == updated[j];
      }
    }

    method ProcessNext(order: Order, ghost rows: seq<OrderData>, ghost i: nat, updated: seq<Order>)
      returns (raised: bool, updated': seq<Order>)
      requires DistinctIds(orders) && i < |orders| && order == orders[i] && Done(rows, i, updated)
      modifies order
      ensures if raised
              then Raises(Candidates(rows)[i], currentPrice) && Chosen(updated', i)
                   && RepriceAll(Candidates(rows), currentPrice) == Rows(updated')
              else Done(rows, i + 1, updated')
    {
      ghost var rest, before := orders[i + 1..], Rows(updated);
      ghost var behind := RepriceAll(Candidates(rows)[i + 1..], currentPrice);
      Next(rows, i, updated);
      var repriced;
      raised, repriced := ProcessOne(order);
      RowsUnchanged(updated);
      RowsUnchanged(rest);
      updated' := updated;
      if raised {
        assert before + [] == before;
        return;
      }
      if repriced {
        AppendAssoc(before, [order.Row()], behind);
        RowsAppend(updated, order);
        updated' := updated + [order];
      }
      ChosenNext(i, updated, updated');
    }

    lemma {:induction false} ChosenNext(i: nat, updated: seq<Order>, updated': seq<Order>)
      requires i < |orders| && Chosen(updated, i)
      requires forall j :: 0 <= j < |updated| ==> updated[j].id != orders[i].id
      requires updated' == updated || (updated' == updated + [orders[i]] && orders[i].kind == External)
      ensures Chosen(updated', i + 1)
    {
      assert orders[..i + 1] == orders[..i] + [orders[i]];
    }

    /** One order: skipped, or given its new price in place, unless it makes the source raise. */
    method ProcessOne(order: Order) returns (raised: bool, repriced: bool)
      modifies order
      ensures raised <==> Raises(CandidateOf(old(order.Row())), currentPrice)
      ensures !raised ==>
                var u := Reprice(CandidateOf(old(order.Row())), currentPrice);
                repriced == u.Some? && (u.Some? ==> order.Row() == u.value)
      ensures !repriced ==> order.Row() == old(order.Row()).(otcUpdated := false)
      ensures repriced ==> order.Row() == old(order.Row()).(price := order.price, otcUpdated := true)
      ensures repriced ==> order.id !in tooFar && (order.price != old(order.price) ==> order.id !in refused)
      ensures !raised && order.kind == External ==>
                FollowsMarket(CandidateOf(old(order.Row())), currentPrice, order.price, repriced)
    {
      order.otcUpdated := false;
      ghost var row := order.Row();
      if !Raises(CandidateOf(row), currentPrice) {
        RepricedTo(CandidateOf(row), currentPrice);
      }
      if order.kind != External {
        return false, false;
      }
      if order.otcPercent.None? {
        return true, false;
      }
      var newPrice := MovedPrice(currentPrice, order.otcPercent.value);
      if newPrice == 0.0 {
        return false, false;
      }
      if order.otcLimit.None? {
        return true, false;
      }
      var limit := Dec(order.otcLimit.value);
      if order.op == Buy {
        newPrice := if newPrice <= limit then newPrice else limit;
      } else {
        newPrice := if newPrice >= limit then newPrice else limit;
      }
      if Dec(order.price) == newPrice || order.id in tooFar {
        return false, false;
      }
      assert newPrice == LimitedPrice(row, currentPrice);
      var ok := order.UpdateOrder(PriceOnly(newPrice), order.id !in refused);
      if !ok {
        return false, false;
      }
      order.otcUpdated := true;
      return false, true;
    }
  }
}
