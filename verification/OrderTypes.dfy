/**
 The values an order is made of. Money is held in scaled integers: prices,
 quantities and limits count units of 10^-8, so a product price * quantity counts
 units of 10^-16 and is exact.
 */
module OrderTypes {

  datatype Option<+T> = None | Some(value: T)

  datatype Operation = Buy | Sell {
    function Other(): Operation {
      if Buy? then Sell else Buy
    }
  }

  datatype Kind = Limit | Market | External | Exchange | StopLimit

  datatype State = Opened | Closed | Canceled | Reverted

  /** The cost below which what is left of a sell order is cancelled, 10^-7. */
  const MIN_COST_ORDER_CANCEL: int := 1_000_000_000

  /** The row of an order: the value of an `Order` object at one moment. */
  datatype OrderData = OrderData(
    id: int,
    op: Operation,
    kind: Kind,
    bot: bool,
    state: State,
    price: int,
    quantity: int,
    left: int,
    cost: Option<int>,
    stop: Option<int>,
    otcLimit: Option<int>,
    otcPercent: Option<int>,
    otcUpdated: bool)
  {
    predicate IsMarket() {
      kind == Market || kind == Exchange
    }

    /** What is left is worth less than the smallest cost kept in a book. */
    predicate IsDust() {
      op == Sell && left * price < MIN_COST_ORDER_CANCEL
    }

    /** A trade at this price is no worse than the order's own price. */
    predicate Accepts(tradePrice: int) {
      IsMarket() || (if op == Sell then price <= tradePrice else tradePrice <= price)
    }

    /** The price of an order repriced by the auto-order updater respects its limit. */
    predicate WithinOtcLimit() {
      otcLimit.Some? && if op == Buy then price <= otcLimit.value else otcLimit.value <= price
    }

    /** Loses q from the quantity left; closes at zero. */
    function Settle(q: int): OrderData {
      this.(left := left - q, state := if left - q == 0 then Closed else state)
    }

    /** An open order becomes canceled, any other is left alone. */
    function Cancel(): OrderData {
      if state == Opened then this.(state := Canceled) else this
    }
  }

  /** One match: both orders as they were just before it. */
  datatype Trade = Trade(taker: OrderData, maker: OrderData, price: int, quantity: int)

  /** An order read back from the database, which does not keep the updater's in-memory mark. */
  function Loaded(o: OrderData): OrderData {
    o.(otcUpdated := false)
  }

  function Min(a: int, b: int): int {
    if a <= b then a else b
  }

  lemma {:induction false} AppendAssoc<T>(a: seq<T>, b: seq<T>, c: seq<T>)
    ensures a + (b + c) == (a + b) + c
  {
  }
}
