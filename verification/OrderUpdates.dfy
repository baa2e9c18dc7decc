/** Changing an open order, by its owner or by the auto-order price updater. */
module OrderUpdates {
  import opened OrderTypes
  import opened Decimals

  /** The keys an update carries; a missing key keeps the order's own value. */
  datatype UpdateData = UpdateData(
    price: Option<real>,
    quantity: Option<real>,
    stop: Option<Option<real>>,
    otcPercent: Option<real>,
    otcLimit: Option<real>)
  {
    predicate IsOtc() {
      otcPercent.Some? && otcPercent.value != 0.0
    }
  }

  function PriceOnly(price: real): UpdateData {
    UpdateData(Some(price), None, None, None, None)
  }

  function TicksOr(x: Option<real>, own: int): int {
    if x.Some? then ToTicks(x.value) else own
  }

  function TicksOption(x: Option<real>): Option<int> {
    if x.Some? then Some(ToTicks(x.value)) else None
  }

  /** The stop an update asks for. */
  function NewStop(o: OrderData, d: UpdateData): Option<int> {
    if d.stop.Some? then TicksOption(d.stop.value) else o.stop
  }

  /**
   The updated order, or None when the source raises. `allowed` says whether the
   limit checker and the balance hold accept the change.
   */
  function UpdateOrder(o: OrderData, d: UpdateData, allowed: bool): Option<OrderData> {
    if o.state != Opened || o.IsMarket() || (d.IsOtc() && o.kind != External) then None
    else
      var o1 := if d.IsOtc()
                then o.(otcPercent := TicksOption(d.otcPercent), otcLimit := TicksOption(d.otcLimit))
                else o;
      var price := TicksOr(d.price, o.price);
      var stop := NewStop(o, d);
      var quantity := TicksOr(d.quantity, o.quantity);
      var left := quantity - (o.quantity - o.left);
      if price <= 0 then None
      else if o.price == price && o.quantity == quantity && o.stop == stop then Some(o1)
      else if left <= 0 || !allowed then None
      else Some(o1.(price := price, stop := stop, left := left, quantity := quantity))
  }

  /** The update asks for the price, quantity and stop the order has. */
  predicate AsksNothing(o: OrderData, d: UpdateData) {
    && TicksOr(d.price, o.price) == o.price && TicksOr(d.quantity, o.quantity) == o.quantity
    && (d.stop.Some? ==> TicksOption(d.stop.value) == o.stop)
  }

  /** Nor another percent or limit. */
  predicate ChangesNothing(o: OrderData, d: UpdateData) {
    && AsksNothing(o, d)
    && (d.IsOtc() ==> TicksOption(d.otcPercent) == o.otcPercent && TicksOption(d.otcLimit) == o.otcLimit)
  }

  /**
   What can be checked before an update: an open limit, auto or stop-limit order, auto data
   for auto orders only, a positive price, and either nothing new or a quantity above what
   was executed, with the limits and the hold agreeing.
   */
  predicate Acceptable(o: OrderData, d: UpdateData, allowed: bool) {
    && o.state == Opened && (o.kind == External || o.kind == Limit || o.kind == StopLimit)
    && (d.IsOtc() ==> o.kind == External)
    && TicksOr(d.price, o.price) > 0
    && (AsksNothing(o, d) || (TicksOr(d.quantity, o.quantity) > o.quantity - o.left && allowed))
  }

  lemma {:induction false} AcceptedIff(o: OrderData, d: UpdateData, allowed: bool)
    ensures UpdateOrder(o, d, allowed).Some? <==> Acceptable(o, d, allowed)
  {
  }

  lemma {:induction false} ChangesNothingIff(o: OrderData, d: UpdateData, allowed: bool)
    requires UpdateOrder(o, d, allowed).Some?
    ensures UpdateOrder(o, d, allowed).value == o <==> ChangesNothing(o, d)
  {
  }

  /** An update keeps what was executed and leaves an order that can still trade. */
  lemma {:induction false} UpdateKeepsExecuted(o: OrderData, d: UpdateData, allowed: bool)
    requires o.left > 0 && UpdateOrder(o, d, allowed).Some?
    ensures var u := UpdateOrder(o, d, allowed).value;
            && u.quantity - u.left == o.quantity - o.left && u.left > 0 && u.price > 0
            && u.id == o.id && u.op == o.op && u.bot == o.bot && u.kind == o.kind
            && u.state == Opened && !u.IsMarket() && u.otcUpdated == o.otcUpdated
  {
  }

  /**
   What a request makes of an order. Price, quantity and stop are those asked for, cut to 8
   places, or the order's own; what was executed is taken off the quantity; auto data brings
   its percent and its limit. Nothing else changes.
   */
  ghost predicate AsRequested(o: OrderData, d: UpdateData, u: OrderData) {
    && u.price == (match d.price case Some(x) => ToTicks(x) case None => o.price)
    && u.quantity == (match d.quantity case Some(x) => ToTicks(x) case None => o.quantity)
    && u.stop == (match d.stop case Some(Some(x)) => Some(ToTicks(x)) case Some(None) => None case None => o.stop)
    && u.left == u.quantity - (o.quantity - o.left)
    && (if d.otcPercent.Some? && d.otcPercent.value != 0.0 then
          && u.otcPercent == Some(ToTicks(d.otcPercent.value))
          && u.otcLimit == (match d.otcLimit case Some(x) => Some(ToTicks(x)) case None => None)
        else u.otcPercent == o.otcPercent && u.otcLimit == o.otcLimit)
    && u == o.(price := u.price, quantity := u.quantity, left := u.left, stop := u.stop,
               otcPercent := u.otcPercent, otcLimit := u.otcLimit)
  }

  /** An accepted update does that, and only that, whether it writes the row or finds nothing to change. */
  lemma {:induction false} UpdatedFields(o: OrderData, d: UpdateData, allowed: bool)
    requires UpdateOrder(o, d, allowed).Some?
    ensures forall u :: AsRequested(o, d, u) <==> u == UpdateOrder(o, d, allowed).value
  {
    var v := UpdateOrder(o, d, allowed).value;
    assert AsRequested(o, d, v);
    forall u | AsRequested(o, d, u) ensures u == v {
      assert u.price == v.price && u.quantity == v.quantity && u.left == v.left;
    }
  }

  /** Asking the same once more is accepted and changes nothing. */
  lemma {:induction false} UpdateTwice(o: OrderData, d: UpdateData, allowed: bool, allowedAgain: bool)
    requires UpdateOrder(o, d, allowed).Some?
    ensures UpdateOrder(UpdateOrder(o, d, allowed).value, d, allowedAgain) == UpdateOrder(o, d, allowed)
  {
  }

  /** The market price moved by the order's percent. */
  function MovedPrice(current: real, percent: int): real {
    current * (1.0 + Dec(percent) / 100.0)
  }

  /** The updater's price before it is cut to 8 places. */
  function LimitedPrice(o: OrderData, current: real): real
    requires o.otcPercent.Some? && o.otcLimit.Some?
  {
    var moved := MovedPrice(current, o.otcPercent.value);
    var limit := Dec(o.otcLimit.value);
    if o.op == Buy then (if moved <= limit then moved else limit)
    else (if moved >= limit then moved else limit)
  }

  /** One auto order seen by the updater, with the answers of the checks around it. */
  datatype Candidate = Candidate(order: OrderData, tooFar: bool, allowed: bool)

  /** The updater raises at an auto order without a percent, or without a limit for its new price. */
  predicate Raises(c: Candidate, current: real) {
    && c.order.kind == External
    && (|| c.order.otcPercent.None?
        || (MovedPrice(current, c.order.otcPercent.value) != 0.0 && c.order.otcLimit.None?))
  }

  predicate AnyRaises(cs: seq<Candidate>, current: real) {
    exists i :: 0 <= i < |cs| && Raises(cs[i], current)
  }

  /** The repriced order, or None when the updater skips it. */
  function Reprice(c: Candidate, current: real): Option<OrderData>
    requires !Raises(c, current)
  {
    var o := c.order;
    if o.kind != External || MovedPrice(current, o.otcPercent.value) == 0.0 then None
    else
      var price := LimitedPrice(o, current);
      if Dec(o.price) == price || c.tooFar then None
      else
        var u := UpdateOrder(o, PriceOnly(price), c.allowed);
        if u.None? then None else Some(u.value.(otcUpdated := true))
  }

  /** A repriced auto order is within its limit, to the last place, after cutting too. */
  lemma {:induction false} RepriceWithinLimit(c: Candidate, current: real)
    requires !Raises(c, current) && c.order.left > 0 && Reprice(c, current).Some?
    ensures var u := Reprice(c, current).value;
            && u.WithinOtcLimit() && u.price > 0 && u.left == c.order.left && u.otcUpdated
            && u.id == c.order.id && u.op == c.order.op && u.bot == c.order.bot
            && u.state == Opened && !u.IsMarket()
  {
    var o := c.order;
    var price := LimitedPrice(o, current);
    ToTicksOfDec(o.otcLimit.value);
    if o.op == Buy {
      ToTicksMonotone(price, Dec(o.otcLimit.value));
    } else {
      ToTicksMonotone(Dec(o.otcLimit.value), price);
    }
  }

  /**
   An auto order in terms of the market price: it gets that price plus as many hundredths of it
   as its percent says, but no more than its limit if it buys and no less if it sells, cut to
   8 places. It is skipped when it has that price, when that is nothing or too far off, and
   when the change is refused.
   */
  ghost predicate FollowsMarket(c: Candidate, current: real, price: int, repriced: bool)
    requires c.order.otcPercent.Some?
  {
    var o := c.order;
    var moved := current + current * Dec(o.otcPercent.value) / 100.0;
    if moved == 0.0 then !repriced
    else
      && o.otcLimit.Some?
      && var limit := Dec(o.otcLimit.value);
         var wanted := if o.op == Buy then (if limit < moved then limit else moved)
                       else (if limit > moved then limit else moved);
         && (repriced ==> price == ToTicks(wanted))
         && (repriced <==>
               && wanted != Dec(o.price) && !c.tooFar && o.state == Opened && ToTicks(wanted) > 0
               && (ToTicks(wanted) == o.price || (o.left > 0 && c.allowed)))
  }

  /** So it is, and the rest of the order stays. */
  lemma {:induction false} RepricedTo(c: Candidate, current: real)
    requires !Raises(c, current)
    ensures c.order.kind != External ==> Reprice(c, current) == None
    ensures var u := Reprice(c, current);
            && (u.Some? ==> u.value == c.order.(price := u.value.price, otcUpdated := true))
            && (c.order.kind == External ==>
                  FollowsMarket(c, current, if u.Some? then u.value.price else c.order.price, u.Some?))
  {
    if c.order.otcPercent.Some? {
      MovedBy(current, c.order.otcPercent.value);
    }
  }

  lemma {:induction false} MovedBy(current: real, percent: int)
    ensures MovedPrice(current, percent) == current + current * Dec(percent) / 100.0
  {
  }

  lemma {:induction false} RaisesIff(c: Candidate, current: real)
    ensures Raises(c, current) <==>
              && c.order.kind == External
              && (|| c.order.otcPercent.None?
                  || (current + current * Dec(c.order.otcPercent.value) / 100.0 != 0.0 && c.order.otcLimit.None?))
  {
    if c.order.otcPercent.Some? {
      MovedBy(current, c.order.otcPercent.value);
    }
  }

  /** The orders repriced, in order; the updater gets no further than the first that raises. */
  function RepriceAll(cs: seq<Candidate>, current: real): (us: seq<OrderData>) {
    if cs == [] || Raises(cs[0], current) then []
    else
      var u := Reprice(cs[0], current);
      (if u.Some? then [u.value] else []) + RepriceAll(cs[1..], current)
  }

  /** All of them follow the market. */
  lemma {:induction false} AllFollowMarket(cs: seq<Candidate>, current: real)
    ensures forall u :: u in RepriceAll(cs, current) ==>
              exists c :: c in cs && c.order.kind == External && c.order.otcPercent.Some?
                && u == c.order.(price := u.price, otcUpdated := true) && FollowsMarket(c, current, u.price, true)
  {
    if cs != [] && !Raises(cs[0], current) {
      AllFollowMarket(cs[1..], current);
      RepricedTo(cs[0], current);
      assert cs == [cs[0]] + cs[1..];
    }
  }

  /** The orders before the first that raises count one by one, in their order; those behind it do not. */
  lemma {:induction false} RepriceAllSplit(a: seq<Candidate>, c: Candidate, b: seq<Candidate>, current: real)
    requires !AnyRaises(a, current)
    ensures RepriceAll(a + [c] + b, current) ==
            RepriceAll(a, current) +
            if Raises(c, current) then []
            else match Reprice(c, current)
                 case Some(u) => [u] + RepriceAll(b, current)
                 case None => RepriceAll(b, current)
  {
    if a == [] {
      assert a + [c] + b == [c] + b && ([c] + b)[1..] == b;
    } else {
      assert !Raises(a[0], current);
      assert (a + [c] + b)[1..] == a[1..] + [c] + b;
      forall i | 0 <= i < |a[1..]| ensures !Raises(a[1..][i], current) {
        assert a[1..][i] == a[i + 1];
      }
      RepriceAllSplit(a[1..], c, b, current);
      var u := Reprice(a[0], current);
      AppendAssoc(if u.Some? then [u.value] else [], RepriceAll(a[1..], current),
                  RepriceAll(a[1..] + [c] + b, current)[|RepriceAll(a[1..], current)|..]);
    }
  }
}
