/** Concrete runs of a site in which a promise is broken. */
module Scenarios {
  import opened OrderTypes
  import opened Decimals
  import opened StackModel
  import opened Matching
  import opened OrderUpdates
  import opened Sites
  import Accounts
  import AutoLimits
  import OpenRows
  import Restarts
  import Runs
  import StopLimit
  import Storage

  /** The events lead from one site to the other. */
  ghost predicate Leads(s: Site, es: seq<Event>, s': Site) {
    AdmissibleRun(s, es) && Run(s, es) == s'
  }

  lemma {:induction false} LeadsOne(s: Site, e: Event)
    requires Admissible(s, e)
    ensures Leads(s, [e], Apply(s, e))
  {
    var s' := Apply(s, e);
    assert [e][1..] == [] && AdmissibleRun(s', []) && Run(s', []) == s';
  }

  lemma {:induction false} LeadsOn(s: Site, es: seq<Event>, s1: Site, es1: seq<Event>, s2: Site)
    requires Leads(s, es, s1) && Leads(s1, es1, s2)
    ensures Leads(s, es + es1, s2)
    decreases |es|
  {
    if es == [] {
      assert es + es1 == es1;
    } else {
      assert (es + es1)[0] == es[0] && (es + es1)[1..] == es[1..] + es1;
      LeadsOn(Apply(s, es[0]), es[1..], s1, es1, s2);
    }
  }

  lemma {:induction false} LeadsTwo(s: Site, e: Event, s1: Site, e1: Event, s2: Site)
    requires Admissible(s, e) && s1 == Apply(s, e) && Admissible(s1, e1) && s2 == Apply(s1, e1)
    ensures Leads(s, [e, e1], s2)
  {
    LeadsOne(s, e);
    LeadsOne(s1, e1);
    LeadsOn(s, [e], s1, [e1], s2);
    assert [e] + [e1] == [e, e1];
  }

  /** A user's limit order that comes in with its whole quantity. */
  predicate Incomer(o: OrderData, op: Operation) {
    && o.op == op && o.kind == Limit && !o.bot && o.state == Opened && !o.otcUpdated
    && o.price > 0 && o.left == o.quantity > 0
  }

  /** A sell and a buy order that trade with each other in full. */
  predicate Pair(sell: OrderData, buy: OrderData) {
    Incomer(sell, Sell) && Incomer(buy, Buy) && sell.id != buy.id && sell.price == buy.price && sell.left == buy.left
  }

  function Done(o: OrderData): OrderData {
    o.(left := 0, state := Closed)
  }

  function UserBook(buys: seq<OrderData>, sells: seq<OrderData>): Runs.Book {
    Runs.Book(Pool(buys, sells), Pool([], []))
  }

  // ---- Small pieces of matching ----

  lemma {:induction false} SellRests(s: Site, o: OrderData)
    requires o.op == Sell && !o.IsMarket() && !o.bot && o.state == Opened && s.book == UserBook([], [])
    ensures EnterBook(s, o) == s.(book := UserBook([], [o]))
  {
  }

  /** An order that meets nothing on the other side rests alone in its own stack. */
  lemma {:induction false} RestsApart(s: Site, o: OrderData, other: seq<OrderData>)
    requires !o.IsMarket() && !o.bot && o.state == Opened && !HasId(other, o.id)
    requires other == [] || !o.Accepts(other[0].price)
    requires s.book.user == Pool([], []).With(o.op.Other(), other)
    ensures EnterBook(s, o) == s.(book := s.book.(user := Pool([], []).With(o.op.Other(), other).With(o.op, [o])))
  {
  }

  /** An order against one maker with as much left, itself at first in its own stack or not. */
  lemma {:induction false} FullTrade(p: Pool, o: OrderData, m: OrderData)
    requires !o.IsMarket() && o.state == Opened && m.state == Opened && o.left == m.left > 0 && o.id != m.id
    requires p.Stack(o.op.Other()) == [m] && o.Accepts(m.price)
    ensures Matching.Process(p, o) ==
            Outcome(Swept(p.With(o.op.Other(), []), Done(o)), Done(o), [Trade(o, m, m.price, o.left)])
  {
    var ms := [m];
    assert !HasId(ms, o.id) && ms[..1] == ms && ms[1..] == [];
    var m' := SettleMaker(m, o.left);
    assert Fill(o, ms).makers == [m'] && Fill(o, ms).trades == [Trade(o, m, m.price, o.left)];
    assert [m'][1..] == [] && m'.state == Closed;
    assert Open([m']) == [];
    assert Selected(o, ms, o.left) == 1 && Remainder(o, ms) == [] by { assert [] + ms[1..] == []; }
    assert o.Settle(o.left) == Done(o) && Fill(o, ms).taker == Done(o);
    assert Execute(p, o) == Outcome(Swept(p.With(o.op.Other(), []), Done(o)), Done(o), Fill(o, ms).trades);
  }

  /** And against one with more left, where the rest is no dust. */
  lemma {:induction false} PairLeaves(sell: OrderData, buy: OrderData)
    requires Incomer(sell, Sell) && Incomer(buy, Buy) && sell.id != buy.id
    requires sell.price == buy.price && buy.left < sell.left
    requires (sell.left - buy.left) * sell.price >= MIN_COST_ORDER_CANCEL
    ensures Matching.Process(Pool([], [sell]), buy) ==
            Outcome(Pool([], [sell.(left := sell.left - buy.left)]), Done(buy),
                    [Trade(buy, sell, sell.price, buy.left)])
  {
    var ms := [sell];
    assert !HasId(ms, buy.id);
    assert ms[..1] == ms && ms[1..] == [];
    var m := SettleMaker(sell, buy.left);
    assert m == sell.(left := sell.left - buy.left);
    assert Fill(buy, ms).makers == [m] && Fill(buy, ms).trades == [Trade(buy, sell, sell.price, buy.left)];
    assert [m][1..] == [];
    assert Open([m]) == [m];
  }

  /** What a trade in full leaves in a site. */
  lemma {:induction false} FullTradeSite(s: Site, o: OrderData, m: OrderData)
    requires !o.IsMarket() && !o.bot && o.state == Opened && m.state == Opened && o.left == m.left > 0 && o.id != m.id
    requires s.book.user.Stack(o.op.Other()) == [m] && o.Accepts(m.price)
    ensures EnterBook(s, o).book == s.book.(user := Swept(s.book.user.With(o.op.Other(), []), Done(o)))
    ensures EnterBook(s, o).tape == s.tape + [Trade(o, m, m.price, o.left)]
    ensures EnterBook(s, o).rows == s.rows[o.id := Done(o)][m.id := Done(m)]
    ensures EnterBook(s, o).caps ==
            s.caps + [Caps(CapOf(s, o.id), CapOf(s, m.id), RowOpen(s, o.id) && RowOpen(s, m.id))]
    ensures SameElsewhere(s, EnterBook(s, o))
  {
    FullTrade(s.book.user, o, m);
    var t := Trade(o, m, m.price, o.left);
    var s0 := s.(book := s.book.(user := Swept(s.book.user.With(o.op.Other(), []), Done(o))));
    var s1 := SaveTrade(s0, t);
    assert [t][1..] == [] && SaveTrades(s0, [t]) == s1;
    assert EnterBook(s, o) == Save(s1, Done(o));
    EnterElsewhere(s, o);
    FullTradeSaved(s0, o, m, t);
  }

  lemma {:induction false} FullTradeSaved(s: Site, o: OrderData, m: OrderData, t: Trade)
    requires o.left == m.left > 0 && o.id != m.id && t == Trade(o, m, m.price, o.left) && m.state == Opened
    ensures var s' := Save(SaveTrade(s, t), Done(o));
            && s'.book == s.book && s'.tape == s.tape + [t] && s'.rows == s.rows[o.id := Done(o)][m.id := Done(m)]
            && s'.caps == s.caps + [Caps(CapOf(s, o.id), CapOf(s, m.id), RowOpen(s, o.id) && RowOpen(s, m.id))]
  {
    assert o.Settle(t.quantity) == Done(o) && SettleMaker(m, t.quantity) == Done(m);
    assert s.rows[o.id := Done(o)][m.id := Done(m)][o.id := Done(o)] == s.rows[o.id := Done(o)][m.id := Done(m)];
  }

  lemma {:induction false} ArrivesFresh(s: Site, p: Placement, s1: Site)
    requires s.queue == [p] + s1.queue && p.order.id !in s.placed
    requires !HasId(s.book.Pool(p.order.bot).Stack(p.order.op), p.order.id)
    requires s1 == Flagged(s.(queue := s1.queue, placed := s.placed + {p.order.id}), p)
    ensures PlaceSite(s, 0) == EnterBook(s1, p.order)
  {
    assert s.queue[..0] + s.queue[1..] == s1.queue;
  }

  /** A site with nothing but this order, at rest. */
  function Alone(o: OrderData): Site {
    START.(rows := map[o.id := o], inStack := {o.id}, live := {o.id}, placed := {o.id},
           book := Runs.EMPTY.(user := Pool([], []).With(o.op, [o])))
  }

  predicate Newcomer(o: OrderData) {
    Runs.FromStore(o) && !o.bot && o.state == Opened && o.left == o.quantity && !o.IsMarket() && o.kind != StopLimit
  }

  lemma {:induction false} FirstRests(o: OrderData)
    requires Newcomer(o)
    ensures Leads(START, [Create(o), Place(0)], Alone(o))
  {
    var s1, p := CreateSite(START, o), Placement(o, true);
    var s2 := Flagged(s1.(queue := [], placed := {o.id}), p);
    assert s1.queue == [p] + [] by { assert [] + [p] == [p]; }
    RestsApart(s2, o, []);
    ArrivesFresh(s1, p, s2);
    LeadsTwo(START, Create(o), s1, Place(0), Alone(o));
  }

  /** Stored, with its placement last in the queue. */
  function Queued(s: Site, o: OrderData): Site {
    s.(rows := s.rows[o.id := o], inStack := s.inStack + {o.id}, queue := s.queue + [Placement(o, true)])
  }

  lemma {:induction false} NextQueued(s: Site, o: OrderData)
    requires Newcomer(o) && o.id !in s.rows && s.apart == {}
    ensures Leads(s, [Create(o)], Queued(s, o))
  {
    LeadsOne(s, Create(o));
  }

  // ---- Placements that a restart has overtaken ----

  /** Two orders stored and queued, neither placed. */
  function TwoQueued(sell: OrderData, buy: OrderData): Site {
    START.(rows := map[sell.id := sell, buy.id := buy], inStack := {sell.id, buy.id},
           queue := [Placement(sell, true), Placement(buy, true)])
  }

  lemma {:induction false} TwoCreated(sell: OrderData, buy: OrderData)
    requires Pair(sell, buy)
    ensures Leads(START, [Create(sell), Create(buy)], TwoQueued(sell, buy))
  {
    var s1 := CreateSite(START, sell);
    assert [] + [Placement(sell, true)] == [Placement(sell, true)];
    assert [Placement(sell, true)] + [Placement(buy, true)] == [Placement(sell, true), Placement(buy, true)];
    assert CreateSite(s1, buy) == TwoQueued(sell, buy);
    LeadsTwo(START, Create(sell), s1, Create(buy), TwoQueued(sell, buy));
  }

  /** Both traded in full, and their placements still queued. */
  ghost predicate Overtaken(s: Site, sell: OrderData, buy: OrderData) {
    && s.book == UserBook([], []) && s.tape == [Trade(buy, sell, sell.price, buy.left)]
    && s.queue == [Placement(sell, true), Placement(buy, true)] && s.placed == {} && s.apart == {}
    && s.rows == map[sell.id := Done(sell), buy.id := Done(buy)]
  }

  lemma {:induction false} TwoToLoad(sell: OrderData, buy: OrderData)
    requires Pair(sell, buy)
    ensures Admissible(TwoQueued(sell, buy), Reload([sell, buy]))
  {
    assert forall o :: o in [sell, buy] <==> o == sell || o == buy;
  }

  lemma {:induction false} TwoEnter(s: Site, sell: OrderData, buy: OrderData)
    requires Pair(sell, buy) && s.book == UserBook([], [])
    ensures EnterAll(s, [sell, buy]) == EnterBook(s.(book := UserBook([], [sell])), buy)
  {
    var os, s1 := [sell, buy], s.(book := UserBook([], [sell]));
    SellRests(s, sell);
    assert os[1..] == [buy] && [buy][1..] == [];
    assert EnterAll(s1, [buy]) == EnterAll(EnterBook(s1, buy), []);
  }

  lemma {:induction false} TwoLoaded(sell: OrderData, buy: OrderData)
    requires Pair(sell, buy)
    ensures Overtaken(ReloadSite(TwoQueued(sell, buy), [sell, buy]), sell, buy)
  {
    var s0 := Emptied(TwoQueued(sell, buy), [sell, buy]);
    TwoEnter(s0, sell, buy);
    TwoTrade(s0.(book := UserBook([], [sell])), sell, buy);
  }

  lemma {:induction false} TwoTrade(s: Site, sell: OrderData, buy: OrderData)
    requires Pair(sell, buy) && s.book == UserBook([], [sell]) && s.tape == [] && s.placed == {} && s.apart == {}
    requires s.queue == [Placement(sell, true), Placement(buy, true)]
    requires s.rows == map[sell.id := sell, buy.id := buy]
    ensures Overtaken(EnterBook(s, buy), sell, buy)
  {
    FullTradeSite(s, buy, sell);
    assert [] + [Trade(buy, sell, sell.price, buy.left)] == [Trade(buy, sell, sell.price, buy.left)];
    BothReplaced(sell.id, buy.id, sell, buy, Done(sell), Done(buy));
  }

  lemma {:induction false} BothReplaced<V>(i: int, k: int, v: V, w: V, v': V, w': V)
    requires i != k
    ensures map[i := v, k := w][k := w'][i := v'] == map[i := v', k := w']
  {
  }

  function Restarted(sell: OrderData, buy: OrderData): seq<Event> {
    [Create(sell), Create(buy)] + [Reload([sell, buy])]
  }

  lemma {:induction false} AfterRestart(sell: OrderData, buy: OrderData) returns (s: Site)
    requires Pair(sell, buy)
    ensures Leads(START, Restarted(sell, buy), s) && Overtaken(s, sell, buy)
  {
    var s0 := TwoQueued(sell, buy);
    s := ReloadSite(s0, [sell, buy]);
    TwoCreated(sell, buy);
    TwoToLoad(sell, buy);
    TwoLoaded(sell, buy);
    LeadsOne(s0, Reload([sell, buy]));
    LeadsOn(START, [Create(sell), Create(buy)], s0, [Reload([sell, buy])], s);
  }

  /** The sell order's placement: it rests anew with its whole quantity, though its row is closed. */
  lemma {:induction false} SellPlaced(s: Site, sell: OrderData, buy: OrderData)
    requires Pair(sell, buy) && Overtaken(s, sell, buy)
    ensures var s' := PlaceSite(s, 0);
            && s'.book == UserBook([], [sell]) && s'.rows == s.rows && s'.tape == s.tape && s'.apart == {}
            && s'.queue == [Placement(buy, true)] && s'.placed == {sell.id}
  {
    var s1 := Flagged(s.(queue := [Placement(buy, true)], placed := {sell.id}), Placement(sell, true));
    SellRests(s1, sell);
    assert s.queue == [Placement(sell, true)] + s1.queue;
    ArrivesFresh(s, Placement(sell, true), s1);
  }

  /** And the buy order's: both trade a second time. */
  lemma {:induction false} BuyPlaced(s: Site, sell: OrderData, buy: OrderData)
    requires Pair(sell, buy) && s.book == UserBook([], [sell])
    requires s.queue == [Placement(buy, true)] && s.placed == {sell.id}
    ensures PlaceSite(s, 0).tape == s.tape + [Trade(buy, sell, sell.price, buy.left)]
  {
    var s1 := Flagged(s.(queue := [], placed := {sell.id, buy.id}), Placement(buy, true));
    assert s.queue == [Placement(buy, true)] + s1.queue && {sell.id} + {buy.id} == {sell.id, buy.id};
    ArrivesFresh(s, Placement(buy, true), s1);
    FullTradeSite(s1, buy, sell);
  }

  /**
   A restart that overtakes two placements: both orders are loaded and trade, then the first
   placement puts the closed sell order back with its whole quantity. Database and memory
   are out of step, so a second restart does not give the stacks back.
   */
  lemma {:induction false} RestartLosesOrder(sell: OrderData, buy: OrderData) returns (s: Site)
    requires Pair(sell, buy)
    ensures Leads(START, Restarted(sell, buy) + [Place(0)], s)
    ensures s.book.user.sells == [sell] && sell.id in s.rows && s.rows[sell.id].state == Closed
    ensures !Restarts.InStep(s) && Admissible(s, Reload([])) && !Restarts.Restores(s, [])
    ensures !OpenRows.OnlyOpen(s) && !Storage.Stored(s)
  {
    var s3 := AfterRestart(sell, buy);
    s := PlaceSite(s3, 0);
    SellPlaced(s3, sell, buy);
    LeadsOne(s3, Place(0));
    LeadsOn(START, Restarted(sell, buy), s3, [Place(0)], s);
    StartInv();
    RunKeeps(START, Restarted(sell, buy) + [Place(0)]);
    ClosedOutOfStep(s, sell, buy);
  }

  lemma {:induction false} ClosedOutOfStep(s: Site, sell: OrderData, buy: OrderData)
    requires SiteInv(s) && s.book == UserBook([], [sell]) && Pair(sell, buy) && s.apart == {}
    requires s.rows == map[sell.id := Done(sell), buy.id := Done(buy)]
    ensures !Restarts.InStep(s) && Admissible(s, Reload([])) && !Restarts.Restores(s, [])
    ensures !OpenRows.OnlyOpen(s) && !Storage.Stored(s)
  {
    assert sell in s.book.Pool(false).Stack(Sell) && !Storage.RestsStored(s, sell) && !RowOpen(s, sell.id);
    Restarts.ReloadRestoresIff(s, []);
  }

  /** With the second placement both orders trade twice their quantity. */
  lemma {:induction false} RestartTradesTwice(sell: OrderData, buy: OrderData) returns (s: Site)
    requires Pair(sell, buy)
    ensures Leads(START, Restarted(sell, buy) + [Place(0), Place(0)], s)
    ensures Accounts.Filled(s.tape, sell.id) == 2 * sell.quantity
    ensures Accounts.Filled(s.tape, buy.id) == 2 * buy.quantity
  {
    var s3 := AfterRestart(sell, buy);
    var s4 := PlaceSite(s3, 0);
    s := PlaceSite(s4, 0);
    SellPlaced(s3, sell, buy);
    BuyPlaced(s4, sell, buy);
    LeadsTwo(s3, Place(0), s4, Place(0), s);
    LeadsOn(START, Restarted(sell, buy), s3, [Place(0), Place(0)], s);
    var t := Trade(buy, sell, sell.price, buy.left);
    assert [t] + [t] == [t, t];
    TwiceFilled(t);
  }

  lemma {:induction false} TwiceFilled(t: Trade)
    requires t.taker.id != t.maker.id
    ensures Accounts.Filled([t, t], t.taker.id) == Accounts.Filled([t, t], t.maker.id) == 2 * t.quantity
  {
    forall id ensures Accounts.Filled([t, t], id) == Accounts.Part(t, id) + Accounts.Part(t, id) {
      TwoFilled(t, t, id);
    }
  }

  lemma {:induction false} TwoFilled(t: Trade, u: Trade, id: int)
    ensures Accounts.Filled([t, u], id) == Accounts.Part(t, id) + Accounts.Part(u, id)
  {
    assert [t, u][1..] == [u] && [u][1..] == [];
    assert Accounts.Filled([u], id) == Accounts.Part(u, id) + Accounts.Filled([], id);
    assert Accounts.Filled([t, u], id) == Accounts.Part(t, id) + Accounts.Filled([u], id);
  }

  // ---- A placement that a cancellation has overtaken ----

  /** Cancelled before its placement arrived, an order rests all the same. */
  lemma {:induction false} CanceledOrderRests(sell: OrderData) returns (s: Site)
    requires Incomer(sell, Sell)
    ensures Leads(START, [Create(sell), Cancel(sell.id)] + [Place(0)], s)
    ensures s.book.user.sells == [sell] && sell.id in s.rows && s.rows[sell.id].state == Canceled
    ensures !OpenRows.OnlyOpen(s) && Accounts.AllConserved(s)
  {
    var s1, p := Queued(START, sell), Placement(sell, true);
    var s2 := s1.(rows := map[sell.id := sell.(state := Canceled)],
                  records := map[sell.id := Record(Sell, sell.price)]);
    s := PlaceSite(s2, 0);
    LeadsTwo(START, Create(sell), s1, Cancel(sell.id), s2);
    LeadsOne(s2, Place(0));
    LeadsOn(START, [Create(sell), Cancel(sell.id)], s2, [Place(0)], s);
    CanceledPlaced(s2, sell, p);
  }

  lemma {:induction false} CanceledPlaced(s: Site, sell: OrderData, p: Placement)
    requires Incomer(sell, Sell) && p == Placement(sell, true) && s.queue == [] + [p] && s.placed == {} && s.apart == {}
    requires s.book == UserBook([], []) && s.tape == [] && s.rows == map[sell.id := sell.(state := Canceled)]
    ensures var s' := PlaceSite(s, 0);
            && s'.book.user.sells == [sell] && s'.rows == s.rows
            && !OpenRows.OnlyOpen(s') && Accounts.AllConserved(s')
  {
    var s1 := Flagged(s.(queue := [], placed := {sell.id}), p);
    assert s.queue == [p] + [] && {} + {sell.id} == {sell.id};
    SellRests(s1, sell);
    ArrivesFresh(s, p, s1);
    assert sell in PlaceSite(s, 0).book.Pool(false).Stack(Sell) && !RowOpen(PlaceSite(s, 0), sell.id);
  }

  // ---- A stop that was never reached ----

  const HUNDRED := 10_000_000_000

  function UserOrder(id: int, op: Operation, kind: Kind, price: int, quantity: int, stop: Option<int>): OrderData {
    OrderData(id, op, kind, false, Opened, price, quantity, quantity, None, stop, None, None, false)
  }

  /** Ten for sale at 100, four of them bought at 100. */
  const SELL_TEN := UserOrder(1, Sell, Limit, HUNDRED, 1_000_000_000, None)
  const BUY_FOUR := UserOrder(2, Buy, Limit, HUNDRED, 400_000_000, None)
  const FOUR := Trade(BUY_FOUR, SELL_TEN, HUNDRED, 400_000_000)

  /** Six are left of it. */
  const SIX_LEFT := SELL_TEN.(left := 600_000_000)
  const BOUGHT := BUY_FOUR.(left := 0, state := Closed)

  /** The site after that trade, as the placements of both orders left it. */
  const TRADED := Site(map[1 := SIX_LEFT, 2 := BOUGHT], {1, 2}, {1, 2},
                       map[2 := Record(Buy, HUNDRED)][1 := Record(Sell, HUNDRED)], {1, 2}, [FOUR], [],
                       UserBook([], [SIX_LEFT]), {}, [Caps(None, None, true)], {1, 2}, {})

  /** The sell order stored and placed. */
  function Resting(): Site {
    Alone(SELL_TEN)
  }

  /** With the buy order stored and queued beside it. */
  function BothStored(): Site {
    Resting().(rows := map[1 := SELL_TEN, 2 := BUY_FOUR], inStack := {1, 2}, queue := [Placement(BUY_FOUR, true)])
  }

  lemma {:induction false} BuyPlacedNext()
    ensures Leads(Resting(), [Create(BUY_FOUR), Place(0)], TRADED)
  {
    BuyStored();
    BuyArrives();
    LeadsTwo(Resting(), Create(BUY_FOUR), BothStored(), Place(0), TRADED);
  }

  lemma {:induction false} BuyStored()
    ensures CreateSite(Resting(), BUY_FOUR) == BothStored()
  {
    assert map[1 := SELL_TEN][2 := BUY_FOUR] == map[1 := SELL_TEN, 2 := BUY_FOUR];
    assert {1} + {2} == {1, 2} && [] + [Placement(BUY_FOUR, true)] == [Placement(BUY_FOUR, true)];
  }

  lemma {:induction false} BuyArrives()
    ensures PlaceSite(BothStored(), 0) == TRADED
  {
    var s, p := BothStored(), Placement(BUY_FOUR, true);
    var s1 := s.(queue := [], live := {1, 2}, placed := {1, 2});
    assert {1} + {2} == {1, 2} && !HasId(s.book.user.buys, 2) && s.queue == [p] + [];
    ArrivesFresh(s, p, s1);
    BuyEnters(s1);
  }

  lemma {:induction false} BuyEnters(s: Site)
    requires s == BothStored().(queue := [], live := {1, 2}, placed := {1, 2})
    ensures EnterBook(s, BUY_FOUR) == TRADED
  {
    PairLeaves(SELL_TEN, BUY_FOUR);
    var s0 := s.(book := UserBook([], [SIX_LEFT]));
    FourSaved(s0);
    assert [FOUR][1..] == [] && SaveTrades(s0, [FOUR]) == TRADED;
    assert Save(TRADED, BOUGHT) == TRADED by { assert TRADED.rows[2 := BOUGHT] == TRADED.rows; }
  }

  lemma {:induction false} FourSaved(s: Site)
    requires s == BothStored().(queue := [], live := {1, 2}, placed := {1, 2}, book := UserBook([], [SIX_LEFT]))
    ensures SaveTrade(s, FOUR) == TRADED
  {
    assert SettleMaker(SELL_TEN, 400_000_000) == SIX_LEFT && BUY_FOUR.Settle(400_000_000) == BOUGHT;
    assert s.rows[2 := BOUGHT][1 := SIX_LEFT] == TRADED.rows;
    assert [] + [FOUR] == [FOUR] && [] + [Caps(None, None, true)] == [Caps(None, None, true)];
  }

  /** The run up to that trade. */
  const TRADING := [Create(SELL_TEN), Place(0)] + [Create(BUY_FOUR), Place(0)]

  lemma {:induction false} AfterTrading()
    ensures Leads(START, TRADING, TRADED)
  {
    FirstRests(SELL_TEN);
    BuyPlacedNext();
    LeadsOn(START, [Create(SELL_TEN), Place(0)], Resting(), [Create(BUY_FOUR), Place(0)], TRADED);
  }

  /** A stop-limit order to buy, at the price the stop waits for. */
  function StopBuy(stop: int): OrderData {
    UserOrder(3, Buy, StopLimit, HUNDRED, 100_000_000, Some(stop))
  }

  function Selecting(stop: int): seq<Event> {
    [Create(StopBuy(stop)), Trigger(1, {}, [StopBuy(stop)])]
  }

  /** Created and at once selected off the last record of order 1. */
  lemma {:induction false} StopSelected(s: Site, stop: int) returns (s': Site)
    requires 3 !in s.rows && 1 in s.traded && 1 in s.records && s.records[1] == Record(Sell, stop) && s.apart == {}
    requires forall id :: id in s.rows ==> s.rows[id].kind != StopLimit
    ensures Leads(s, Selecting(stop), s')
    ensures 3 in s'.inStack && s'.rows == s.rows[3 := StopBuy(stop)] && s'.tape == s.tape
  {
    var o := StopBuy(stop);
    var s1, trigger := CreateSite(s, o), Trigger(1, {}, [o]);
    assert Triggered(o, s1.records[1]);
    assert forall x :: x in [o] <==> x == o;
    assert Admissible(s1, trigger);
    s' := TriggerSite(s1, [o]);
    assert o in [o] && o.id in Ids([o]);
    LeadsTwo(s, Create(o), s1, trigger, s');
  }

  /** A print older than the order is enough: it is selected with no trade since it was created. */
  lemma {:induction false} OldPrintTriggers() returns (s: Site)
    ensures Leads(START, TRADING, TRADED) && Leads(START, TRADING + Selecting(HUNDRED), s)
    ensures 3 !in TRADED.rows && 3 in s.inStack && s.tape == TRADED.tape
  {
    AfterTrading();
    s := StopSelected(TRADED, HUNDRED);
    LeadsOn(START, TRADING, TRADED, Selecting(HUNDRED), s);
  }

  /** The owner asks 200 for the six that are left, and then cancels. */
  const TWO_HUNDRED := 20_000_000_000
  const MOVED := SIX_LEFT.(price := TWO_HUNDRED)
  const MOVING := [Update(1, PriceOnly(200.0), true), Cancel(1)]

  function CancelledAt200(): Site {
    TRADED.(rows := map[1 := MOVED.(state := Canceled), 2 := BOUGHT], book := UserBook([], []),
            records := map[2 := Record(Buy, HUNDRED)][1 := Record(Sell, TWO_HUNDRED)])
  }

  lemma {:induction false} MovedAndCancelled()
    ensures Leads(TRADED, MOVING, CancelledAt200())
  {
    var s1 := TRADED.(rows := map[1 := MOVED, 2 := BOUGHT], book := UserBook([], [MOVED]));
    MoveUpdates();
    assert CancelSite(s1, 1) == CancelledAt200();
    LeadsTwo(TRADED, Update(1, PriceOnly(200.0), true), s1, Cancel(1), CancelledAt200());
  }

  lemma {:induction false} MoveUpdates()
    ensures UpdateSite(TRADED, 1, PriceOnly(200.0), true) ==
            TRADED.(rows := map[1 := MOVED, 2 := BOUGHT], book := UserBook([], [MOVED]))
  {
    assert ToTicks(200.0) == TWO_HUNDRED;
    assert UpdateOrder(SIX_LEFT, PriceOnly(200.0), true) == Some(MOVED);
    var out := TRADED.(book := UserBook([], []));
    assert [SIX_LEFT][0].id == 1 && HasId([SIX_LEFT], 1);
    assert Runs.RemoveFromStack(TRADED.book, SIX_LEFT) == UserBook([], []);
    var s1 := out.(rows := map[1 := MOVED, 2 := BOUGHT]);
    assert WriteUpdate(out, MOVED).(live := {1, 2}) == s1;
    SellRests(s1, MOVED);
  }

  /**
   Traded at 100, then offered at 200 and cancelled: its last record says 200, and a stop-limit
   order that waits for 200 is put in the stack though the market never traded above 100.
   */
  lemma {:induction false} MovedPriceMisfires() returns (s: Site)
    ensures Leads(START, TRADING + MOVING + Selecting(TWO_HUNDRED), s)
    ensures s.tape == [FOUR] && 3 in s.inStack && !StopLimit.StopsKept(s)
  {
    AfterTrading();
    MovedAndCancelled();
    LeadsOn(START, TRADING, TRADED, MOVING, CancelledAt200());
    s := StopSelected(CancelledAt200(), TWO_HUNDRED);
    LeadsOn(START, TRADING + MOVING, CancelledAt200(), Selecting(TWO_HUNDRED), s);
    assert !StopLimit.StopOk(s.rows[3], s.tape) by {
      assert s.tape == [FOUR] && s.rows[3] == StopBuy(TWO_HUNDRED);
    }
  }

  // ---- A placement that the updater has overtaken ----

  const SIXTY := 6_000_000_000

  /** A bid for ten at 60, and an auto order for ten, created at 50 with a limit of 100, as the updater prices it. */
  const BID := UserOrder(2, Buy, Limit, SIXTY, 1_000_000_000, None)
  const AUTO := OrderData(1, Sell, External, false, Opened, 5_000_000_000, 1_000_000_000, 1_000_000_000,
                          None, None, Some(HUNDRED), Some(0), false)
  const PRICED := AUTO.(price := HUNDRED, otcUpdated := true)
  const CANDIDATE := Candidate(AUTO, false, true)

  lemma {:induction false} AutoPriced()
    ensures !Raises(CANDIDATE, 100.0) && OrderUpdates.Reprice(CANDIDATE, 100.0) == Some(PRICED)
    ensures !AUTO.WithinOtcLimit()
  {
    assert Dec(0) == 0.0 && Dec(HUNDRED) == 100.0 && Dec(AUTO.price) == 50.0;
    assert MovedPrice(100.0, 0) == 100.0;
    assert LimitedPrice(AUTO, 100.0) == 100.0;
    assert ToTicks(100.0) == HUNDRED;
    assert UpdateOrder(AUTO, PriceOnly(100.0), true) == Some(AUTO.(price := HUNDRED));
  }

  /** Priced while its placement is on its way, it rests at 100 above the bid. */
  function AutoResting(): Site {
    Queued(Alone(BID), AUTO).(rows := map[2 := BID, 1 := PRICED], limited := {1}, live := {1, 2},
                              book := UserBook([BID], [PRICED]))
  }

  lemma {:induction false} AutoReprices()
    ensures Leads(Queued(Alone(BID), AUTO), [Event.Reprice([CANDIDATE], 100.0)], AutoResting())
  {
    var s, us := Queued(Alone(BID), AUTO), [PRICED];
    AutoPriced();
    assert [CANDIDATE][1..] == [] && us[1..] == [] && RepriceAll([CANDIDATE], 100.0) == us;
    assert forall c :: c in [CANDIDATE] ==> c == CANDIDATE;
    AutoEnters(s);
    LeadsOne(s, Event.Reprice([CANDIDATE], 100.0));
  }

  lemma {:induction false} AutoEnters(s: Site)
    requires s == Queued(Alone(BID), AUTO)
    ensures EnterAll(RemovedRepriced(s, [PRICED]), [PRICED]) == AutoResting()
  {
    var us, s2 := [PRICED], AutoResting().(book := UserBook([BID], []));
    assert us[1..] == [] && Ids(us) == {1};
    assert SaveRows(s.rows, us) == SaveRows(s.rows[1 := PRICED], []) == s2.rows;
    assert Runs.RemoveAll(s.book, us) == Runs.RemoveAll(Runs.RemoveFromStack(s.book, PRICED), []) == s2.book;
    assert s.live - {1} + {1} * s.inStack == {1, 2};
    assert RemovedRepriced(s, us) == s2;
    RestsApart(s2, PRICED, [BID]);
    assert EnterAll(s2, us) == EnterAll(EnterBook(s2, PRICED), []);
  }

  /** Its placement then sells at 60 what the updater had priced at its limit of 100. */
  lemma {:induction false} AutoSoldBelow()
    ensures Leads(AutoResting(), [Place(0)], PlaceSite(AutoResting(), 0))
    ensures var s := PlaceSite(AutoResting(), 0);
            && s.tape == [Trade(AUTO, BID, SIXTY, 1_000_000_000)] && s.caps == [Caps(Some(HUNDRED), None, true)]
            && s.apart == {}
  {
    var s, p := AutoResting(), Placement(AUTO, true);
    assert s.queue == [p] && s.queue[..0] + s.queue[1..] == [];
    var s1 := Flagged(s.(queue := [], placed := s.placed + {1}), p);
    FullTradeSite(s1, AUTO, BID);
    FullTrade(s1.book.user, AUTO, BID);
    assert [] + [Trade(AUTO, BID, SIXTY, 1_000_000_000)] == [Trade(AUTO, BID, SIXTY, 1_000_000_000)];
    assert [] + [Caps(Some(HUNDRED), None, true)] == [Caps(Some(HUNDRED), None, true)];
    assert !TakesApart(s1.book.user, AUTO) by { SellTaken(s1.book.user); }
    LeadsOne(s, Place(0));
  }

  lemma {:induction false} SellTaken(p: Pool)
    requires p.buys == [BID]
    ensures !EndsOpen(p, AUTO)
  {
    assert [BID][1..] == [];
    assert Available(AUTO, [BID]) == BID.left + Available(AUTO, []);
  }

  /**
   An auto order created at 50 and priced at its limit of 100 while its placement was on its
   way: the placement trades it at 60.
   */
  lemma {:induction false} StalePlacementPassesLimit() returns (s: Site)
    ensures Leads(START, [Create(BID), Place(0)] + [Create(AUTO)] + [Event.Reprice([CANDIDATE], 100.0)] + [Place(0)], s)
    ensures s.tape == [Trade(AUTO, BID, SIXTY, 1_000_000_000)] && s.caps == [Caps(Some(HUNDRED), None, true)]
    ensures !AutoLimits.LimitsKept(s)
  {
    s := PlaceSite(AutoResting(), 0);
    FirstRests(BID);
    NextQueued(Alone(BID), AUTO);
    AutoReprices();
    AutoSoldBelow();
    AutoPriced();
    LeadsOn(START, [Create(BID), Place(0)], Alone(BID), [Create(AUTO)], Queued(Alone(BID), AUTO));
    LeadsOn(START, [Create(BID), Place(0)] + [Create(AUTO)], Queued(Alone(BID), AUTO),
            [Event.Reprice([CANDIDATE], 100.0)], AutoResting());
    LeadsOn(START, [Create(BID), Place(0)] + [Create(AUTO)] + [Event.Reprice([CANDIDATE], 100.0)], AutoResting(),
            [Place(0)], s);
    assert !AutoLimits.TradeWithin(s.tape[0], s.caps[0]);
  }

  // ---- A bulk reprice that raises ----

  /** An auto order without a percent. */
  const BARE := AUTO.(id := 2, otcPercent := None)

  /**
   The auto order rests at 50, the updater writes its row at 100 and raises at the next one:
   the stack keeps the old price, beyond the limit.
   */
  lemma {:induction false} RaisedRepriceLeavesPrice() returns (s: Site)
    ensures var reprice := Event.Reprice([CANDIDATE, Candidate(BARE, false, true)], 100.0);
            Leads(START, [Create(AUTO), Place(0)] + [Create(BARE)] + [reprice], s)
    ensures s.book.user.sells == [AUTO] && s.rows[1 := PRICED] == s.rows && 1 in s.limited
    ensures !AutoLimits.LimitsKept(s) && !Storage.Stored(s)
  {
    var cs := [CANDIDATE, Candidate(BARE, false, true)];
    var s0, s1 := Alone(AUTO), Queued(Alone(AUTO), BARE);
    FirstRests(AUTO);
    NextQueued(s0, BARE);
    RepricedTwo(cs);
    s := RepriceSite(s1, cs, 100.0);
    assert forall c :: c in cs ==> c == CANDIDATE || c == Candidate(BARE, false, true);
    LeadsOne(s1, Event.Reprice(cs, 100.0));
    LeadsOn(START, [Create(AUTO), Place(0)], s0, [Create(BARE)], s1);
    LeadsOn(START, [Create(AUTO), Place(0)] + [Create(BARE)], s1, [Event.Reprice(cs, 100.0)], s);
    PricedRowOnly(s1, s);
  }

  lemma {:induction false} RepricedTwo(cs: seq<Candidate>)
    requires cs == [CANDIDATE, Candidate(BARE, false, true)]
    ensures RepriceAll(cs, 100.0) == [PRICED] && AnyRaises(cs, 100.0)
  {
    AutoPriced();
    assert cs[1..] == [cs[1]] && Raises(cs[1], 100.0);
    assert RepriceAll(cs[1..], 100.0) == [] && [PRICED] + [] == [PRICED];
  }

  lemma {:induction false} PricedRowOnly(s1: Site, s: Site)
    requires s1 == Queued(Alone(AUTO), BARE) && s == Repriced(s1, [PRICED])
    ensures s.book.user.sells == [AUTO] && s.rows[1 := PRICED] == s.rows && 1 in s.limited
    ensures !AutoLimits.LimitsKept(s) && !Storage.Stored(s)
  {
    AutoPriced();
    assert [PRICED][1..] == [] && PRICED in [PRICED] && Ids([PRICED]) == {1};
    assert s.rows == SaveRows(s1.rows[1 := PRICED], []);
    assert AUTO in s.book.Pool(false).Stack(Sell) && !AutoLimits.Limited(s, AUTO) && !Storage.RestsStored(s, AUTO);
  }

  // ---- A placement that an update has overtaken ----

  const NINETY := 9_000_000_000

  /** A bid for ten at 100, lowered to 90 by its owner, and asks for ten at 95 and at 90. */
  const HIGH := UserOrder(1, Buy, Limit, HUNDRED, 1_000_000_000, None)
  const LOWERED := HIGH.(price := NINETY)
  const ASK_95 := UserOrder(2, Sell, Limit, 9_500_000_000, 1_000_000_000, None)
  const ASK_90 := UserOrder(3, Sell, Limit, NINETY, 1_000_000_000, None)

  /** Stored, loaded by a restart, and lowered, with its placement still on its way. */
  const LOWERING := [Create(HIGH)] + [Reload([HIGH]), Update(1, PriceOnly(90.0), true)]

  function BidLowered(): Site {
    START.(rows := map[1 := LOWERED], inStack := {1}, live := {1}, queue := [Placement(HIGH, true)],
           book := UserBook([LOWERED], []))
  }

  lemma {:induction false} AfterLowering()
    ensures Leads(START, LOWERING, BidLowered())
  {
    var s1 := Queued(START, HIGH);
    var s2 := BidLowered().(rows := map[1 := HIGH], book := UserBook([HIGH], []));
    NextQueued(START, HIGH);
    HighLoaded(s1, s2);
    HighLowered(s2);
    LeadsTwo(s1, Reload([HIGH]), s2, Update(1, PriceOnly(90.0), true), BidLowered());
    LeadsOn(START, [Create(HIGH)], s1, [Reload([HIGH]), Update(1, PriceOnly(90.0), true)], BidLowered());
  }

  lemma {:induction false} HighLoaded(s1: Site, s2: Site)
    requires s1 == Queued(START, HIGH)
    requires s2 == BidLowered().(rows := map[1 := HIGH], book := UserBook([HIGH], []))
    ensures Admissible(s1, Reload([HIGH])) && ReloadSite(s1, [HIGH]) == s2
  {
    var os := [HIGH];
    assert forall o :: o in os <==> o == HIGH;
    assert Ids(os) == {1} && os[1..] == [] && [] + [Placement(HIGH, true)] == [Placement(HIGH, true)];
    RestsApart(Emptied(s1, os), HIGH, []);
    assert EnterAll(Emptied(s1, os), os) == EnterAll(EnterBook(Emptied(s1, os), HIGH), []);
  }

  lemma {:induction false} HighLowered(s2: Site)
    requires s2 == BidLowered().(rows := map[1 := HIGH], book := UserBook([HIGH], []))
    ensures UpdateSite(s2, 1, PriceOnly(90.0), true) == BidLowered()
  {
    assert ToTicks(90.0) == NINETY;
    assert UpdateOrder(HIGH, PriceOnly(90.0), true) == Some(LOWERED);
    assert [HIGH][0].id == 1 && HasId([HIGH], 1);
    assert Runs.RemoveFromStack(s2.book, HIGH) == UserBook([], []);
    var s3 := BidLowered().(book := UserBook([], []));
    assert WriteUpdate(s2.(book := UserBook([], [])), LOWERED).(live := {1}) == s3;
    RestsApart(s3, LOWERED, []);
  }

  /** The placement of the order as it was finds its id at rest, at another price: list and map are apart. */
  lemma {:induction false} StalePlacementTakesApart() returns (s: Site)
    ensures Leads(START, LOWERING + [Place(0)], s)
    ensures s.book == UserBook([LOWERED], []) && s.rows == map[1 := LOWERED] && s.apart == {1}
  {
    var s0, p := BidLowered(), Placement(HIGH, true);
    s := PlaceSite(s0, 0);
    AfterLowering();
    LeadsOne(s0, Place(0));
    LeadsOn(START, LOWERING, s0, [Place(0)], s);
    assert s0.queue[..0] + s0.queue[1..] == [];
    assert [LOWERED][0].id == 1 && HasId([LOWERED], 1) && !HoldsKey([LOWERED], HIGH);
    assert Available(HIGH, []) == 0 && TakesApart(s0.book.user, HIGH);
  }

  /** The ask at 95 stored and placed beside the lowered bid. */
  function AskRests(): Site {
    BidLowered().(rows := map[1 := LOWERED, 2 := ASK_95], inStack := {1, 2}, live := {1, 2}, placed := {2},
                  book := UserBook([LOWERED], [ASK_95]))
  }

  lemma {:induction false} AskPlaced()
    ensures Leads(BidLowered(), [Create(ASK_95), Place(1)], AskRests())
  {
    var s, s1, p := BidLowered(), Queued(BidLowered(), ASK_95), Placement(ASK_95, true);
    assert s1.queue == [Placement(HIGH, true), p] && s1.queue[..1] + s1.queue[2..] == s.queue;
    var s2 := Flagged(s1.(queue := s.queue, placed := {2}), p);
    assert !HasId([], 2) && {} + {2} == {2} && {1} + {2} == {1, 2};
    RestsApart(s2, ASK_95, [LOWERED]);
    assert PlaceSite(s1, 1) == EnterBook(s2, ASK_95);
    LeadsTwo(s, Create(ASK_95), s1, Place(1), AskRests());
  }

  /** The stale bid takes the ask at 95 and closes, but the lowered bid stays. */
  function StaleBought(): Site {
    PlaceSite(AskRests(), 0)
  }

  lemma {:induction false} StaleBuys()
    ensures Leads(AskRests(), [Place(0)], StaleBought())
    ensures var s := StaleBought();
            && s.book == UserBook([LOWERED], []) && s.tape == [Trade(HIGH, ASK_95, ASK_95.price, HIGH.left)]
            && s.queue == [] && s.placed == {1, 2} && s.apart == {} && s.rows.Keys == {1, 2}
  {
    var s, p := AskRests(), Placement(HIGH, true);
    assert s.queue == [p] && s.queue[..0] + s.queue[1..] == [] && {2} + {1} == {1, 2};
    StaleTrades(Flagged(s.(queue := [], placed := {1, 2}), p));
    LeadsOne(s, Place(0));
  }

  lemma {:induction false} StaleTrades(s: Site)
    requires s == AskRests().(queue := [], placed := {1, 2})
    ensures var s' := EnterBook(s, HIGH);
            && s'.book == UserBook([LOWERED], []) && s'.tape == [Trade(HIGH, ASK_95, ASK_95.price, HIGH.left)]
            && s'.rows.Keys == {1, 2} && SameElsewhere(s, s')
    ensures !TakesApart(s.book.user, HIGH)
  {
    FullTradeSite(s, HIGH, ASK_95);
    AskTaken(s.book.user);
    assert [] + [Trade(HIGH, ASK_95, ASK_95.price, HIGH.left)] == [Trade(HIGH, ASK_95, ASK_95.price, HIGH.left)];
  }

  lemma {:induction false} AskTaken(p: Pool)
    requires p.sells == [ASK_95]
    ensures !EndsOpen(p, HIGH)
  {
    assert [ASK_95][1..] == [];
    assert Available(HIGH, [ASK_95]) == ASK_95.left + Available(HIGH, []);
  }

  /** Then an ask at 90 takes the lowered bid. */
  lemma {:induction false} BoughtAgain(s: Site) returns (s': Site)
    requires s.book == UserBook([LOWERED], []) && s.queue == [] && s.placed == {1, 2} && s.apart == {}
    requires s.rows.Keys == {1, 2}
    ensures Leads(s, [Create(ASK_90), Place(0)], s')
    ensures s'.tape == s.tape + [Trade(ASK_90, LOWERED, NINETY, ASK_90.left)]
  {
    var s1, p := Queued(s, ASK_90), Placement(ASK_90, true);
    assert s1.queue == [p] + [] by { assert [] + [p] == [p]; }
    var s2 := Flagged(s1.(queue := [], placed := s.placed + {3}), p);
    ArrivesFresh(s1, p, s2);
    FullTradeSite(s2, ASK_90, LOWERED);
    s' := PlaceSite(s1, 0);
    assert 3 !in s.rows.Keys;
    LeadsTwo(s, Create(ASK_90), s1, Place(0), s');
  }

  /** A bid that a restart brought in, lowered before its placement arrived, buys twice its quantity. */
  lemma {:induction false} StalePlacementBuysTwice() returns (s: Site)
    ensures Leads(START, LOWERING + [Create(ASK_95), Place(1)] + [Place(0)] + [Create(ASK_90), Place(0)], s)
    ensures Accounts.Filled(s.tape, 1) == 2 * HIGH.quantity
  {
    AfterLowering();
    AskPlaced();
    StaleBuys();
    s := BoughtAgain(StaleBought());
    LeadsOn(START, LOWERING, BidLowered(), [Create(ASK_95), Place(1)], AskRests());
    LeadsOn(START, LOWERING + [Create(ASK_95), Place(1)], AskRests(), [Place(0)], StaleBought());
    LeadsOn(START, LOWERING + [Create(ASK_95), Place(1)] + [Place(0)], StaleBought(), [Create(ASK_90), Place(0)], s);
    var t, u := Trade(HIGH, ASK_95, ASK_95.price, HIGH.left), Trade(ASK_90, LOWERED, NINETY, ASK_90.left);
    assert [t] + [u] == [t, u];
    TwoFilled(t, u, 1);
  }
}
