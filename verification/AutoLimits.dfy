/**
 Auto orders and their limits over whole runs of a site: what the updater priced stays
 within its limit through updates, trades and restarts.
 */
module AutoLimits {
  import opened OrderTypes
  import opened StackModel
  import opened Matching
  import opened OrderUpdates
  import opened Sites
  import Runs

  /** An order that carries this limit, if there is one, and a price within it. */
  predicate CapKept(o: OrderData, cap: Option<int>) {
    cap.Some? ==> o.otcLimit == cap && o.WithinOtcLimit()
  }

  ghost predicate TradeWithin(t: Trade, c: Caps) {
    CapKept(t.taker, c.taker) && CapKept(t.maker, c.maker)
  }

  /** A limited order as it rests: with the limit of its row, and within it. */
  ghost predicate Limited(s: Site, x: OrderData) {
    x.id in s.limited && x.id in s.rows ==> x.otcLimit == s.rows[x.id].otcLimit && x.WithinOtcLimit()
  }

  /**
   Every order the updater has priced, and that was not moved past its limit since, is
   stored and rests within its limit; and whenever one traded, it carried the limit its
   row had at that time and was within it.
   */
  ghost predicate LimitsKept(s: Site) {
    && (forall id :: id in s.limited && id in s.rows ==> s.rows[id].WithinOtcLimit())
    && (forall bot, op, x :: x in s.book.Pool(bot).Stack(op) ==> Limited(s, x))
    && |s.caps| == |s.tape|
    && (forall i :: 0 <= i < |s.tape| ==> TradeWithin(s.tape[i], s.caps[i]))
  }

  /** The price of such a trade does not pass the limit either. */
  lemma {:induction false} PriceWithin(s: Site, i: nat)
    requires SiteInv(s) && LimitsKept(s) && i < |s.tape|
    ensures var t, c := s.tape[i], s.caps[i];
            && (c.taker.Some? && !t.taker.IsMarket() ==>
                 if t.taker.op == Buy then t.price <= c.taker.value else c.taker.value <= t.price)
            && (c.maker.Some? && !t.maker.IsMarket() ==>
                 if t.maker.op == Buy then t.price <= c.maker.value else c.maker.value <= t.price)
  {
    assert s.tape[i] in s.tape && TradeInv(s, s.tape[i]);
    assert TradeWithin(s.tape[i], s.caps[i]);
  }

  /** That, and the lists and maps of the stacks hold the same. */
  ghost predicate AllKept(s: Site) {
    LimitsKept(s) && s.apart == {}
  }

  // ---- One order through the book ----

  lemma {:induction false} MakerLimited(s: Site, o: OrderData, ts: seq<Trade>, i: nat)
    requires BookKnown(s) && LimitsKept(s) && TradesFit(s, o, ts) && i < |ts|
    ensures Limited(s, ts[i].maker) && CapKept(ts[i].maker, CapOf(s, ts[i].maker.id))
  {
    MakerAt(s, o, ts, i);
    assert ts[i].maker in s.book.Pool(o.bot).Stack(o.op.Other());
  }

  lemma {:induction false} TradeLimited(s: Site, o: OrderData, ts: seq<Trade>, s': Site, i: nat)
    requires BookKnown(s) && LimitsKept(s) && Limited(s, o) && TradesFit(s, o, ts) && i < |ts|
    requires CapsWritten(s, o.id, ts, s')
    ensures TradeWithin(ts[i], s'.caps[|s.caps| + i])
  {
    MakerLimited(s, o, ts, i);
    assert CapWritten(s, o.id, ts, s', i);
    assert TradeFits(s, o, ts[i]);
    if i > 0 { assert TradeFits(s, o, ts[i - 1]); }
  }

  lemma {:induction false} TapeLimited(s: Site, o: OrderData, ts: seq<Trade>, s': Site)
    requires BookKnown(s) && LimitsKept(s) && Limited(s, o) && TradesFit(s, o, ts)
    requires CapsWritten(s, o.id, ts, s') && s'.tape == s.tape + ts
    ensures |s'.caps| == |s'.tape| && forall i :: 0 <= i < |s'.tape| ==> TradeWithin(s'.tape[i], s'.caps[i])
  {
    forall i | 0 <= i < |s'.tape| ensures TradeWithin(s'.tape[i], s'.caps[i]) {
      if i < |s.tape| {
        assert TradeWithin(s.tape[i], s.caps[i]);
        assert s'.caps[i] == s'.caps[..|s.caps|][i] == s.caps[i];
      } else {
        TradeLimited(s, o, ts, s', i - |s.tape|);
      }
    }
  }

  /** A row written by the order's trades keeps its limit, and the order's own row has its limit. */
  lemma {:induction false} RowLimited(s: Site, o: OrderData, r: Outcome, s': Site, id: int)
    requires BookKnown(s) && LimitsKept(s) && Limited(s, o) && TradesFit(s, o, r.trades) && Same(r.order, o)
    requires RowsAfter(s, o, r, s') && s'.limited == s.limited && id in s.limited && id in s'.rows
    ensures id in s.rows && s'.rows[id].otcLimit == s.rows[id].otcLimit && s'.rows[id].WithinOtcLimit()
  {
    assert id in s.rows.Keys;
    if IsMaker(r.trades, id) {
      var i := MakerTrade(s, o, r.trades, id);
      MakerLimited(s, o, r.trades, i);
    }
  }

  lemma {:induction false} LeftOverLimited(s: Site, o: OrderData, ts: seq<Trade>, x: OrderData)
    requires BookKnown(s) && LimitsKept(s) && TradesFit(s, o, ts) && LeftOver(ts, x)
    ensures Limited(s, x)
  {
    var i :| 0 <= i < |ts| && x == SettleMaker(ts[i].maker, ts[i].quantity);
    MakerLimited(s, o, ts, i);
  }

  lemma {:induction false} RestLimited(s: Site, o: OrderData, r: Outcome, s': Site, bot: bool, op: Operation,
      x: OrderData)
    requires BookKnown(s) && LimitsKept(s) && Limited(s, o) && TradesFit(s, o, r.trades) && Same(r.order, o)
    requires RowsAfter(s, o, r, s') && s'.limited == s.limited && RestsAfter(s, o, r, bot, op, x)
    ensures Limited(s', x)
  {
    if x.id in s.limited && x.id in s'.rows {
      RowLimited(s, o, r, s', x.id);
      assert Limited(s, x) by {
        if LeftOver(r.trades, x) { LeftOverLimited(s, o, r.trades, x); }
      }
    }
  }

  lemma {:induction false} WrittenLimits(s: Site, o: OrderData, s': Site)
    requires LimitsKept(s) && Limited(s, o) && BookKnown(s) && Ready(s, o) && Incoming(s.book.Pool(o.bot), o)
    requires Written(s, o, Matching.Process(s.book.Pool(o.bot), o), s')
    ensures LimitsKept(s')
  {
    var r := Matching.Process(s.book.Pool(o.bot), o);
    OrderFits(s, o);
    OrderEnds(s.book.Pool(o.bot), o);
    TapeLimited(s, o, r.trades, s');
    forall id | id in s'.limited && id in s'.rows ensures s'.rows[id].WithinOtcLimit() { RowLimited(s, o, r, s', id); }
    forall bot, op, x | x in s'.book.Pool(bot).Stack(op) ensures Limited(s', x) {
      ProcessRests(s, o, bot, op, x);
      RestLimited(s, o, r, s', bot, op, x);
    }
  }

  lemma {:induction false} WrittenStay(s: Site, o: OrderData, s': Site)
    requires LimitsKept(s) && Limited(s, o) && BookKnown(s) && Ready(s, o) && Incoming(s.book.Pool(o.bot), o)
    requires Written(s, o, Matching.Process(s.book.Pool(o.bot), o), s')
    ensures LimitsStay(s, s')
  {
    var r := Matching.Process(s.book.Pool(o.bot), o);
    OrderFits(s, o);
    OrderEnds(s.book.Pool(o.bot), o);
    forall id | id in s.limited && id in s.rows ensures s'.rows[id].otcLimit == s.rows[id].otcLimit {
      assert id in s'.rows.Keys;
      RowLimited(s, o, r, s', id);
    }
  }

  /** No row of a limited order changes its limit. */
  ghost predicate LimitsStay(s: Site, s': Site) {
    && s'.limited == s.limited && s'.rows.Keys == s.rows.Keys
    && forall id :: id in s.limited && id in s.rows ==> s'.rows[id].otcLimit == s.rows[id].otcLimit
  }

  lemma {:induction false} EnterKeepsLimits(s: Site, o: OrderData)
    requires LimitsKept(s) && Limited(s, o) && BookKnown(s) && Ready(s, o)
    ensures LimitsKept(EnterBook(s, o)) && LimitsStay(s, EnterBook(s, o))
  {
    if o.state == Opened && !HasId(s.book.Pool(o.bot).Stack(o.op.Other()), o.id) {
      PoolAllLeft(s.book.Pool(o.bot), o);
      ProcessWrites(s, o);
      WrittenLimits(s, o, EnterBook(s, o));
      WrittenStay(s, o, EnterBook(s, o));
    } else {
      IdleProcess(s, o);
    }
  }

  /** A limited order beyond its row's limit breaks the promise in the book, whether it trades or rests. */
  lemma {:induction false} BeyondBreaks(s: Site, o: OrderData)
    requires SiteInv(s) && Ready(s, o) && o.state == Opened && !o.IsMarket() && !Limited(s, o)
    requires s.rows[o.id].otcLimit.Some? && (HadEntry(s, o) ==> !EndsOpen(s.book.Pool(o.bot), o))
    ensures !LimitsKept(EnterBook(s, o))
  {
    OtherSideLacks(s, o);
    PoolAllLeft(s.book.Pool(o.bot), o);
    EndsOpenIff(s.book.Pool(o.bot), o);
    var ts, s' := Matching.Process(s.book.Pool(o.bot), o).trades, EnterBook(s, o);
    if ts == [] {
      assert !HadEntry(s, o);
      NoTradeRests(s, o);
      EnterElsewhere(s, o);
      assert !Limited(s', o);
    } else {
      FirstTradeBeyond(s, o);
      assert !TradeWithin(s'.tape[|s.tape|], s'.caps[|s.tape|]);
    }
  }

  lemma {:induction false} FirstTradeBeyond(s: Site, o: OrderData)
    requires SiteInv(s) && Ready(s, o) && Incoming(s.book.Pool(o.bot), o) && !Limited(s, o)
    requires Matching.Process(s.book.Pool(o.bot), o).trades != []
    ensures var s' := EnterBook(s, o);
            && |s.tape| < |s'.tape| == |s'.caps|
            && (s.rows[o.id].otcLimit.Some? ==> !TradeWithin(s'.tape[|s.tape|], s'.caps[|s.tape|]))
  {
    var ts := Matching.Process(s.book.Pool(o.bot), o).trades;
    ProcessWrites(s, o);
    OrderFits(s, o);
    assert TradeFits(s, o, ts[0]);
    assert CapWritten(s, o.id, ts, EnterBook(s, o), 0);
    assert EnterBook(s, o).tape[|s.tape|] == ts[0];
  }

  lemma {:induction false} LimitedStays(s: Site, s': Site, x: OrderData)
    requires Limited(s, x) && LimitsStay(s, s')
    ensures Limited(s', x)
  {
    assert x.id in s'.rows ==> x.id in s.rows.Keys;
  }

  lemma {:induction false} EnterAllKeepsLimits(s: Site, os: seq<OrderData>)
    requires SiteInv(s) && LimitsKept(s) && Runs.UniqueOrderIds(os)
    requires forall o :: o in os ==> Fresh(s, o) && !o.IsMarket() && Limited(s, o)
    ensures LimitsKept(EnterAll(s, os))
    decreases |os|
  {
    if os != [] {
      assert os[0] in os;
      EnterKeepsLimits(s, os[0]);
      ProcessKeeps(s, os[0]);
      FreshStays(s, os);
      forall o | o in os[1..] ensures Limited(EnterBook(s, os[0]), o) {
        assert o in os;
        LimitedStays(s, EnterBook(s, os[0]), o);
      }
      EnterAllKeepsLimits(EnterBook(s, os[0]), os[1..]);
    }
  }

  // ---- What the callers have to check ----

  /**
   Before a placement that is not dropped: its order still carries the limit of its row, and
   is within it. If a restart or the updater has brought the order in before, it must have
   the price of its entry, or else find enough to trade with.
   */
  ghost predicate PlaceChecked(s: Site, k: nat)
    requires k < |s.queue|
  {
    var o := s.queue[k].order;
    o.id in s.placed || ArriveChecked(s, o)
  }

  ghost predicate ArriveChecked(s: Site, o: OrderData) {
    var p := s.book.Pool(o.bot);
    if HasId(p.Stack(o.op), o.id) then HoldsKey(p.Stack(o.op), o) || (!EndsOpen(p, o) && Limited(s, o))
    else Limited(s, o)
  }

  /**
   Before a bulk reprice that will raise: every order that rests and is repriced before that
   point rests within the limit its row has.
   */
  ghost predicate RepriceChecked(s: Site, cs: seq<Candidate>, current: real) {
    AnyRaises(cs, current) ==>
      forall bot, op, x :: x in s.book.Pool(bot).Stack(op) && x.id in Ids(RepriceAll(cs, current)) ==>
        RestsWithin(s, x)
  }

  ghost predicate RestsWithin(s: Site, x: OrderData) {
    x.id in s.rows && x.otcLimit == s.rows[x.id].otcLimit && x.WithinOtcLimit()
  }

  ghost predicate Checked(s: Site, e: Event)
    requires Admissible(s, e)
  {
    match e
    case Place(k) => PlaceChecked(s, k)
    case Reprice(cs, current) => RepriceChecked(s, cs, current)
    case _ => true
  }

  // ---- Every event ----

  lemma {:induction false} SameLimits(s: Site, s': Site)
    requires LimitsKept(s) && s'.tape == s.tape && s'.caps == s.caps
    requires forall id :: id in s'.limited && id in s'.rows ==> s'.rows[id].WithinOtcLimit()
    requires forall bot, op, x :: x in s'.book.Pool(bot).Stack(op) ==> Limited(s', x)
    ensures LimitsKept(s')
  {
  }

  lemma {:induction false} CreateKeepsLimits(s: Site, o: OrderData)
    requires SiteInv(s) && LimitsKept(s) && Admissible(s, Create(o))
    ensures LimitsKept(CreateSite(s, o))
  {
    var s1 := s.(rows := s.rows[o.id := o]);
    FreshRow(s, o, s1);
    if o.kind != StopLimit {
      var s2 := s1.(inStack := s1.inStack + {o.id});
      FreshRow(s, o, s2);
      if o.IsMarket() {
        var s3 := s2.(live := s.live + {o.id});
        FreshRow(s, o, s3);
        PutKeeps(s, o, s3);
        FreshId(s, o);
        PoolAllLeft(s.book.Pool(o.bot), o);
        EnterKeepsLimits(s3, o);
      } else {
        FreshRow(s, o, CreateSite(s, o));
      }
    }
  }

  lemma {:induction false} FreshRow(s: Site, o: OrderData, s': Site)
    requires SiteInv(s) && LimitsKept(s) && o.id !in s.rows
    requires s' == s.(rows := s.rows[o.id := o], inStack := s'.inStack, live := s'.live, queue := s'.queue)
    ensures LimitsKept(s')
  {
    forall bot, op, x | x in s'.book.Pool(bot).Stack(op) ensures Limited(s', x) {
      assert Known(s, x) && Limited(s, x);
    }
    SameLimits(s, s');
  }

  /** Rows, limits and tape as they were, and fewer orders in the book. */
  lemma {:induction false} LessLimits(s: Site, s': Site)
    requires LimitsKept(s) && s'.rows == s.rows && s'.limited == s.limited && s'.tape == s.tape && s'.caps == s.caps
    requires forall bot, op, x :: x in s'.book.Pool(bot).Stack(op) ==> x in s.book.Pool(bot).Stack(op)
    ensures LimitsKept(s')
  {
    forall bot, op, x | x in s'.book.Pool(bot).Stack(op) ensures Limited(s', x) {
      assert Limited(s, x);
    }
    SameLimits(s, s');
  }

  lemma {:induction false} PlaceIff(s: Site, k: nat)
    requires SiteInv(s) && AllKept(s) && k < |s.queue|
    ensures AllKept(PlaceSite(s, k)) <==> PlaceChecked(s, k)
  {
    var p := s.queue[k];
    assert p in s.queue;
    var s1 := s.(queue := s.queue[..k] + s.queue[k + 1..]);
    LessLimits(s, s1);
    if p.order.id !in s.placed {
      var s2 := s1.(placed := s.placed + {p.order.id});
      LessKeeps(s, s2);
      LessLimits(s, s2);
      ArriveIff(s2, p);
    }
  }

  lemma {:induction false} ArriveIff(s: Site, p: Placement)
    requires Arriving(s, p.order) && AllKept(s)
    ensures AllKept(Arrive(s, p)) <==> ArriveChecked(s, p.order)
  {
    var o, s1 := p.order, Flagged(s, p);
    ArriveApart(s, p);
    if HoldsKey(s.book.Pool(o.bot).Stack(o.op), o) {
      ArriveHeld(s, p);
    } else if StaysTogether(s, o) {
      LessKeeps(s, s1);
      LessLimits(s, s1);
      EnterIff(s1, o);
      SameBookLimits(EnterBook(s1, o), Arrive(s, p));
    }
  }

  lemma {:induction false} EnterIff(s: Site, o: OrderData)
    requires Arriving(s, o) && LimitsKept(s) && (HadEntry(s, o) ==> !EndsOpen(s.book.Pool(o.bot), o))
    ensures LimitsKept(EnterBook(s, o)) <==> Limited(s, o)
  {
    if Limited(s, o) {
      EnterKeepsLimits(s, o);
    } else {
      BeyondBreaks(s, o);
    }
  }

  /** Flags have no part in it. */
  lemma {:induction false} SameBookLimits(s: Site, s': Site)
    requires s' == s.(live := s'.live, apart := s'.apart)
    ensures LimitsKept(s) <==> LimitsKept(s')
  {
    if LimitsKept(s) { LessLimits(s, s'); }
    if LimitsKept(s') { LessLimits(s', s); }
  }

  /** The row of an accepted update, written after its order left the stack. */
  lemma {:induction false} UpdatedRow(s: Site, u: OrderData, s1: Site)
    requires SiteInv(s) && LimitsKept(s) && Known(s, u)
    requires s1 == s.(book := Runs.RemoveFromStack(s.book, Loaded(s.rows[u.id])), rows := s.rows[u.id := u],
                      live := s1.live, limited := if u.WithinOtcLimit() then s.limited else s.limited - {u.id})
    ensures LimitsKept(s1) && Limited(s1, u)
  {
    var row := Loaded(s.rows[u.id]);
    assert RowInv(s, u.id);
    Runs.RemoveKeeps(s.book, row);
    forall bot, op, x | x in s1.book.Pool(bot).Stack(op) ensures Limited(s1, x) {
      assert x in s.book.Pool(bot).Stack(op) && Limited(s, x);
      if x.id == u.id && !row.bot { RemovedId(s, row, bot, op, x); }
    }
    SameLimits(s, s1);
  }

  lemma {:induction false} UpdateKeepsLimits(s: Site, id: int, d: UpdateData, allowed: bool)
    requires SiteInv(s) && LimitsKept(s) && id in s.rows
    ensures LimitsKept(UpdateSite(s, id, d, allowed))
  {
    var row, u := Loaded(s.rows[id]), Updated(s, id, d, allowed);
    assert RowInv(s, id);
    Runs.RemoveKeeps(s.book, row);
    if u.None? {
      LessLimits(s, UpdateSite(s, id, d, allowed));
    } else {
      UpdateKeepsExecuted(row, d, allowed);
      if HasId(s.book.user.Stack(row.op), id) {
        var s1 := UpdateReady(s, id, d, allowed);
        UpdatedRow(s, u.value, s1);
        EnterKeepsLimits(s1, u.value);
      } else {
        UpdatedRow(s, u.value, UpdateSite(s, id, d, allowed));
      }
    }
  }

  lemma {:induction false} RepricedLimits(s: Site, us: seq<OrderData>, s1: Site)
    requires SiteInv(s) && LimitsKept(s) && Runs.UniqueOrderIds(us) && forall u :: u in us ==> RepricedFrom(s, u)
    requires s1 == Repriced(s, us).(book := s1.book, live := s1.live)
    requires forall bot, op, x :: x in s1.book.Pool(bot).Stack(op) ==> Limited(s1, x)
    ensures LimitsKept(s1)
  {
    RepricedKeeps(s, us);
    forall id | id in s1.limited && id in s1.rows ensures s1.rows[id].WithinOtcLimit() {
      if id in Ids(us) {
        var u :| u in us && u.id == id;
        assert RepricedFrom(s, u);
      }
    }
    SameLimits(s, s1);
  }

  lemma {:induction false} RepriceRaises(s: Site, cs: seq<Candidate>, current: real)
    requires SiteInv(s) && LimitsKept(s) && Admissible(s, Reprice(cs, current)) && AnyRaises(cs, current)
    ensures LimitsKept(RepriceSite(s, cs, current)) <==> RepriceChecked(s, cs, current)
  {
    var us := RepriceAll(cs, current);
    RepriceCandidates(s, cs, current);
    RepricedRows(s, us);
    if RepriceChecked(s, cs, current) {
      forall bot, op, x | x in s.book.Pool(bot).Stack(op) ensures Limited(Repriced(s, us), x) {
        RestRepriced(s, us, bot, op, x);
      }
      RepricedLimits(s, us, Repriced(s, us));
    } else {
      var bot, op, x :| x in s.book.Pool(bot).Stack(op) && x.id in Ids(us) && !RestsWithin(s, x);
      RestRepriced(s, us, bot, op, x);
      LimitLost(Repriced(s, us), bot, op, x);
    }
  }

  lemma {:induction false} LimitLost(s: Site, bot: bool, op: Operation, x: OrderData)
    requires x in s.book.Pool(bot).Stack(op) && !Limited(s, x)
    ensures !LimitsKept(s)
  {
  }

  lemma {:induction false} RestRepriced(s: Site, us: seq<OrderData>, bot: bool, op: Operation, x: OrderData)
    requires SiteInv(s) && LimitsKept(s) && x in s.book.Pool(bot).Stack(op)
    requires RowsRepriced(s, us, Repriced(s, us)) && forall u :: u in us ==> RepricedFrom(s, u)
    ensures Limited(Repriced(s, us), x) <==> (x.id in Ids(us) ==> RestsWithin(s, x))
  {
    assert Known(s, x) && Limited(s, x);
    RowRepriced(s, us, x);
  }

  lemma {:induction false} RowRepriced(s: Site, us: seq<OrderData>, x: OrderData)
    requires RowsRepriced(s, us, Repriced(s, us)) && (forall u :: u in us ==> RepricedFrom(s, u))
    requires x.id in s.rows && Limited(s, x)
    ensures Limited(Repriced(s, us), x) <==> (x.id in Ids(us) ==> RestsWithin(s, x))
  {
    if x.id in Ids(us) {
      var u :| u in us && u.id == x.id;
      assert RepricedFrom(s, u) && Repriced(s, us).rows[u.id] == u;
    } else {
      assert Repriced(s, us).rows[x.id] == s.rows[x.id];
    }
  }

  /** The repriced orders taken out of their stacks, with their new rows. */
  lemma {:induction false} RepricedReady(s: Site, us: seq<OrderData>, s2: Site)
    requires SiteInv(s) && LimitsKept(s) && Runs.UniqueOrderIds(us) && forall u :: u in us ==> RepricedFrom(s, u)
    requires s2 == RemovedRepriced(s, us)
    ensures SiteInv(s2) && LimitsKept(s2)
    ensures forall u :: u in us ==> Fresh(s2, u) && !u.IsMarket() && Limited(s2, u)
  {
    RepricedRows(s, us);
    RepricedOut(s, us, Repriced(s, us), s2.live);
    forall bot, op, x | x in s2.book.Pool(bot).Stack(op) ensures Limited(s2, x) {
      assert x in s.book.Pool(bot).Stack(op) && x.id !in Ids(us);
      OtherLimited(s, us, s2, x);
    }
    RepricedLimits(s, us, s2);
    forall u | u in us ensures Limited(s2, u) { assert RepricedFrom(s, u); }
  }

  lemma {:induction false} OtherLimited(s: Site, us: seq<OrderData>, s2: Site, x: OrderData)
    requires Limited(s, x) && x.id !in Ids(us) && s2.limited == s.limited + Ids(us) && s2.rows.Keys == s.rows.Keys
    requires x.id in s.rows ==> s2.rows[x.id] == s.rows[x.id]
    ensures Limited(s2, x)
  {
    assert x.id in s2.rows ==> x.id in s.rows.Keys;
  }

  lemma {:induction false} RepriceIff(s: Site, cs: seq<Candidate>, current: real)
    requires SiteInv(s) && LimitsKept(s) && Admissible(s, Reprice(cs, current))
    ensures LimitsKept(RepriceSite(s, cs, current)) <==> RepriceChecked(s, cs, current)
  {
    if AnyRaises(cs, current) {
      RepriceRaises(s, cs, current);
    } else {
      var us := RepriceAll(cs, current);
      RepriceCandidates(s, cs, current);
      var s2 := RemovedRepriced(s, us);
      RepricedReady(s, us, s2);
      EnterAllKeepsLimits(s2, us);
    }
  }

  lemma {:induction false} CancelKeepsLimits(s: Site, id: int)
    requires SiteInv(s) && LimitsKept(s) && id in s.rows
    ensures LimitsKept(CancelSite(s, id))
  {
    var row := s.rows[id];
    assert RowInv(s, id);
    WithoutContents(s.book.Pool(row.bot).Stack(row.op), row.id);
    var s' := CancelSite(s, id);
    forall bot, op, x | x in s'.book.Pool(bot).Stack(op) ensures Limited(s', x) {
      assert x in s.book.Pool(bot).Stack(op) && Limited(s, x);
    }
    SameLimits(s, s');
  }

  lemma {:induction false} ReloadKeepsLimits(s: Site, os: seq<OrderData>)
    requires SiteInv(s) && LimitsKept(s) && Admissible(s, Reload(os))
    ensures LimitsKept(ReloadSite(s, os))
  {
    ReloadReady(s, os);
    var s1 := Emptied(s, os);
    LessLimits(s, s1);
    forall o | o in os ensures Limited(s1, o) {}
    EnterAllKeepsLimits(s1, os);
  }

  /** One event keeps the promise if and only if it is checked. */
  lemma {:induction false} ApplyIff(s: Site, e: Event)
    requires SiteInv(s) && AllKept(s) && Admissible(s, e)
    ensures AllKept(Apply(s, e)) <==> Checked(s, e)
  {
    if !e.Place? { OthersKeepTogether(s, e); }
    match e
    case Create(o) => CreateKeepsLimits(s, o);
    case Place(k) => PlaceIff(s, k);
    case Update(id, d, allowed) => UpdateKeepsLimits(s, id, d, allowed);
    case Reprice(cs, current) => RepriceIff(s, cs, current);
    case Cancel(id) => CancelKeepsLimits(s, id);
    case Trigger(_, _, found) => LessLimits(s, TriggerSite(s, found));
    case Expire(id) => LessLimits(s, s.(placed := s.placed - {id}));
    case Reload(os) => ReloadKeepsLimits(s, os);
  }

  // ---- Runs ----

  ghost predicate AlwaysKept(s: Site, es: seq<Event>)
    requires AdmissibleRun(s, es)
    decreases |es|
  {
    AllKept(s) && (es != [] ==> AlwaysKept(Apply(s, es[0]), es[1..]))
  }

  ghost predicate AllChecked(s: Site, es: seq<Event>)
    requires AdmissibleRun(s, es)
    decreases |es|
  {
    es != [] ==> Checked(s, es[0]) && AllChecked(Apply(s, es[0]), es[1..])
  }

  lemma {:induction false} RunIff(s: Site, es: seq<Event>)
    requires SiteInv(s) && AllKept(s) && AdmissibleRun(s, es)
    ensures AlwaysKept(s, es) <==> AllChecked(s, es)
    decreases |es|
  {
    if es != [] {
      ApplyIff(s, es[0]);
      ApplyKeeps(s, es[0]);
      if Checked(s, es[0]) {
        RunIff(Apply(s, es[0]), es[1..]);
      }
    }
  }

  /**
   Over every run, restarts included: what the updater priced rests, is stored and trades
   within its limit, and lists and maps hold the same, at all times, if and only if every
   placement that is not dropped, of a fresh order or of one that a restart or the updater
   has brought in before, and every bulk reprice that raises pass their checks.
   */
  lemma {:induction false} LimitsAreKeptIff(es: seq<Event>)
    requires AdmissibleRun(START, es)
    ensures AlwaysKept(START, es) <==> AllChecked(START, es)
  {
    StartInv();
    RunIff(START, es);
  }
}
