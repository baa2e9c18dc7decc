/** Only orders whose rows are open rest and trade: over whole runs of a site, exactly when. */
module OpenRows {
  import opened OrderTypes
  import opened StackModel
  import opened Matching
  import opened OrderUpdates
  import opened Sites
  import Runs

  /** Every order that rests is open in the database, and the parties of every trade were when they traded. */
  ghost predicate OnlyOpen(s: Site) {
    && (forall bot, op, x :: x in s.book.Pool(bot).Stack(op) ==> RowOpen(s, x.id))
    && forall i :: 0 <= i < |s.caps| ==> s.caps[i].open
  }

  /** That, and the lists and maps of the stacks hold the same. */
  ghost predicate AllOpen(s: Site) {
    OnlyOpen(s) && s.apart == {}
  }

  // ---- One order through the book ----

  lemma {:induction false} TakerOpen(p: Pool, o: OrderData, i: nat)
    requires Incoming(p, o) && 0 < i < |Matching.Process(p, o).trades|
    ensures var ts := Matching.Process(p, o).trades;
            ts[i - 1].taker.Settle(ts[i - 1].quantity).state == Opened
  {
    var ms := p.Stack(o.op.Other());
    OrderTrades(p, o, i);
    TradesOfFill(p, o);
    FillTakers(o, ms[..Selected(o, ms, o.left)], i);
  }

  lemma {:induction false} TradeOpen(s: Site, o: OrderData, ts: seq<Trade>, s': Site, i: nat)
    requires BookKnown(s) && OnlyOpen(s) && RowOpen(s, o.id) && TradesFit(s, o, ts) && i < |ts|
    requires CapsWritten(s, o.id, ts, s')
    requires i > 0 ==> ts[i - 1].taker.Settle(ts[i - 1].quantity).state == Opened
    ensures s'.caps[|s.caps| + i].open
  {
    MakerAt(s, o, ts, i);
    assert ts[i].maker in s.book.Pool(o.bot).Stack(o.op.Other());
    assert CapWritten(s, o.id, ts, s', i);
  }

  lemma {:induction false} RestOpen(s: Site, o: OrderData, r: Outcome, s': Site, bot: bool, op: Operation, x: OrderData)
    requires BookKnown(s) && OnlyOpen(s) && RowOpen(s, o.id) && TradesFit(s, o, r.trades) && RowsAfter(s, o, r, s')
    requires RestsAfter(s, o, r, bot, op, x) && x.state == Opened && !EntryStays(s, o, r, x) && Same(r.order, o)
    ensures RowOpen(s', x.id)
  {
    if LeftOver(r.trades, x) {
      LeftOverOpen(s, o, r, s', x);
    } else if x == r.order {
      assert o.id in s'.rows.Keys;
    } else {
      assert RowOpen(s, x.id) && x.id in s'.rows.Keys;
    }
  }

  lemma {:induction false} LeftOverOpen(s: Site, o: OrderData, r: Outcome, s': Site, x: OrderData)
    requires BookKnown(s) && TradesFit(s, o, r.trades) && RowsAfter(s, o, r, s')
    requires LeftOver(r.trades, x) && x.state == Opened
    ensures RowOpen(s', x.id)
  {
    var i :| 0 <= i < |r.trades| && x == SettleMaker(r.trades[i].maker, r.trades[i].quantity);
    MakerAt(s, o, r.trades, i);
    assert s'.rows[r.trades[i].maker.id] == x;
  }

  lemma {:induction false} WrittenOpen(s: Site, o: OrderData, s': Site)
    requires BookKnown(s) && OnlyOpen(s) && RowOpen(s, o.id) && Ready(s, o) && Incoming(s.book.Pool(o.bot), o)
    requires HadEntry(s, o) ==> SweepsEntry(s, o)
    requires Written(s, o, Matching.Process(s.book.Pool(o.bot), o), s')
    ensures OnlyOpen(s')
  {
    forall bot, op, x | x in s'.book.Pool(bot).Stack(op) ensures RowOpen(s', x.id) {
      WrittenRestOpen(s, o, s', bot, op, x);
    }
    WrittenTradesOpen(s, o, s');
  }

  lemma {:induction false} WrittenRestOpen(s: Site, o: OrderData, s': Site, bot: bool, op: Operation, x: OrderData)
    requires BookKnown(s) && OnlyOpen(s) && RowOpen(s, o.id) && Ready(s, o) && Incoming(s.book.Pool(o.bot), o)
    requires HadEntry(s, o) ==> SweepsEntry(s, o)
    requires RowsAfter(s, o, Matching.Process(s.book.Pool(o.bot), o), s')
    requires x in Runs.BookProcess(s.book, o).book.Pool(bot).Stack(op)
    ensures RowOpen(s', x.id)
  {
    var p := s.book.Pool(o.bot);
    OrderFits(s, o);
    OrderEnds(p, o);
    Runs.BookProcessKeeps(s.book, o);
    ProcessRests(s, o, bot, op, x);
    if HadEntry(s, o) { EndsOpenIff(p, o); }
    assert Resting(x, op, bot);
    RestOpen(s, o, Matching.Process(p, o), s', bot, op, x);
  }

  lemma {:induction false} WrittenTradesOpen(s: Site, o: OrderData, s': Site)
    requires BookKnown(s) && OnlyOpen(s) && RowOpen(s, o.id) && Ready(s, o) && Incoming(s.book.Pool(o.bot), o)
    requires CapsWritten(s, o.id, Matching.Process(s.book.Pool(o.bot), o).trades, s')
    ensures forall i :: 0 <= i < |s'.caps| ==> s'.caps[i].open
  {
    var p := s.book.Pool(o.bot);
    OrderFits(s, o);
    forall i | 0 <= i < |s'.caps| ensures s'.caps[i].open {
      if i < |s.caps| {
        assert s'.caps[i] == s'.caps[..|s.caps|][i] == s.caps[i];
      } else {
        NewTradeOpen(s, o, s', i - |s.caps|);
      }
    }
  }

  lemma {:induction false} NewTradeOpen(s: Site, o: OrderData, s': Site, i: nat)
    requires BookKnown(s) && OnlyOpen(s) && RowOpen(s, o.id) && Ready(s, o) && Incoming(s.book.Pool(o.bot), o)
    requires TradesFit(s, o, Matching.Process(s.book.Pool(o.bot), o).trades)
    requires CapsWritten(s, o.id, Matching.Process(s.book.Pool(o.bot), o).trades, s')
    requires i < |Matching.Process(s.book.Pool(o.bot), o).trades|
    ensures s'.caps[|s.caps| + i].open
  {
    if i > 0 { TakerOpen(s.book.Pool(o.bot), o, i); }
    TradeOpen(s, o, Matching.Process(s.book.Pool(o.bot), o).trades, s', i);
  }

  lemma {:induction false} EnterKeepsOpen(s: Site, o: OrderData)
    requires BookKnown(s) && OnlyOpen(s) && RowOpen(s, o.id) && Ready(s, o)
    requires HadEntry(s, o) ==> SweepsEntry(s, o)
    ensures OnlyOpen(EnterBook(s, o))
  {
    if o.state == Opened && !HasId(s.book.Pool(o.bot).Stack(o.op.Other()), o.id) {
      PoolAllLeft(s.book.Pool(o.bot), o);
      ProcessWrites(s, o);
      WrittenOpen(s, o, EnterBook(s, o));
    } else {
      IdleProcess(s, o);
    }
  }

  lemma {:induction false} EnterAllKeepsOpen(s: Site, os: seq<OrderData>)
    requires SiteInv(s) && OnlyOpen(s) && Runs.UniqueOrderIds(os)
    requires forall o :: o in os ==> Fresh(s, o) && !o.IsMarket() && RowOpen(s, o.id)
    ensures OnlyOpen(EnterAll(s, os))
    decreases |os|
  {
    if os != [] {
      assert os[0] in os;
      EnterKeepsOpen(s, os[0]);
      ProcessKeeps(s, os[0]);
      FreshStays(s, os);
      forall x | x in os[1..] ensures RowOpen(EnterBook(s, os[0]), x.id) {
        RestUnique(os);
        WaitingRow(s, os[0], x);
      }
      EnterAllKeepsOpen(EnterBook(s, os[0]), os[1..]);
    }
  }

  /** An order whose row is not open breaks the promise, whether it trades or rests. */
  lemma {:induction false} ClosedBreaks(s: Site, o: OrderData)
    requires Arriving(s, o) && !HadEntry(s, o) && !RowOpen(s, o.id) && |s.caps| == |s.tape|
    ensures !OnlyOpen(EnterBook(s, o))
  {
    var p := s.book.Pool(o.bot);
    var ts, s' := Matching.Process(p, o).trades, EnterBook(s, o);
    OtherSideLacks(s, o);
    PoolAllLeft(p, o);
    if ts == [] {
      NoTradeRests(s, o);
      assert !RowOpen(s', o.id);
    } else {
      ProcessWrites(s, o);
      assert CapWritten(s, o.id, ts, s', 0);
      assert !s'.caps[|s.caps|].open;
    }
  }

  /** So does a buy order that closes beside an entry of its own. */
  lemma {:induction false} ClosedBesideEntry(s: Site, o: OrderData)
    requires Arriving(s, o) && HadEntry(s, o) && o.op == Buy && !EndsOpen(s.book.Pool(o.bot), o)
    ensures !OnlyOpen(EnterBook(s, o))
  {
    var own := s.book.Pool(o.bot).Stack(o.op);
    BoughtInFull(s, o);
    var i :| 0 <= i < |own| && own[i].id == o.id;
    assert own[i] in EnterBook(s, o).book.Pool(o.bot).Stack(o.op);
    assert !RowOpen(EnterBook(s, o), own[i].id);
  }

  // ---- Every event ----

  /**
   Before a placement that is not dropped: its row is open. If a restart or the updater has
   brought the order in before, it must have the price of its entry, or else be a sell order
   that finds enough to trade with.
   */
  predicate PlaceOpen(s: Site, k: nat)
    requires k < |s.queue|
  {
    var o := s.queue[k].order;
    o.id in s.placed || ArrivesOpen(s, o)
  }

  predicate ArrivesOpen(s: Site, o: OrderData) {
    var own := s.book.Pool(o.bot).Stack(o.op);
    if HasId(own, o.id) then HoldsKey(own, o) || SweepsEntry(s, o) else RowOpen(s, o.id)
  }

  ghost predicate Open(s: Site, e: Event)
    requires Admissible(s, e)
  {
    e.Place? ==> PlaceOpen(s, e.k)
  }

  /** Nothing new rests, and what rests keeps an open row. */
  lemma {:induction false} LessOpen(s: Site, s': Site)
    requires OnlyOpen(s) && s'.caps == s.caps
    requires forall bot, op, x :: x in s'.book.Pool(bot).Stack(op) ==>
               x in s.book.Pool(bot).Stack(op) && (RowOpen(s, x.id) ==> RowOpen(s', x.id))
    ensures OnlyOpen(s')
  {
  }

  lemma {:induction false} CreateKeepsOpen(s: Site, o: OrderData)
    requires SiteInv(s) && OnlyOpen(s) && Admissible(s, Create(o))
    ensures OnlyOpen(CreateSite(s, o))
  {
    var s1 := s.(rows := s.rows[o.id := o]);
    if o.IsMarket() {
      var s3 := s1.(inStack := s1.inStack + {o.id}, live := s.live + {o.id});
      LessOpen(s, s3);
      PutKeeps(s, o, s3);
      FreshId(s, o);
      PoolAllLeft(s.book.Pool(o.bot), o);
      EnterKeepsOpen(s3, o);
    } else {
      LessOpen(s, CreateSite(s, o));
    }
  }

  lemma {:induction false} EnterIff(s: Site, o: OrderData)
    requires Arriving(s, o) && OnlyOpen(s) && (HadEntry(s, o) ==> !EndsOpen(s.book.Pool(o.bot), o))
    ensures OnlyOpen(EnterBook(s, o)) <==> if HadEntry(s, o) then o.op == Sell else RowOpen(s, o.id)
  {
    if HadEntry(s, o) {
      EntryRowOpen(s, o);
      if o.op == Buy { ClosedBesideEntry(s, o); } else { EnterKeepsOpen(s, o); }
    } else if RowOpen(s, o.id) {
      EnterKeepsOpen(s, o);
    } else {
      ClosedBreaks(s, o);
    }
  }

  lemma {:induction false} EntryRowOpen(s: Site, o: OrderData)
    requires OnlyOpen(s) && HadEntry(s, o)
    ensures RowOpen(s, o.id)
  {
    var own := s.book.Pool(o.bot).Stack(o.op);
    var i :| 0 <= i < |own| && own[i].id == o.id;
    assert own[i] in s.book.Pool(o.bot).Stack(o.op);
  }

  lemma {:induction false} ArriveIff(s: Site, p: Placement)
    requires Arriving(s, p.order) && AllOpen(s)
    ensures AllOpen(Arrive(s, p)) <==> ArrivesOpen(s, p.order)
  {
    var o, s1 := p.order, Flagged(s, p);
    ArriveApart(s, p);
    if HoldsKey(s.book.Pool(o.bot).Stack(o.op), o) {
      ArriveHeld(s, p);
    } else if StaysTogether(s, o) {
      LessKeeps(s, s1);
      LessOpen(s, s1);
      EnterIff(s1, o);
    }
  }

  lemma {:induction false} PlaceIff(s: Site, k: nat)
    requires SiteInv(s) && AllOpen(s) && k < |s.queue|
    ensures AllOpen(PlaceSite(s, k)) <==> PlaceOpen(s, k)
  {
    var p := s.queue[k];
    assert p in s.queue;
    var s1 := s.(queue := s.queue[..k] + s.queue[k + 1..]);
    LessOpen(s, s1);
    if p.order.id !in s.placed {
      var s2 := s1.(placed := s.placed + {p.order.id});
      LessKeeps(s, s2);
      LessOpen(s, s2);
      ArriveIff(s2, p);
    }
  }

  lemma {:induction false} UpdateKeepsOpen(s: Site, id: int, d: UpdateData, allowed: bool)
    requires SiteInv(s) && OnlyOpen(s) && id in s.rows
    ensures OnlyOpen(UpdateSite(s, id, d, allowed))
  {
    var row, u := Loaded(s.rows[id]), Updated(s, id, d, allowed);
    assert RowInv(s, id);
    Runs.RemoveKeeps(s.book, row);
    if u.None? {
      LessOpen(s, UpdateSite(s, id, d, allowed));
    } else {
      UpdateKeepsExecuted(row, d, allowed);
      if HasId(s.book.user.Stack(row.op), id) {
        var s1 := UpdateReady(s, id, d, allowed);
        UpdatedOpen(s, id, u.value, s1);
        EnterKeepsOpen(s1, u.value);
      } else {
        UpdatedOpen(s, id, u.value, UpdateSite(s, id, d, allowed));
      }
    }
  }

  lemma {:induction false} UpdatedOpen(s: Site, id: int, u: OrderData, s1: Site)
    requires SiteInv(s) && OnlyOpen(s) && id in s.rows && u.state == Opened && s1.rows == s.rows[id := u]
    requires s1.book == Runs.RemoveFromStack(s.book, Loaded(s.rows[id])) && s1.caps == s.caps
    ensures OnlyOpen(s1)
  {
    Runs.RemoveKeeps(s.book, Loaded(s.rows[id]));
    LessOpen(s, s1);
  }

  lemma {:induction false} RepricedOpen(s: Site, us: seq<OrderData>, id: int)
    requires RowsRepriced(s, us, Repriced(s, us)) && (forall u :: u in us ==> RepricedFrom(s, u)) && RowOpen(s, id)
    ensures RowOpen(Repriced(s, us), id)
  {
    assert id in s.rows.Keys;
    if id in Ids(us) {
      var u :| u in us && u.id == id;
      assert RepricedFrom(s, u);
    }
  }

  lemma {:induction false} RepriceKeepsOpen(s: Site, cs: seq<Candidate>, current: real)
    requires SiteInv(s) && OnlyOpen(s) && Admissible(s, Reprice(cs, current))
    ensures OnlyOpen(RepriceSite(s, cs, current))
  {
    var us := RepriceAll(cs, current);
    var s1 := Repriced(s, us);
    RepriceCandidates(s, cs, current);
    RepricedRows(s, us);
    forall id | RowOpen(s, id) ensures RowOpen(s1, id) { RepricedOpen(s, us, id); }
    LessOpen(s, s1);
    if !AnyRaises(cs, current) {
      ReenteredOpen(s, us, RemovedRepriced(s, us));
    }
  }

  lemma {:induction false} ReenteredOpen(s: Site, us: seq<OrderData>, s2: Site)
    requires Runs.UniqueOrderIds(us) && RowsRepriced(s, us, Repriced(s, us)) && OnlyOpen(Repriced(s, us))
    requires (forall u :: u in us ==> RepricedFrom(s, u)) && s2 == RemovedRepriced(s, us)
    ensures OnlyOpen(EnterAll(s2, us))
  {
    RepricedOut(s, us, Repriced(s, us), s2.live);
    OutOpen(Repriced(s, us), s2);
    forall u | u in us ensures RowOpen(s2, u.id) { assert RepricedFrom(s, u); }
    EnterAllKeepsOpen(s2, us);
  }

  lemma {:induction false} OutOpen(s: Site, s2: Site)
    requires OnlyOpen(s) && s2.rows == s.rows && s2.caps == s.caps
    requires forall bot, op, x :: x in s2.book.Pool(bot).Stack(op) ==> x in s.book.Pool(bot).Stack(op)
    ensures OnlyOpen(s2)
  {
    LessOpen(s, s2);
  }

  lemma {:induction false} CancelKeepsOpen(s: Site, id: int)
    requires SiteInv(s) && OnlyOpen(s) && id in s.rows
    ensures OnlyOpen(CancelSite(s, id))
  {
    var row, s' := s.rows[id], CancelSite(s, id);
    assert RowInv(s, id);
    WithoutContents(s.book.Pool(row.bot).Stack(row.op), row.id);
    forall bot, op, x | x in s'.book.Pool(bot).Stack(op) ensures x in s.book.Pool(bot).Stack(op) && x.id != id {
      assert x in s.book.Pool(bot).Stack(op);
      if x.id == id { RestsHere(s, x, bot, op, row); }
    }
    LessOpen(s, s');
  }

  lemma {:induction false} ReloadKeepsOpen(s: Site, os: seq<OrderData>)
    requires SiteInv(s) && OnlyOpen(s) && Admissible(s, Reload(os))
    ensures OnlyOpen(ReloadSite(s, os))
  {
    ReloadReady(s, os);
    var s1 := Emptied(s, os);
    assert forall bot, op :: Runs.EMPTY.Pool(bot).Stack(op) == [];
    LessOpen(s, s1);
    forall o | o in os ensures RowOpen(s1, o.id) {}
    EnterAllKeepsOpen(s1, os);
  }

  /** One event keeps that if and only if it is no stale placement. */
  lemma {:induction false} ApplyIff(s: Site, e: Event)
    requires SiteInv(s) && AllOpen(s) && Admissible(s, e)
    ensures AllOpen(Apply(s, e)) <==> Open(s, e)
  {
    if !e.Place? { OthersKeepTogether(s, e); }
    match e
    case Create(o) => CreateKeepsOpen(s, o);
    case Place(k) => PlaceIff(s, k);
    case Update(id, d, allowed) => UpdateKeepsOpen(s, id, d, allowed);
    case Reprice(cs, current) => RepriceKeepsOpen(s, cs, current);
    case Cancel(id) => CancelKeepsOpen(s, id);
    case Trigger(_, _, found) => LessOpen(s, TriggerSite(s, found));
    case Expire(id) => LessOpen(s, s.(placed := s.placed - {id}));
    case Reload(os) => ReloadKeepsOpen(s, os);
  }

  // ---- Runs ----

  ghost predicate AlwaysOpen(s: Site, es: seq<Event>)
    requires AdmissibleRun(s, es)
    decreases |es|
  {
    AllOpen(s) && (es != [] ==> AlwaysOpen(Apply(s, es[0]), es[1..]))
  }

  ghost predicate EveryPlaceOpen(s: Site, es: seq<Event>)
    requires AdmissibleRun(s, es)
    decreases |es|
  {
    es != [] ==> Open(s, es[0]) && EveryPlaceOpen(Apply(s, es[0]), es[1..])
  }

  lemma {:induction false} RunIff(s: Site, es: seq<Event>)
    requires SiteInv(s) && AllOpen(s) && AdmissibleRun(s, es)
    ensures AlwaysOpen(s, es) <==> EveryPlaceOpen(s, es)
    decreases |es|
  {
    if es != [] {
      ApplyIff(s, es[0]);
      ApplyKeeps(s, es[0]);
      if Open(s, es[0]) {
        RunIff(Apply(s, es[0]), es[1..]);
      }
    }
  }

  /**
   Over every run: what rests is open in the database, whatever trades was, and lists and maps
   hold the same, at all times, if and only if every placement that is not dropped brings an
   order whose row is open, and one that was brought in before at its entry's price, or a sell
   order that finds enough to trade with.
   */
  lemma {:induction false} OnlyOpenOrdersIff(es: seq<Event>)
    requires AdmissibleRun(START, es)
    ensures AlwaysOpen(START, es) <==> EveryPlaceOpen(START, es)
  {
    StartInv();
    RunIff(START, es);
  }
}
