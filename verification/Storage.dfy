/**
 What rests is in the database as it rests, flagged as in the stack: over whole runs of a
 site, exactly when. It is what a restart relies on.
 */
module Storage {
  import opened OrderTypes
  import opened StackModel
  import opened Matching
  import opened OrderUpdates
  import opened Sites
  import Runs

  /** What rests is flagged, and its row says the same of it. */
  ghost predicate RestsStored(s: Site, x: OrderData) {
    x.id in s.inStack && x.id in s.rows && Loaded(s.rows[x.id]) == Loaded(x)
  }

  /** All but this order's entries are stored, and flagged in memory as well. */
  ghost predicate OthersStored(s: Site, id: int) {
    forall bot, op, x :: x in s.book.Pool(bot).Stack(op) && x.id != id ==> RestsStored(s, x) && x.id in s.live
  }

  ghost predicate Stored(s: Site) {
    forall bot, op, x :: x in s.book.Pool(bot).Stack(op) ==> RestsStored(s, x) && x.id in s.live
  }

  /** That, and the lists and maps of the stacks hold the same. */
  ghost predicate AllStored(s: Site) {
    Stored(s) && s.apart == {}
  }

  /** Only stop-limit orders are ever without their flag. */
  ghost predicate FlagInv(s: Site) {
    && (forall id :: id in s.rows && s.rows[id].kind != StopLimit ==> id in s.inStack)
    && (forall p :: p in s.queue && p.order.kind != StopLimit ==> p.inStack)
  }

  // ---- One order through the book ----

  /** What an order needs to be stored as it rests: the flag in memory, and its row, unless a trade writes it. */
  ghost predicate WillBeStored(s: Site, o: OrderData) {
    var r := Matching.Process(s.book.Pool(o.bot), o);
    r.order.state == Opened ==> o.id in s.live && (r.trades == [] ==> RestsStored(s, o))
  }

  lemma {:induction false} LeftOverStored(s: Site, o: OrderData, r: Outcome, s': Site, x: OrderData)
    requires BookKnown(s) && OthersStored(s, o.id) && TradesFit(s, o, r.trades) && RowsAfter(s, o, r, s')
    requires LeftOver(r.trades, x) && s'.live == s.live
    ensures RestsStored(s', x) && x.id in s'.live
  {
    var i :| 0 <= i < |r.trades| && x == SettleMaker(r.trades[i].maker, r.trades[i].quantity);
    MakerLive(s, o, r.trades, i);
    MakerRow(r.trades[i], s', x);
  }

  lemma {:induction false} MakerRow(t: Trade, s': Site, x: OrderData)
    requires x == SettleMaker(t.maker, t.quantity) && t.maker.id in s'.rows && s'.rows[t.maker.id] == x
    requires t.maker.id in s'.inStack && t.maker.id in s'.live
    ensures RestsStored(s', x) && x.id in s'.live
  {
  }

  lemma {:induction false} MakerLive(s: Site, o: OrderData, ts: seq<Trade>, i: nat)
    requires BookKnown(s) && OthersStored(s, o.id) && TradesFit(s, o, ts) && i < |ts|
    ensures ts[i].maker.id in s.live
  {
    MakerAt(s, o, ts, i);
    assert ts[i].maker in s.book.Pool(o.bot).Stack(o.op.Other());
  }

  lemma {:induction false} RestStored(s: Site, o: OrderData, r: Outcome, s': Site, bot: bool, op: Operation,
      x: OrderData)
    requires BookKnown(s) && OthersStored(s, o.id) && TradesFit(s, o, r.trades) && RowsAfter(s, o, r, s')
    requires RestsAfter(s, o, r, bot, op, x) && !EntryStays(s, o, r, x) && Same(r.order, o) && s'.live == s.live
    requires r.order.state == Opened ==> o.id in s.live && (r.trades == [] ==> RestsStored(s, o))
    requires r.trades == [] && r.order.state != Canceled ==> r.order == o
    ensures RestsStored(s', x) && x.id in s'.live
  {
    if LeftOver(r.trades, x) {
      LeftOverStored(s, o, r, s', x);
    } else if x != r.order {
      assert x.id in s.rows.Keys;
    }
  }

  lemma {:induction false} WrittenStored(s: Site, o: OrderData, s': Site, bot: bool, op: Operation, x: OrderData)
    requires BookKnown(s) && OthersStored(s, o.id) && WillBeStored(s, o) && Ready(s, o)
    requires Incoming(s.book.Pool(o.bot), o) && (HadEntry(s, o) ==> SweepsEntry(s, o))
    requires RowsAfter(s, o, Matching.Process(s.book.Pool(o.bot), o), s') && s'.live == s.live
    requires x in Runs.BookProcess(s.book, o).book.Pool(bot).Stack(op)
    ensures RestsStored(s', x) && x.id in s'.live
  {
    var p := s.book.Pool(o.bot);
    OrderFits(s, o);
    OrderEnds(p, o);
    ProcessRests(s, o, bot, op, x);
    if HadEntry(s, o) { EndsOpenIff(p, o); }
    RestStored(s, o, Matching.Process(p, o), s', bot, op, x);
  }

  lemma {:induction false} EnterKeepsStored(s: Site, o: OrderData)
    requires BookKnown(s) && OthersStored(s, o.id) && WillBeStored(s, o) && Ready(s, o)
    requires Incoming(s.book.Pool(o.bot), o) && (HadEntry(s, o) ==> SweepsEntry(s, o))
    ensures Stored(EnterBook(s, o))
  {
    ProcessWrites(s, o);
    AllWritten(s, o, EnterBook(s, o));
  }

  lemma {:induction false} AllWritten(s: Site, o: OrderData, s': Site)
    requires BookKnown(s) && OthersStored(s, o.id) && WillBeStored(s, o) && Ready(s, o)
    requires Incoming(s.book.Pool(o.bot), o) && (HadEntry(s, o) ==> SweepsEntry(s, o))
    requires RowsAfter(s, o, Matching.Process(s.book.Pool(o.bot), o), s') && s'.live == s.live
    requires s'.book == Runs.BookProcess(s.book, o).book
    ensures Stored(s')
  {
    StackWritten(s, o, s', false, Buy);
    StackWritten(s, o, s', false, Sell);
    StackWritten(s, o, s', true, Buy);
    StackWritten(s, o, s', true, Sell);
    StacksStored(s');
  }

  lemma {:induction false} StacksStored(s: Site)
    requires StackStored(s, false, Buy) && StackStored(s, false, Sell)
    requires StackStored(s, true, Buy) && StackStored(s, true, Sell)
    ensures Stored(s)
  {
    forall bot, op, x | x in s.book.Pool(bot).Stack(op) ensures RestsStored(s, x) && x.id in s.live {
      assert StackStored(s, bot, op);
    }
  }

  ghost predicate StackStored(s: Site, bot: bool, op: Operation) {
    forall x :: x in s.book.Pool(bot).Stack(op) ==> RestsStored(s, x) && x.id in s.live
  }

  lemma {:induction false} StackWritten(s: Site, o: OrderData, s': Site, bot: bool, op: Operation)
    requires BookKnown(s) && OthersStored(s, o.id) && WillBeStored(s, o) && Ready(s, o)
    requires Incoming(s.book.Pool(o.bot), o) && (HadEntry(s, o) ==> SweepsEntry(s, o))
    requires RowsAfter(s, o, Matching.Process(s.book.Pool(o.bot), o), s') && s'.live == s.live
    requires s'.book == Runs.BookProcess(s.book, o).book
    ensures StackStored(s', bot, op)
  {
    forall x | x in s'.book.Pool(bot).Stack(op) ensures RestsStored(s', x) && x.id in s'.live {
      WrittenStored(s, o, s', bot, op, x);
    }
  }

  lemma {:induction false} EnterKeepsFlags(s: Site, o: OrderData)
    requires BookKnown(s) && OthersStored(s, o.id) && FlagInv(s) && Ready(s, o) && Incoming(s.book.Pool(o.bot), o)
    requires o.kind != StopLimit ==> o.id in s.live
    ensures FlagInv(EnterBook(s, o))
  {
    var r := Matching.Process(s.book.Pool(o.bot), o);
    ProcessWrites(s, o);
    OrderFits(s, o);
    OrderEnds(s.book.Pool(o.bot), o);
    FlagsWritten(s, o, r, EnterBook(s, o));
  }

  lemma {:induction false} FlagsWritten(s: Site, o: OrderData, r: Outcome, s': Site)
    requires BookKnown(s) && OthersStored(s, o.id) && FlagInv(s) && Known(s, o) && TradesFit(s, o, r.trades)
    requires Written(s, o, r, s') && Same(r.order, o) && (o.kind != StopLimit ==> o.id in s.live)
    ensures FlagInv(s')
  {
    WrittenStays(s, o, r, s');
    forall id | id in s'.rows && s'.rows[id].kind != StopLimit ensures id in s'.inStack {
      assert id in s.rows.Keys;
      if IsMaker(r.trades, id) {
        var i := MakerTrade(s, o, r.trades, id);
        assert r.trades[i].maker in s.book.Pool(o.bot).Stack(o.op.Other());
      }
    }
  }

  ghost predicate Waiting(s: Site, o: OrderData) {
    Fresh(s, o) && !o.IsMarket() && o.state == Opened && RestsStored(s, o) && o.id in s.live
  }

  /** An order read with its row and flag is stored as it rests. */
  lemma {:induction false} EnterWaiting(s: Site, o: OrderData)
    requires SiteInv(s) && Stored(s) && FlagInv(s) && Waiting(s, o)
    ensures Stored(EnterBook(s, o)) && FlagInv(EnterBook(s, o))
  {
    OtherSideLacks(s, o);
    PoolAllLeft(s.book.Pool(o.bot), o);
    EnterKeepsStored(s, o);
    EnterKeepsFlags(s, o);
  }

  lemma {:induction false} EnterAllKeepsStored(s: Site, os: seq<OrderData>)
    requires SiteInv(s) && Stored(s) && FlagInv(s) && Runs.UniqueOrderIds(os)
    requires forall o :: o in os ==> Waiting(s, o)
    ensures Stored(EnterAll(s, os)) && FlagInv(EnterAll(s, os))
    decreases |os|
  {
    if os != [] {
      assert os[0] in os;
      EnterWaiting(s, os[0]);
      ProcessKeeps(s, os[0]);
      StillWaiting(s, os);
      EnterAllKeepsStored(EnterBook(s, os[0]), os[1..]);
    }
  }

  lemma {:induction false} StillWaiting(s: Site, os: seq<OrderData>)
    requires SiteInv(s) && Runs.UniqueOrderIds(os) && os != [] && forall o :: o in os ==> Waiting(s, o)
    ensures forall x :: x in os[1..] ==> Waiting(EnterBook(s, os[0]), x)
    ensures Runs.UniqueOrderIds(os[1..])
  {
    assert os[0] in os;
    FreshStays(s, os);
    RestUnique(os);
    EnterElsewhere(s, os[0]);
    forall x | x in os[1..] ensures Waiting(EnterBook(s, os[0]), x) {
      assert x in os;
      WaitingRow(s, os[0], x);
    }
  }

  // ---- What the callers have to check ----

  /**
   Before a placement that is not dropped: if the order will rest, it is queued with its flag
   set, and if it rests at once, its row is flagged and says the same of it. If a restart or
   the updater has brought it in before, it must have the price of its entry, or else be a
   sell order that finds enough to trade with.
   */
  ghost predicate PlaceStored(s: Site, k: nat)
    requires k < |s.queue|
  {
    s.queue[k].order.id in s.placed || ArrivesStored(s, s.queue[k])
  }

  ghost predicate ArrivesStored(s: Site, p: Placement) {
    var pool, o := s.book.Pool(p.order.bot), p.order;
    if HasId(pool.Stack(o.op), o.id) then HoldsKey(pool.Stack(o.op), o) || SweepsEntry(s, o)
    else EndsOpen(pool, o) ==> p.inStack && (MeetsNothing(pool, o) ==> RestsStored(s, o))
  }

  /** Before an accepted update: a bot's order that rests, whose stack is not looked at, is not changed. */
  ghost predicate UpdateStored(s: Site, id: int, d: UpdateData, allowed: bool)
    requires id in s.rows
  {
    var row := Loaded(s.rows[id]);
    row.bot && HasId(s.book.bots.Stack(row.op), id) && Acceptable(row, d, allowed) ==> ChangesNothing(row, d)
  }

  /** Before a bulk reprice that will raise: no order that rests gets another price before that point. */
  ghost predicate RepriceStored(s: Site, cs: seq<Candidate>, current: real) {
    AnyRaises(cs, current) ==>
      forall u :: u in RepriceAll(cs, current) && HasId(s.book.user.Stack(u.op), u.id) ==>
        u.id in s.rows && u.price == s.rows[u.id].price
  }

  ghost predicate Safe(s: Site, e: Event)
    requires Admissible(s, e)
  {
    match e
    case Place(k) => PlaceStored(s, k)
    case Update(id, d, allowed) => UpdateStored(s, id, d, allowed)
    case Reprice(cs, current) => RepriceStored(s, cs, current)
    case _ => true
  }

  // ---- Every event ----

  /** Nothing new rests, and what rests keeps its row and flags. */
  lemma {:induction false} LessStored(s: Site, s': Site)
    requires Stored(s)
    requires forall bot, op, x :: x in s'.book.Pool(bot).Stack(op) ==>
               x in s.book.Pool(bot).Stack(op) && (RestsStored(s, x) ==> RestsStored(s', x))
    requires forall bot, op, x :: x in s'.book.Pool(bot).Stack(op) && x.id in s.live ==> x.id in s'.live
    ensures Stored(s')
  {
  }

  lemma {:induction false} CreateKeepsStored(s: Site, o: OrderData)
    requires SiteInv(s) && Stored(s) && FlagInv(s) && Admissible(s, Create(o))
    ensures Stored(CreateSite(s, o)) && FlagInv(CreateSite(s, o))
  {
    forall bot, op, x | x in s.book.Pool(bot).Stack(op) ensures x.id != o.id { assert Known(s, x); }
    if o.IsMarket() {
      MarketKeepsStored(s, o, s.(rows := s.rows[o.id := o], inStack := s.inStack + {o.id}, live := s.live + {o.id}));
    } else {
      LessStored(s, CreateSite(s, o));
    }
  }

  lemma {:induction false} MarketKeepsStored(s: Site, o: OrderData, s1: Site)
    requires SiteInv(s) && Stored(s) && FlagInv(s) && Admissible(s, Create(o)) && o.IsMarket()
    requires forall bot, op, x :: x in s.book.Pool(bot).Stack(op) ==> x.id != o.id
    requires s1 == s.(rows := s.rows[o.id := o], inStack := s.inStack + {o.id}, live := s.live + {o.id})
    ensures Stored(EnterBook(s1, o)) && FlagInv(EnterBook(s1, o))
  {
    LessStored(s, s1);
    PutKeeps(s, o, s1);
    FreshId(s, o);
    PoolAllLeft(s.book.Pool(o.bot), o);
    OrderEnds(s.book.Pool(o.bot), o);
    EnterKeepsStored(s1, o);
    EnterKeepsFlags(s1, o);
  }

  lemma {:induction false} PlaceIff(s: Site, k: nat)
    requires SiteInv(s) && AllStored(s) && FlagInv(s) && k < |s.queue|
    ensures AllStored(PlaceSite(s, k)) <==> PlaceStored(s, k)
    ensures FlagInv(PlaceSite(s, k))
  {
    var p := s.queue[k];
    assert p in s.queue;
    var s1 := s.(queue := s.queue[..k] + s.queue[k + 1..]);
    LessStored(s, s1);
    if p.order.id !in s.placed {
      var s2 := s1.(placed := s.placed + {p.order.id});
      LessKeeps(s, s2);
      LessStored(s, s2);
      ArriveIff(s2, p);
    }
  }

  lemma {:induction false} ArriveIff(s: Site, p: Placement)
    requires Arriving(s, p.order) && AllStored(s) && FlagInv(s) && (p.order.kind != StopLimit ==> p.inStack)
    ensures AllStored(Arrive(s, p)) <==> ArrivesStored(s, p)
    ensures FlagInv(Arrive(s, p))
  {
    var o, s1 := p.order, Flagged(s, p);
    var pool := s.book.Pool(o.bot);
    ArriveApart(s, p);
    LessKeeps(s, s1);
    EnterKeepsFlags(s1, o);
    if HoldsKey(pool.Stack(o.op), o) {
      ArriveHeld(s, p);
    } else if StaysTogether(s, o) {
      if HadEntry(s, o) { ArriveBeside(s, p); } else { ArriveNew(s, p); }
    }
  }

  /** With an entry at another price: a sell order sweeps it out, a buy order leaves it beside a closed row. */
  lemma {:induction false} ArriveBeside(s: Site, p: Placement)
    requires Arriving(s, p.order) && Stored(s) && HadEntry(s, p.order)
    requires Incoming(s.book.Pool(p.order.bot), p.order) && !EndsOpen(s.book.Pool(p.order.bot), p.order)
    ensures Stored(Arrive(s, p)) <==> p.order.op == Sell
  {
    var o, s1 := p.order, Flagged(s, p);
    LessKeeps(s, s1);
    if o.op == Sell {
      EndsOpenIff(s.book.Pool(o.bot), o);
      EnterKeepsStored(s1, o);
      EntrySwept(s1, o);
      LiveAgain(s, p);
    } else {
      EntryUnstored(s1, o, Arrive(s, p));
    }
  }

  lemma {:induction false} EntryUnstored(s: Site, o: OrderData, s': Site)
    requires Arriving(s, o) && HadEntry(s, o) && o.op == Buy && !EndsOpen(s.book.Pool(o.bot), o)
    requires s'.book == EnterBook(s, o).book && s'.rows == EnterBook(s, o).rows
    ensures !Stored(s')
  {
    var own := s.book.Pool(o.bot).Stack(o.op);
    BoughtInFull(s, o);
    var i :| 0 <= i < |own| && own[i].id == o.id;
    assert own[i] in s.book.Pool(o.bot).Stack(o.op) && Resting(own[i], o.op, o.bot);
    Unstored(s', o.bot, o.op, own[i]);
  }

  lemma {:induction false} EntrySwept(s: Site, o: OrderData)
    requires Arriving(s, o) && Incoming(s.book.Pool(o.bot), o) && SweepsEntry(s, o)
    ensures forall bot, op, x :: x in EnterBook(s, o).book.Pool(bot).Stack(op) ==> x.id != o.id
  {
    ProcessKeeps(s, o);
    forall bot, op, x | x in EnterBook(s, o).book.Pool(bot).Stack(op) ensures x.id != o.id {
      OtherEntry(s, o, bot, op, x);
    }
  }

  lemma {:induction false} OtherEntry(s: Site, o: OrderData, bot: bool, op: Operation, x: OrderData)
    requires Arriving(s, o) && Incoming(s.book.Pool(o.bot), o) && SweepsEntry(s, o)
    requires x in Runs.BookProcess(s.book, o).book.Pool(bot).Stack(op)
    ensures x.id != o.id
  {
    var ts := Matching.Process(s.book.Pool(o.bot), o).trades;
    OrderFits(s, o);
    EndsOpenIff(s.book.Pool(o.bot), o);
    ProcessRests(s, o, bot, op, x);
    if LeftOver(ts, x) {
      var i :| 0 <= i < |ts| && x == SettleMaker(ts[i].maker, ts[i].quantity);
    }
  }

  lemma {:induction false} LiveAgain(s: Site, p: Placement)
    requires Stored(EnterBook(Flagged(s, p), p.order)) && HadEntry(s, p.order)
    requires forall bot, op, x :: x in EnterBook(Flagged(s, p), p.order).book.Pool(bot).Stack(op) ==> x.id != p.order.id
    ensures Stored(Arrive(s, p))
  {
    EnterElsewhere(Flagged(s, p), p.order);
    LessStored(EnterBook(Flagged(s, p), p.order), Arrive(s, p));
  }

  /** Without an entry: it rests with the flag of its message, as a trade wrote its row or as its row stood. */
  lemma {:induction false} ArriveNew(s: Site, p: Placement)
    requires Arriving(s, p.order) && Stored(s) && !HadEntry(s, p.order)
    requires Incoming(s.book.Pool(p.order.bot), p.order)
    ensures Stored(Arrive(s, p)) <==> ArrivesStored(s, p)
  {
    var o, s1 := p.order, Flagged(s, p);
    var pool := s.book.Pool(o.bot);
    LessKeeps(s, s1);
    EndsOpenIff(pool, o);
    forall bot, op, x | x in s.book.Pool(bot).Stack(op) && x.id != o.id ensures x.id in s1.live {}
    if ArrivesStored(s, p) {
      EnterKeepsStored(s1, o);
    } else {
      NewUnstored(s, p);
    }
  }

  lemma {:induction false} NewUnstored(s: Site, p: Placement)
    requires Arriving(s, p.order) && !HadEntry(s, p.order) && Incoming(s.book.Pool(p.order.bot), p.order)
    requires !ArrivesStored(s, p)
    ensures !Stored(Arrive(s, p))
  {
    var o, s1 := p.order, Flagged(s, p);
    LessKeeps(s, s1);
    EndsOpenIff(s.book.Pool(o.bot), o);
    ProcessWrites(s1, o);
    NewRests(s1, o, EnterBook(s1, o));
    if p.inStack {
      NoTradeRests(s1, o);
      OrderEnds(s.book.Pool(o.bot), o);
      Unstored(EnterBook(s1, o), o.bot, o.op, o);
    }
  }

  lemma {:induction false} NewRests(s: Site, o: OrderData, s': Site)
    requires Arriving(s, o) && !HadEntry(s, o) && Incoming(s.book.Pool(o.bot), o) && EndsOpen(s.book.Pool(o.bot), o)
    requires Written(s, o, Matching.Process(s.book.Pool(o.bot), o), s')
    ensures var x := Matching.Process(s.book.Pool(o.bot), o).order;
            x.id == o.id && x in s'.book.Pool(o.bot).Stack(o.op) && s'.live == s.live
  {
    var pool := s.book.Pool(o.bot);
    var r := Matching.Process(pool, o);
    EndsOpenIff(pool, o);
    ProcessOrder(pool, o);
    InsertContents(DirectionOf(o.op), pool.Stack(o.op), r.order);
  }

  lemma {:induction false} UpdateIff(s: Site, id: int, d: UpdateData, allowed: bool)
    requires SiteInv(s) && Stored(s) && FlagInv(s) && id in s.rows
    ensures Stored(UpdateSite(s, id, d, allowed)) <==> UpdateStored(s, id, d, allowed)
    ensures FlagInv(UpdateSite(s, id, d, allowed))
  {
    var row, u := Loaded(s.rows[id]), Updated(s, id, d, allowed);
    assert RowInv(s, id);
    Runs.RemoveKeeps(s.book, row);
    AcceptedIff(row, d, allowed);
    if u.None? {
      LessStored(s, UpdateSite(s, id, d, allowed));
    } else {
      UpdateKeepsExecuted(row, d, allowed);
      if HasId(s.book.user.Stack(row.op), id) {
        UserRow(s, row.op, id);
        UpdateRests(s, id, d, allowed);
      } else {
        UpdateOutside(s, id, d, allowed);
      }
    }
  }

  lemma {:induction false} UpdateRests(s: Site, id: int, d: UpdateData, allowed: bool)
    requires SiteInv(s) && Stored(s) && FlagInv(s) && id in s.rows && Updated(s, id, d, allowed).Some?
    requires HasId(s.book.user.Stack(s.rows[id].op), id)
    ensures Stored(UpdateSite(s, id, d, allowed)) && FlagInv(UpdateSite(s, id, d, allowed))
  {
    var row, u := Loaded(s.rows[id]), Updated(s, id, d, allowed).value;
    assert RowInv(s, id);
    UpdateKeepsExecuted(row, d, allowed);
    UserRow(s, row.op, id);
    UserFlagged(s, row.op, id);
    var s1 := UpdateReady(s, id, d, allowed);
    UpdatedStored(s, id, u, s1);
  }

  lemma {:induction false} UpdatedStored(s: Site, id: int, u: OrderData, s1: Site)
    requires SiteInv(s) && Stored(s) && FlagInv(s) && id in s.rows && id in s.inStack && !s.rows[id].bot
    requires s.rows[id].kind == u.kind && u.id == id && !u.IsMarket() && u.state == Opened
    requires s1 == s.(book := Runs.RemoveFromStack(s.book, Loaded(s.rows[id])), rows := s.rows[id := u],
                      live := s1.live, limited := s1.limited)
    requires SiteInv(s1) && Fresh(s1, u) && s.live + {id} == s1.live
    ensures Stored(EnterBook(s1, u)) && FlagInv(EnterBook(s1, u))
  {
    OutStored(s, id, u, s1);
    UpdatedWaits(s, id, u, s1);
    EnterWaiting(s1, u);
  }

  lemma {:induction false} UpdatedWaits(s: Site, id: int, u: OrderData, s1: Site)
    requires FlagInv(s) && id in s.rows && id in s.inStack && s.rows[id].kind == u.kind && u.id == id
    requires s1 == s.(book := s1.book, rows := s.rows[id := u], live := s1.live, limited := s1.limited)
    requires Fresh(s1, u) && !u.IsMarket() && u.state == Opened && id in s1.live
    ensures FlagInv(s1) && Waiting(s1, u)
  {
    FlagsSame(s, s1);
  }

  lemma {:induction false} FlagsSame(s: Site, s': Site)
    requires FlagInv(s) && s'.rows.Keys == s.rows.Keys && s'.queue == s.queue && s'.inStack == s.inStack
    requires forall id :: id in s.rows ==> s'.rows[id].kind == s.rows[id].kind
    ensures FlagInv(s')
  {
  }

  lemma {:induction false} UserFlagged(s: Site, op: Operation, id: int)
    requires Stored(s) && HasId(s.book.user.Stack(op), id)
    ensures id in s.inStack
  {
    var st := s.book.user.Stack(op);
    var i :| 0 <= i < |st| && st[i].id == id;
    assert st[i] in s.book.Pool(false).Stack(op);
  }

  lemma {:induction false} OutStored(s: Site, id: int, u: OrderData, s1: Site)
    requires SiteInv(s) && Stored(s) && id in s.rows && !s.rows[id].bot && u.id == id
    requires s1.book == Runs.RemoveFromStack(s.book, Loaded(s.rows[id])) && s1.rows == s.rows[id := u]
    requires s1.inStack == s.inStack && s.live - {id} <= s1.live
    ensures Stored(s1)
  {
    var row := Loaded(s.rows[id]);
    assert RowInv(s, id);
    Runs.RemoveKeeps(s.book, row);
    forall bot, op, x | x in s1.book.Pool(bot).Stack(op) ensures RestsStored(s1, x) && x.id in s1.live && x.id != id {
      assert x in s.book.Pool(bot).Stack(op);
      RemovedId(s, row, bot, op, x);
      assert RestsStored(s, x);
    }
  }

  /** A row written while its order is in no user stack: it may rest in a stack of the bots. */
  lemma {:induction false} UpdateOutside(s: Site, id: int, d: UpdateData, allowed: bool)
    requires SiteInv(s) && Stored(s) && FlagInv(s) && id in s.rows && Updated(s, id, d, allowed).Some?
    requires !HasId(s.book.user.Stack(s.rows[id].op), id)
    ensures Stored(UpdateSite(s, id, d, allowed)) <==> UpdateStored(s, id, d, allowed)
    ensures FlagInv(UpdateSite(s, id, d, allowed))
  {
    var row, u, s' := Loaded(s.rows[id]), Updated(s, id, d, allowed).value, UpdateSite(s, id, d, allowed);
    assert RowInv(s, id);
    Runs.RemoveKeeps(s.book, row);
    UpdateKeepsExecuted(row, d, allowed);
    AcceptedIff(row, d, allowed);
    ChangesNothingIff(row, d, allowed);
    WithoutContents(s.book.user.Stack(row.op), id);
    assert s'.book == s.book;
    if UpdateStored(s, id, d, allowed) {
      forall bot, op, x | x in s.book.Pool(bot).Stack(op) ensures RestsStored(s', x) {
        assert RestsStored(s, x);
        if x.id == id { RestsHere(s, x, bot, op, row); }
      }
      LessStored(s, s');
    } else {
      var st := s.book.bots.Stack(row.op);
      var i :| 0 <= i < |st| && st[i].id == id;
      assert st[i] in s.book.Pool(true).Stack(row.op);
      assert RestsStored(s, st[i]) && !RestsStored(s', st[i]);
    }
  }

  lemma {:induction false} RowOfRepriced(s: Site, us: seq<OrderData>, bot: bool, op: Operation, x: OrderData)
    requires SiteInv(s) && Stored(s) && x in s.book.Pool(bot).Stack(op)
    requires RowsRepriced(s, us, Repriced(s, us)) && forall u :: u in us ==> RepricedFrom(s, u)
    ensures RestsStored(Repriced(s, us), x) <==> forall u :: u in us && u.id == x.id ==> u.price == s.rows[x.id].price
  {
    var s1 := Repriced(s, us);
    assert RestsStored(s, x);
    assert x.id in s1.rows.Keys;
    if x.id in Ids(us) {
      var u :| u in us && u.id == x.id;
      assert RepricedFrom(s, u) && s1.rows[x.id] == u;
    }
  }

  lemma {:induction false} RepriceRaises(s: Site, cs: seq<Candidate>, current: real)
    requires SiteInv(s) && Stored(s) && Admissible(s, Reprice(cs, current)) && AnyRaises(cs, current)
    ensures Stored(RepriceSite(s, cs, current)) <==> RepriceStored(s, cs, current)
  {
    var us := RepriceAll(cs, current);
    RepriceCandidates(s, cs, current);
    RepricedRows(s, us);
    if RepriceStored(s, cs, current) {
      RepricedStays(s, us);
    } else {
      var u :| u in us && HasId(s.book.user.Stack(u.op), u.id) && !(u.id in s.rows && u.price == s.rows[u.id].price);
      RepricedApart(s, us, u);
    }
  }

  /** Every repriced order that rests has its price still. */
  lemma {:induction false} RepricedStays(s: Site, us: seq<OrderData>)
    requires SiteInv(s) && Stored(s) && RowsRepriced(s, us, Repriced(s, us))
    requires forall u :: u in us ==> RepricedFrom(s, u)
    requires forall u :: u in us && HasId(s.book.user.Stack(u.op), u.id) ==>
               u.id in s.rows && u.price == s.rows[u.id].price
    ensures Stored(Repriced(s, us))
  {
    var s1 := Repriced(s, us);
    forall bot, op, x | x in s1.book.Pool(bot).Stack(op) ensures RestsStored(s1, x) {
      forall u | u in us && u.id == x.id ensures u.price == s.rows[x.id].price {
        UserEntry(s, u, bot, op, x);
      }
      RowOfRepriced(s, us, bot, op, x);
    }
    LessStored(s, s1);
  }

  /** One that rests has another price now. */
  lemma {:induction false} RepricedApart(s: Site, us: seq<OrderData>, u: OrderData)
    requires SiteInv(s) && Stored(s) && RowsRepriced(s, us, Repriced(s, us))
    requires (forall x :: x in us ==> RepricedFrom(s, x)) && u in us && HasId(s.book.user.Stack(u.op), u.id)
    requires !(u.id in s.rows && u.price == s.rows[u.id].price)
    ensures !Stored(Repriced(s, us))
  {
    var st := s.book.user.Stack(u.op);
    var i :| 0 <= i < |st| && st[i].id == u.id;
    assert st[i] in s.book.Pool(false).Stack(u.op);
    RowOfRepriced(s, us, false, u.op, st[i]);
    Unstored(Repriced(s, us), false, u.op, st[i]);
  }

  lemma {:induction false} Unstored(s: Site, bot: bool, op: Operation, x: OrderData)
    requires x in s.book.Pool(bot).Stack(op) && !RestsStored(s, x)
    ensures !Stored(s)
  {
  }

  lemma {:induction false} UserEntry(s: Site, u: OrderData, bot: bool, op: Operation, x: OrderData)
    requires SiteInv(s) && RepricedFrom(s, u) && x in s.book.Pool(bot).Stack(op) && u.id == x.id
    ensures HasId(s.book.user.Stack(u.op), u.id)
  {
    RestsHere(s, x, bot, op, u);
  }

  lemma {:induction false} ReenteredStored(s: Site, us: seq<OrderData>, s2: Site)
    requires SiteInv(s) && Stored(s) && FlagInv(s) && Runs.UniqueOrderIds(us)
    requires (forall u :: u in us ==> RepricedFrom(s, u)) && s2 == RemovedRepriced(s, us)
    ensures Stored(EnterAll(s2, us)) && FlagInv(EnterAll(s2, us))
  {
    RepricedRows(s, us);
    RepricedOut(s, us, Repriced(s, us), s2.live);
    forall bot, op, x | x in s2.book.Pool(bot).Stack(op) ensures RestsStored(s2, x) && x.id in s2.live {
      assert x in s.book.Pool(bot).Stack(op) && x.id !in Ids(us);
      assert RestsStored(s, x);
      assert x.id in s2.rows.Keys;
    }
    forall u | u in us ensures Waiting(s2, u) { assert RepricedFrom(s, u) && u.id in Ids(us); }
    RepricedFlags(s, us);
    EnterAllKeepsStored(s2, us);
  }

  lemma {:induction false} RepricedFlags(s: Site, us: seq<OrderData>)
    requires FlagInv(s) && RowsRepriced(s, us, Repriced(s, us))
    ensures FlagInv(Repriced(s, us)) && FlagInv(RemovedRepriced(s, us))
  {
    var s1 := Repriced(s, us);
    forall id | id in s1.rows && s1.rows[id].kind != StopLimit ensures id in s1.inStack {
      assert id in s.rows.Keys;
    }
  }

  lemma {:induction false} RepriceIff(s: Site, cs: seq<Candidate>, current: real)
    requires SiteInv(s) && Stored(s) && FlagInv(s) && Admissible(s, Reprice(cs, current))
    ensures Stored(RepriceSite(s, cs, current)) <==> RepriceStored(s, cs, current)
    ensures FlagInv(RepriceSite(s, cs, current))
  {
    var us := RepriceAll(cs, current);
    RepriceCandidates(s, cs, current);
    RepricedRows(s, us);
    RepricedFlags(s, us);
    if AnyRaises(cs, current) {
      RepriceRaises(s, cs, current);
    } else {
      ReenteredStored(s, us, RemovedRepriced(s, us));
    }
  }

  lemma {:induction false} CancelKeepsStored(s: Site, id: int)
    requires SiteInv(s) && Stored(s) && id in s.rows
    ensures Stored(CancelSite(s, id))
  {
    var row, s' := s.rows[id], CancelSite(s, id);
    assert RowInv(s, id);
    WithoutContents(s.book.Pool(row.bot).Stack(row.op), row.id);
    forall bot, op, x | x in s'.book.Pool(bot).Stack(op) ensures x in s.book.Pool(bot).Stack(op) && x.id != id {
      assert x in s.book.Pool(bot).Stack(op);
      if x.id == id { RestsHere(s, x, bot, op, row); }
    }
    LessStored(s, s');
  }

  lemma {:induction false} ReloadStores(s: Site, os: seq<OrderData>)
    requires SiteInv(s) && FlagInv(s) && Admissible(s, Reload(os))
    ensures Stored(ReloadSite(s, os)) && FlagInv(ReloadSite(s, os))
  {
    ReloadReady(s, os);
    var s1 := Emptied(s, os);
    assert forall bot, op :: Runs.EMPTY.Pool(bot).Stack(op) == [];
    forall o | o in os ensures Waiting(s1, o) { assert o.id in Ids(os) && RowInv(s, o.id); }
    EnterAllKeepsStored(s1, os);
  }

  lemma {:induction false} TriggerFlags(s: Site, id: int, shown: set<int>, found: seq<OrderData>)
    requires FlagInv(s) && Admissible(s, Trigger(id, shown, found))
    ensures FlagInv(TriggerSite(s, found))
  {
    forall p | p in Placements(found) ensures p.order.kind == StopLimit {
      var i :| 0 <= i < |found| && Placements(found)[i] == p;
      assert found[i] in found;
    }
  }

  /** One event keeps what rests stored and flagged if and only if it is safe. */
  lemma {:induction false} ApplyIff(s: Site, e: Event)
    requires SiteInv(s) && AllStored(s) && FlagInv(s) && Admissible(s, e)
    ensures AllStored(Apply(s, e)) <==> Safe(s, e)
    ensures FlagInv(Apply(s, e))
  {
    if !e.Place? { OthersKeepTogether(s, e); }
    match e
    case Create(o) => CreateKeepsStored(s, o);
    case Place(k) => PlaceIff(s, k);
    case Update(id, d, allowed) => UpdateIff(s, id, d, allowed);
    case Reprice(cs, current) => RepriceIff(s, cs, current);
    case Cancel(id) => CancelKeepsStored(s, id);
    case Trigger(id, shown, found) =>
      TriggerFlags(s, id, shown, found);
      LessStored(s, TriggerSite(s, found));
    case Expire(id) => LessStored(s, s.(placed := s.placed - {id}));
    case Reload(os) => ReloadStores(s, os);
  }

  // ---- Runs ----

  ghost predicate AlwaysStored(s: Site, es: seq<Event>)
    requires AdmissibleRun(s, es)
    decreases |es|
  {
    AllStored(s) && (es != [] ==> AlwaysStored(Apply(s, es[0]), es[1..]))
  }

  ghost predicate AllSafe(s: Site, es: seq<Event>)
    requires AdmissibleRun(s, es)
    decreases |es|
  {
    es != [] ==> Safe(s, es[0]) && AllSafe(Apply(s, es[0]), es[1..])
  }

  lemma {:induction false} RunIff(s: Site, es: seq<Event>)
    requires SiteInv(s) && AllStored(s) && FlagInv(s) && AdmissibleRun(s, es)
    ensures AlwaysStored(s, es) <==> AllSafe(s, es)
    decreases |es|
  {
    if es != [] {
      ApplyIff(s, es[0]);
      ApplyKeeps(s, es[0]);
      if Safe(s, es[0]) {
        RunIff(Apply(s, es[0]), es[1..]);
      }
    }
  }

  /**
   Over every run: what rests is flagged, in memory and in the database, with a row that says
   the same of it, and lists and maps hold the same, at all times, if and only if every
   placement, every update of a bot's order and every bulk reprice that raises passes its check.
   */
  lemma {:induction false} RestingIsStoredIff(es: seq<Event>)
    requires AdmissibleRun(START, es)
    ensures AlwaysStored(START, es) <==> AllSafe(START, es)
  {
    StartInv();
    RunIff(START, es);
  }
}
