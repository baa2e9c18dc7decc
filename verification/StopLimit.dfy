/**
 Stop-limit orders over whole runs of a site. A stop-limit order waits outside the book
 until the task that follows an execution finds its stop passed.
 */
module StopLimit {
  import opened OrderTypes
  import opened StackModel
  import opened Matching
  import opened OrderUpdates
  import opened Sites
  import Runs

  // ---- The stop-limit task ----

  /** Each selected order is queued as its row stood before the flag was set. */
  method StopLimitProcessor(found: seq<OrderData>, queue: seq<Placement>, inStack: set<int>)
    returns (queue': seq<Placement>, inStack': set<int>)
    ensures queue' == queue + Placements(found)
    ensures inStack' == inStack + Ids(found)
  {
    queue', inStack' := queue, inStack;
    for i := 0 to |found|
      invariant queue' == queue + Placements(found)[..i]
      invariant inStack' == inStack + Ids(found[..i])
    {
      queue' := queue' + [Placement(Loaded(found[i]), false)];
      inStack' := inStack' + {found[i].id};
      assert found[..i + 1] == found[..i] + [found[i]];
      assert Placements(found)[..i + 1] == Placements(found)[..i] + [Placement(Loaded(found[i]), false)];
    }
    assert found[..|found|] == found;
  }

  // ---- What is promised of stops ----

  /** Some trade printed at or past the order's stop. */
  ghost predicate Reached(o: OrderData, tape: seq<Trade>) {
    && o.stop.Some?
    && exists i :: 0 <= i < |tape| && PastStop(o, tape[i].price)
  }

  predicate PastStop(o: OrderData, price: int)
    requires o.stop.Some?
  {
    if o.op == Buy then o.stop.value <= price else price <= o.stop.value
  }

  /** Some trade printed at or past the record's price. */
  ghost predicate Backed(r: Record, tape: seq<Trade>) {
    exists i :: 0 <= i < |tape| && if r.op == Sell then r.price <= tape[i].price else tape[i].price <= r.price
  }

  ghost predicate StopOk(o: OrderData, tape: seq<Trade>) {
    o.kind == StopLimit ==> Reached(o, tape)
  }

  /** What trades: both orders had their stops reached before. */
  ghost predicate TradeOk(tape: seq<Trade>, i: nat)
    requires i < |tape|
  {
    StopOk(tape[i].taker, tape[..i]) && StopOk(tape[i].maker, tape[..i])
  }

  /**
   A stop-limit order that rests, is queued for placement or is flagged as in the stack has
   a trade printed at or past its stop, and one that traded had such a trade before its own.
   */
  ghost predicate StopsKept(s: Site) {
    && (forall bot, op, x :: x in s.book.Pool(bot).Stack(op) ==> StopOk(x, s.tape))
    && (forall p :: p in s.queue ==> StopOk(p.order, s.tape))
    && (forall id :: id in s.inStack && id in s.rows ==> StopOk(s.rows[id], s.tape))
    && (forall i :: 0 <= i < |s.tape| ==> TradeOk(s.tape, i))
  }

  /** The record the stop-limit task reads of an order that traded is of a price the market has seen. */
  ghost predicate RecordsBacked(s: Site) {
    forall id :: id in s.traded && id in s.records ==> Backed(s.records[id], s.tape)
  }

  ghost predicate StopsSafe(s: Site) {
    SiteInv(s) && StopsKept(s) && RecordsBacked(s)
  }

  lemma {:induction false} StopStays(o: OrderData, tape: seq<Trade>, more: seq<Trade>)
    requires StopOk(o, tape)
    ensures StopOk(o, tape + more)
  {
    if o.kind == StopLimit {
      var i :| 0 <= i < |tape| && PastStop(o, tape[i].price);
      assert (tape + more)[i] == tape[i];
    }
  }

  lemma {:induction false} BackedStays(r: Record, tape: seq<Trade>, more: seq<Trade>)
    requires Backed(r, tape)
    ensures Backed(r, tape + more)
  {
    var i :| 0 <= i < |tape| && if r.op == Sell then r.price <= tape[i].price else tape[i].price <= r.price;
    assert (tape + more)[i] == tape[i];
  }

  // ---- One order through the book ----

  lemma {:induction false} PartiesOk(s: Site, o: OrderData, ts: seq<Trade>, i: nat)
    requires BookKnown(s) && StopsKept(s) && StopOk(o, s.tape) && TradesFit(s, o, ts) && i < |ts|
    ensures StopOk(ts[i].taker, s.tape) && StopOk(ts[i].maker, s.tape)
  {
    MakerAt(s, o, ts, i);
    assert ts[i].maker in s.book.Pool(o.bot).Stack(o.op.Other());
  }

  lemma {:induction false} TapeOk(s: Site, o: OrderData, ts: seq<Trade>)
    requires BookKnown(s) && StopsKept(s) && StopOk(o, s.tape) && TradesFit(s, o, ts)
    ensures forall i :: 0 <= i < |s.tape + ts| ==> TradeOk(s.tape + ts, i)
  {
    var tape, n := s.tape + ts, |s.tape|;
    forall i | 0 <= i < |tape| ensures TradeOk(tape, i) {
      if i < n {
        assert TradeOk(s.tape, i);
        assert tape[..i] == s.tape[..i] && tape[i] == s.tape[i];
      } else {
        PartiesOk(s, o, ts, i - n);
        assert tape[..i] == s.tape + ts[..i - n] && tape[i] == ts[i - n];
        StopStays(tape[i].taker, s.tape, ts[..i - n]);
        StopStays(tape[i].maker, s.tape, ts[..i - n]);
      }
    }
  }

  lemma {:induction false} RestOk(s: Site, o: OrderData, r: Outcome, bot: bool, op: Operation, x: OrderData)
    requires BookKnown(s) && StopsKept(s) && StopOk(o, s.tape) && TradesFit(s, o, r.trades) && Same(r.order, o)
    requires RestsAfter(s, o, r, bot, op, x)
    ensures StopOk(x, s.tape + r.trades)
  {
    if LeftOver(r.trades, x) {
      var i :| 0 <= i < |r.trades| && x == SettleMaker(r.trades[i].maker, r.trades[i].quantity);
      PartiesOk(s, o, r.trades, i);
    }
    StopStays(x, s.tape, r.trades);
  }

  lemma {:induction false} RowsOk(s: Site, o: OrderData, r: Outcome, s': Site, id: int)
    requires BookKnown(s) && StopsKept(s) && StopOk(o, s.tape) && TradesFit(s, o, r.trades) && Same(r.order, o)
    requires RowsAfter(s, o, r, s') && id in s'.inStack && id in s'.rows
    ensures StopOk(s'.rows[id], s.tape + r.trades)
  {
    assert id in s.rows.Keys;
    if IsMaker(r.trades, id) {
      var i := MakerTrade(s, o, r.trades, id);
      PartiesOk(s, o, r.trades, i);
    }
    StopStays(s'.rows[id], s.tape, r.trades);
  }

  lemma {:induction false} PrintBacks(r: Record, tape: seq<Trade>, i: nat)
    requires i < |tape| && if r.op == Sell then r.price <= tape[i].price else tape[i].price <= r.price
    ensures Backed(r, tape)
  {
  }

  /** The last record of an order that traded: its last trade, or a cancellation at a price that trade respected. */
  lemma {:induction false} LastBacked(s: Site, o: OrderData, r: Outcome)
    requires TradesFit(s, o, r.trades) && r.trades != [] && Same(r.order, o)
    requires r.order.state == Canceled ==> !o.IsMarket()
    ensures Backed(LastRecord(o, r), s.tape + r.trades)
  {
    var i := |r.trades| - 1;
    assert TradeFits(s, o, r.trades[i]);
    assert (s.tape + r.trades)[|s.tape| + i] == r.trades[i];
    PrintBacks(LastRecord(o, r), s.tape + r.trades, |s.tape| + i);
  }

  lemma {:induction false} RecordOk(s: Site, o: OrderData, r: Outcome, s': Site, id: int)
    requires BookKnown(s) && RecordsBacked(s) && TradesFit(s, o, r.trades) && Same(r.order, o)
    requires RecordsAfter(s, o, r, s') && id in s'.traded && id in s'.records
    requires r.order.state == Canceled ==> (r.trades == [] <==> o.IsMarket())
    requires o.IsMarket() ==> o.id !in s.traded
    ensures Backed(s'.records[id], s.tape + r.trades)
  {
    if IsMaker(r.trades, id) {
      MakerRecordOk(s, o, r, s', id);
    } else if id == o.id && r.trades != [] {
      LastBacked(s, o, r);
    } else {
      OldRecordOk(s, o, r, s', id);
    }
  }

  lemma {:induction false} MakerRecordOk(s: Site, o: OrderData, r: Outcome, s': Site, id: int)
    requires BookKnown(s) && TradesFit(s, o, r.trades) && RecordsAfter(s, o, r, s')
    requires IsMaker(r.trades, id) && id in s'.records
    ensures Backed(s'.records[id], s.tape + r.trades)
  {
    var i := MakerTrade(s, o, r.trades, id);
    assert (s.tape + r.trades)[|s.tape| + i] == r.trades[i];
    PrintBacks(s'.records[id], s.tape + r.trades, |s.tape| + i);
  }

  lemma {:induction false} OldRecordOk(s: Site, o: OrderData, r: Outcome, s': Site, id: int)
    requires RecordsBacked(s) && RecordsAfter(s, o, r, s') && id in s'.traded && id in s'.records
    requires !IsMaker(r.trades, id) && (id == o.id ==> r.trades == [])
    requires r.order.state == Canceled ==> (r.trades == [] <==> o.IsMarket())
    requires o.IsMarket() ==> o.id !in s.traded
    ensures Backed(s'.records[id], s.tape + r.trades)
  {
    BackedStays(s.records[id], s.tape, r.trades);
  }

  lemma {:induction false} WrittenStops(s: Site, o: OrderData, s': Site)
    requires StopsKept(s) && RecordsBacked(s) && StopOk(o, s.tape)
    requires Inv(s, Busy(o)) && Ready(s, o) && Incoming(s.book.Pool(o.bot), o)
    requires o.IsMarket() ==> o.id !in s.traded
    requires Written(s, o, Matching.Process(s.book.Pool(o.bot), o), s')
    ensures StopsKept(s') && RecordsBacked(s')
  {
    var r := Matching.Process(s.book.Pool(o.bot), o);
    OrderFits(s, o);
    OrderEnds(s.book.Pool(o.bot), o);
    TapeOk(s, o, r.trades);
    forall bot, op, x | x in s'.book.Pool(bot).Stack(op) ensures StopOk(x, s'.tape) {
      ProcessRests(s, o, bot, op, x);
      RestOk(s, o, r, bot, op, x);
    }
    forall p | p in s'.queue ensures StopOk(p.order, s'.tape) { StopStays(p.order, s.tape, r.trades); }
    forall id | id in s'.inStack && id in s'.rows ensures StopOk(s'.rows[id], s'.tape) { RowsOk(s, o, r, s', id); }
    forall id | id in s'.traded && id in s'.records ensures Backed(s'.records[id], s'.tape) {
      RecordOk(s, o, r, s', id);
    }
  }

  lemma {:induction false} ProcessKeepsStops(s: Site, o: OrderData)
    requires StopsKept(s) && RecordsBacked(s) && StopOk(o, s.tape) && Inv(s, Busy(o)) && Ready(s, o)
    requires o.IsMarket() ==> o.id !in s.traded
    ensures StopsSafe(EnterBook(s, o))
  {
    ProcessKeeps(s, o);
    if o.state == Opened && !HasId(s.book.Pool(o.bot).Stack(o.op.Other()), o.id) {
      PoolAllLeft(s.book.Pool(o.bot), o);
      ProcessWrites(s, o);
      WrittenStops(s, o, EnterBook(s, o));
    } else {
      IdleProcess(s, o);
    }
  }

  lemma {:induction false} ProcessAllKeepsStops(s: Site, os: seq<OrderData>)
    requires StopsSafe(s) && Runs.UniqueOrderIds(os)
    requires forall o :: o in os ==> Fresh(s, o) && !o.IsMarket() && StopOk(o, s.tape)
    ensures StopsSafe(EnterAll(s, os))
    decreases |os|
  {
    if os != [] {
      assert os[0] in os;
      ProcessKeepsStops(s, os[0]);
      ProcessKeeps(s, os[0]);
      FreshStays(s, os);
      forall o | o in os[1..] ensures StopOk(o, EnterBook(s, os[0]).tape) {
        assert o in os;
        StopStays(o, s.tape, Runs.BookProcess(s.book, os[0]).trades);
      }
      ProcessAllKeepsStops(EnterBook(s, os[0]), os[1..]);
    }
  }

  // ---- What the callers have to check ----

  /**
   Before an update that is accepted, of an order that is flagged or rests: the market has
   printed at or past the stop asked for.
   */
  ghost predicate UpdateChecked(s: Site, id: int, d: UpdateData, allowed: bool)
    requires id in s.rows
  {
    var row := Loaded(s.rows[id]);
    Acceptable(row, d, allowed) && (id in s.inStack || HasId(s.book.user.Stack(row.op), id)) ==>
      StopOk(row.(stop := NewStop(row, d)), s.tape)
  }

  /** What the updated order waits for is what was asked. */
  lemma {:induction false} UpdateAsks(s: Site, id: int, d: UpdateData, allowed: bool)
    requires id in s.rows
    ensures var row := Loaded(s.rows[id]);
            var u := Updated(s, id, d, allowed);
            && (u.Some? <==> Acceptable(row, d, allowed))
            && (u.Some? ==> (StopOk(u.value, s.tape) <==> StopOk(row.(stop := NewStop(row, d)), s.tape)))
  {
    var row := Loaded(s.rows[id]);
    AcceptedIff(row, d, allowed);
    var u, asked := Updated(s, id, d, allowed), row.(stop := NewStop(row, d));
    if u.Some? {
      assert u.value.stop == asked.stop && u.value.kind == asked.kind && u.value.op == asked.op;
      assert Reached(u.value, s.tape) <==> Reached(asked, s.tape) by { SameStopReached(u.value, asked, s.tape); }
    }
  }

  lemma {:induction false} SameStopReached(a: OrderData, b: OrderData, tape: seq<Trade>)
    requires a.stop == b.stop && a.op == b.op
    ensures Reached(a, tape) <==> Reached(b, tape)
  {
    if a.stop.Some? {
      forall i | 0 <= i < |tape| ensures PastStop(a, tape[i].price) <==> PastStop(b, tape[i].price) {}
    }
  }

  /** Before the cancellation of an open order that has traded: the market has printed at or past its price. */
  ghost predicate CancelChecked(s: Site, id: int)
    requires id in s.rows
  {
    id in s.traded && s.rows[id].state == Opened ==> Backed(Record(s.rows[id].op, s.rows[id].price), s.tape)
  }

  ghost predicate Checked(s: Site, e: Event)
    requires Admissible(s, e)
  {
    match e
    case Update(id, d, allowed) => UpdateChecked(s, id, d, allowed)
    case Cancel(id) => CancelChecked(s, id)
    case _ => true
  }

  // ---- Every event ----

  /** With the tape and the records as they were, and nothing new that has a stop not reached. */
  lemma {:induction false} SameStops(s: Site, s': Site)
    requires StopsKept(s) && RecordsBacked(s) && s'.tape == s.tape
    requires forall bot, op, x :: x in s'.book.Pool(bot).Stack(op) ==> x in s.book.Pool(bot).Stack(op)
    requires forall p :: p in s'.queue ==> p in s.queue || StopOk(p.order, s.tape)
    requires forall id :: id in s'.inStack && id in s'.rows ==>
               (id in s.inStack && id in s.rows && s'.rows[id] == s.rows[id]) || StopOk(s'.rows[id], s.tape)
    requires s'.traded == s.traded && s'.records == s.records
    ensures StopsKept(s') && RecordsBacked(s')
  {
  }

  lemma {:induction false} CreateKeepsStops(s: Site, o: OrderData)
    requires StopsSafe(s) && Admissible(s, Create(o))
    ensures StopsSafe(CreateSite(s, o))
  {
    CreateKeeps(s, o);
    var s1 := s.(rows := s.rows[o.id := o]);
    if o.kind == StopLimit {
      SameStops(s, s1);
    } else {
      var s2 := s1.(inStack := s1.inStack + {o.id});
      SameStops(s, s2);
      if o.IsMarket() {
        var s3 := s2.(live := s.live + {o.id});
        PutKeeps(s, o, s3);
        SameStops(s, s3);
        FreshId(s, o);
        PoolAllLeft(s.book.Pool(o.bot), o);
        assert RecordInv(s, o.id);
        ProcessKeepsStops(s3, o);
      } else {
        SameStops(s2, CreateSite(s, o));
      }
    }
  }

  lemma {:induction false} PlaceKeepsStops(s: Site, k: nat)
    requires StopsSafe(s) && k < |s.queue|
    ensures StopsSafe(PlaceSite(s, k))
  {
    var p := s.queue[k];
    assert p in s.queue;
    PlaceKeeps(s, k);
    var s1 := s.(queue := s.queue[..k] + s.queue[k + 1..]);
    SameStops(s, s1);
    if p.order.id !in s.placed {
      var s2 := s1.(placed := s.placed + {p.order.id});
      LessKeeps(s, s2);
      SameStops(s, s2);
      ArriveKeepsStops(s2, p);
    }
  }

  lemma {:induction false} ArriveKeepsStops(s: Site, p: Placement)
    requires StopsSafe(s) && Ready(s, p.order) && !p.order.IsMarket() && StopOk(p.order, s.tape)
    ensures StopsSafe(Arrive(s, p))
  {
    var s1 := Flagged(s, p);
    LessKeeps(s, s1);
    SameStops(s, s1);
    ProcessKeepsStops(s1, p.order);
    LessKeeps(EnterBook(s1, p.order), Arrive(s, p));
    SameStops(EnterBook(s1, p.order), Arrive(s, p));
  }

  lemma {:induction false} UpdateKeepsStops(s: Site, id: int, d: UpdateData, allowed: bool)
    requires StopsSafe(s) && id in s.rows && UpdateChecked(s, id, d, allowed)
    ensures StopsSafe(UpdateSite(s, id, d, allowed))
  {
    UpdateKeeps(s, id, d, allowed);
    UpdateAsks(s, id, d, allowed);
    Runs.RemoveKeeps(s.book, Loaded(s.rows[id]));
    var u := Updated(s, id, d, allowed);
    if u.Some? && HasId(s.book.user.Stack(s.rows[id].op), id) {
      var s1 := UpdateReady(s, id, d, allowed);
      SameStops(s, s1);
      ProcessKeepsStops(s1, u.value);
    } else {
      RowUpdateStops(s, id, d, allowed);
    }
  }

  lemma {:induction false} RowUpdateStops(s: Site, id: int, d: UpdateData, allowed: bool)
    requires StopsSafe(s) && id in s.rows && UpdateChecked(s, id, d, allowed)
    requires Updated(s, id, d, allowed).None? || !HasId(s.book.user.Stack(s.rows[id].op), id)
    ensures StopsKept(UpdateSite(s, id, d, allowed)) && RecordsBacked(UpdateSite(s, id, d, allowed))
  {
    assert RowInv(s, id);
    UpdateAsks(s, id, d, allowed);
    Runs.RemoveKeeps(s.book, Loaded(s.rows[id]));
    if Updated(s, id, d, allowed).Some? {
      UpdateKeepsExecuted(Loaded(s.rows[id]), d, allowed);
    }
    SameStops(s, UpdateSite(s, id, d, allowed));
  }

  lemma {:induction false} RepriceKeepsStops(s: Site, cs: seq<Candidate>, current: real)
    requires StopsSafe(s) && Admissible(s, Reprice(cs, current))
    ensures StopsSafe(RepriceSite(s, cs, current))
  {
    var us := RepriceAll(cs, current);
    RepriceCandidates(s, cs, current);
    RepricedKeeps(s, us);
    var s1 := Repriced(s, us);
    forall id | id in s1.inStack && id in s1.rows
      ensures (id in s.inStack && id in s.rows && s1.rows[id] == s.rows[id]) || StopOk(s1.rows[id], s.tape)
    {
      if id in Ids(us) {
        var u :| u in us && u.id == id;
        assert RepricedFrom(s, u) && s1.rows[u.id] == u;
      }
    }
    SameStops(s, s1);
    if !AnyRaises(cs, current) {
      RepricedRows(s, us);
      var s2 := RemovedRepriced(s, us);
      RepricedOut(s, us, s1, s2.live);
      SameStops(s1, s2);
      forall u | u in us ensures StopOk(u, s2.tape) { assert RepricedFrom(s, u); }
      ProcessAllKeepsStops(s2, us);
    }
  }

  lemma {:induction false} CancelKeepsStops(s: Site, id: int)
    requires StopsSafe(s) && id in s.rows && CancelChecked(s, id)
    ensures StopsSafe(CancelSite(s, id))
  {
    var row := s.rows[id];
    CancelKeeps(s, id);
    assert RowInv(s, id);
    WithoutContents(s.book.Pool(row.bot).Stack(row.op), row.id);
    var s1 := s.(book := Runs.BookCancel(s.book, row), rows := s.rows[id := row.Cancel()]);
    SameStops(s, s1);
  }

  lemma {:induction false} TriggerKeepsStops(s: Site, id: int, shown: set<int>, found: seq<OrderData>)
    requires StopsSafe(s) && Admissible(s, Trigger(id, shown, found))
    ensures StopsSafe(TriggerSite(s, found))
  {
    TriggerKeeps(s, id, shown, found);
    forall o | o in found ensures StopOk(o, s.tape) { BackedReaches(o, s.records[id], s.tape); }
    forall p | p in Placements(found) ensures StopOk(p.order, s.tape) {
      var i :| 0 <= i < |found| && Placements(found)[i] == p;
      assert found[i] in found;
    }
    SameStops(s, TriggerSite(s, found));
  }

  /**
   The stop-limit task, off the last record of an order: of the rows that are not shown it takes
   exactly the open stop-limit orders of the other side with something left whose stop is at or
   past the record's price. Each is queued as its row stands and flagged, and nothing else is done.
   */
  lemma {:induction false} SelectsPassedStops(s: Site, id: int, shown: set<int>, found: seq<OrderData>, o: OrderData)
    requires Admissible(s, Trigger(id, shown, found)) && o.id in s.rows && s.rows[o.id] == o && o.id !in shown
    ensures o in found <==>
              && o.kind == StopLimit && o.state == Opened && o.left > 0 && o.stop.Some?
              && if s.records[id].op == Sell then o.op == Buy && o.stop.value <= s.records[id].price
                 else o.op == Sell && s.records[id].price <= o.stop.value
    ensures var s' := Apply(s, Trigger(id, shown, found));
            && (o in found ==> Placement(o.(otcUpdated := false), false) in s'.queue && o.id in s'.inStack)
            && (o.id in s'.inStack ==> o in found || o.id in s.inStack)
            && s' == s.(inStack := s'.inStack, queue := s'.queue) && |s'.queue| == |s.queue| + |found|
  {
    if o in found {
      var i :| 0 <= i < |found| && found[i] == o;
      assert Placements(found)[i] in Placements(found);
    }
  }

  /** After a trade the stops it passed on either side are found off the record of one of its orders. */
  lemma {:induction false} TradeIsRecorded(s: Site, t: Trade, o: OrderData)
    requires t.taker.id != t.maker.id && t.taker.op == t.maker.op.Other()
    requires o.kind == StopLimit && o.state == Opened && o.left > 0 && o.stop.Some? && PastStop(o, t.price)
    ensures var s', id := SaveTrade(s, t), if t.taker.op == o.op then t.maker.id else t.taker.id;
            && id in s'.traded && id in s'.records && s'.records[id].price == t.price && Triggered(o, s'.records[id])
            && s'.tape == s.tape + [t]
  {
  }

  /** What is selected off a backed record has its stop reached. */
  lemma {:induction false} BackedReaches(o: OrderData, r: Record, tape: seq<Trade>)
    requires Triggered(o, r) && Backed(r, tape)
    ensures Reached(o, tape)
  {
    var i :| 0 <= i < |tape| && if r.op == Sell then r.price <= tape[i].price else tape[i].price <= r.price;
    assert PastStop(o, tape[i].price);
  }

  lemma {:induction false} ReloadKeepsStops(s: Site, os: seq<OrderData>)
    requires StopsSafe(s) && Admissible(s, Reload(os))
    ensures StopsSafe(ReloadSite(s, os))
  {
    ReloadReady(s, os);
    var s1 := Emptied(s, os);
    SameStops(s, s1);
    forall o | o in os ensures StopOk(o, s1.tape) { assert o == Loaded(s.rows[o.id]); }
    ProcessAllKeepsStops(s1, os);
  }

  lemma {:induction false} ApplyKeepsStops(s: Site, e: Event)
    requires StopsSafe(s) && Admissible(s, e) && Checked(s, e)
    ensures StopsSafe(Apply(s, e))
  {
    match e
    case Create(o) => CreateKeepsStops(s, o);
    case Place(k) => PlaceKeepsStops(s, k);
    case Update(id, d, allowed) => UpdateKeepsStops(s, id, d, allowed);
    case Reprice(cs, current) => RepriceKeepsStops(s, cs, current);
    case Cancel(id) => CancelKeepsStops(s, id);
    case Trigger(id, shown, found) => TriggerKeepsStops(s, id, shown, found);
    case Expire(id) =>
      ApplyKeeps(s, e);
      SameStops(s, s.(placed := s.placed - {id}));
    case Reload(os) => ReloadKeepsStops(s, os);
  }

  // ---- Runs ----

  ghost predicate CheckedRun(s: Site, es: seq<Event>)
    decreases |es|
  {
    es == [] || (Admissible(s, es[0]) && Checked(s, es[0]) && CheckedRun(Apply(s, es[0]), es[1..]))
  }

  ghost function RunChecked(s: Site, es: seq<Event>): Site
    requires CheckedRun(s, es)
    decreases |es|
  {
    if es == [] then s else RunChecked(Apply(s, es[0]), es[1..])
  }

  lemma {:induction false} RunKeepsStops(s: Site, es: seq<Event>)
    requires StopsSafe(s) && CheckedRun(s, es)
    ensures StopsSafe(RunChecked(s, es))
    decreases |es|
  {
    if es != [] {
      ApplyKeepsStops(s, es[0]);
      RunKeepsStops(Apply(s, es[0]), es[1..]);
    }
  }

  /**
   In every run whose updates and cancellations are checked, across creation, update,
   reprice, trigger and reload, stops are kept: no stop-limit order rests, is queued,
   flagged or matched before a trade has printed at or past its stop.
   */
  lemma {:induction false} StopsAreReached(es: seq<Event>)
    requires CheckedRun(START, es)
    ensures StopsKept(RunChecked(START, es))
  {
    StartInv();
    RunKeepsStops(START, es);
  }

  // ---- The checks are exact ----

  /** An order with a stop not reached breaks the promise in the book, whether it trades or rests. */
  lemma {:induction false} UnreachedBreaks(s: Site, o: OrderData)
    requires SiteInv(s) && Fresh(s, o) && o.state == Opened && !o.IsMarket() && !StopOk(o, s.tape)
    requires !HasId(s.book.Pool(o.bot).Stack(o.op.Other()), o.id)
    ensures !StopsKept(EnterBook(s, o))
  {
    var p := s.book.Pool(o.bot);
    var r, s' := Matching.Process(p, o), EnterBook(s, o);
    PoolAllLeft(p, o);
    if r.trades == [] {
      NoTradeRests(s, o);
    } else {
      ProcessWrites(s, o);
      OrderFits(s, o);
      var i := |s.tape|;
      assert TradeFits(s, o, r.trades[0]);
      assert s'.tape[i] == r.trades[0] && s'.tape[..i] == s.tape;
      assert !TradeOk(s'.tape, i);
    }
  }

  /**
   An update keeps the promise, for every order that rests, is queued or is flagged, if and
   only if it is refused, concerns an order that neither rests nor is flagged, or asks for a
   stop the market has printed at or past.
   */
  lemma {:induction false} UpdateIsSafeIff(s: Site, id: int, d: UpdateData, allowed: bool)
    requires StopsSafe(s) && Admissible(s, Update(id, d, allowed))
    ensures StopsKept(UpdateSite(s, id, d, allowed)) <==> UpdateChecked(s, id, d, allowed)
  {
    UpdateAsks(s, id, d, allowed);
    if UpdateChecked(s, id, d, allowed) {
      UpdateKeepsStops(s, id, d, allowed);
    } else {
      var u := Updated(s, id, d, allowed).value;
      if HasId(s.book.user.Stack(s.rows[id].op), id) {
        var s1 := UpdateReady(s, id, d, allowed);
        OtherSideLacks(s1, u);
        UnreachedBreaks(s1, u);
      } else {
        UpdateKeepsExecuted(Loaded(s.rows[id]), d, allowed) by { assert RowInv(s, id); }
        assert !StopOk(UpdateSite(s, id, d, allowed).rows[id], s.tape);
      }
    }
  }

  /**
   Off a record, only orders with a print past their stop since a given moment are selected,
   whatever they wait for, if and only if the market has printed at or past the record's price
   since then. For an order created later than the record that need not be so.
   */
  lemma {:induction false} SelectionIsFreshIff(r: Record, tape: seq<Trade>, since: nat)
    requires since <= |tape|
    ensures (forall o :: Triggered(o, r) ==> Reached(o, tape[since..])) <==> Backed(r, tape[since..])
  {
    var later := tape[since..];
    if Backed(r, later) {
      forall o | Triggered(o, r) ensures Reached(o, later) { BackedReaches(o, r, later); }
    } else {
      var o := OrderData(0, r.op.Other(), StopLimit, false, Opened, 1, 1, 1, None, Some(r.price), None, None, false);
      assert Triggered(o, r);
      if i :| 0 <= i < |later| && PastStop(o, later[i].price) {
        assert Backed(r, later);
      }
    }
  }

  /** A number no row has. */
  lemma {:induction false} UnusedId(keys: set<int>) returns (n: int)
    ensures forall k :: k in keys ==> k < n
    decreases |keys|
  {
    n := 0;
    if k :| k in keys {
      var m := UnusedId(keys - {k});
      n := if k < m then m else k + 1;
      forall x | x in keys ensures x < n {
        assert x == k || x in keys - {k};
      }
    }
  }

  /** The rows with these ids, listed. */
  lemma {:induction false} ListRows(s: Site, ids: set<int>) returns (found: seq<OrderData>)
    requires ids <= s.rows.Keys && forall id :: id in ids ==> s.rows[id].id == id
    ensures forall o :: o in found <==> o.id in ids && s.rows[o.id] == o
    ensures forall i, j :: 0 <= i < j < |found| ==> found[i].id != found[j].id
    decreases |ids|
  {
    found := [];
    if id :| id in ids {
      found := ListRows(s, ids - {id});
      forall i | 0 <= i < |found| ensures found[i].id != id { assert found[i] in found; }
      found := found + [s.rows[id]];
    }
  }

  /** A stop-limit order that waits for exactly the price of a record that was never printed. */
  lemma {:induction false} UnbackedMisfires(s: Site, id: int) returns (es: seq<Event>)
    requires SiteInv(s) && s.apart == {} && id in s.traded && id in s.records && !Backed(s.records[id], s.tape)
    ensures CheckedRun(s, es) && !StopsKept(RunChecked(s, es))
  {
    var r := s.records[id];
    var n := UnusedId(s.rows.Keys);
    var o := OrderData(n, r.op.Other(), StopLimit, false, Opened, 1, 1, 1, None, Some(r.price), None, None, false);
    var s1 := CreateSite(s, o);
    CreateKeeps(s, o);
    var ids := set i | i in s1.rows && Triggered(s1.rows[i], r);
    forall i | i in ids ensures s1.rows[i].id == i { assert RowInv(s1, i); }
    var found := ListRows(s1, ids);
    TriggerListed(s1, id, ids, found);
    var s2 := TriggerSite(s1, found);
    assert Triggered(o, r) && o in found;
    assert o.id in Ids(found);
    assert !StopOk(s2.rows[n], s2.tape) by {
      if Reached(o, s.tape) {
        var i :| 0 <= i < |s.tape| && PastStop(o, s.tape[i].price);
        assert Backed(r, s.tape);
      }
    }
    es := [Create(o), Trigger(id, {}, found)];
    assert es[1..] == [Trigger(id, {}, found)] && es[1..][1..] == [];
    assert CheckedRun(s2, []) && RunChecked(s2, []) == s2;
    assert CheckedRun(s1, es[1..]) && RunChecked(s1, es[1..]) == s2;
  }

  lemma {:induction false} TriggerListed(s: Site, id: int, ids: set<int>, found: seq<OrderData>)
    requires SiteInv(s) && s.apart == {} && id in s.traded && id in s.records
    requires ids <= s.rows.Keys && ids == set i | i in s.rows && Triggered(s.rows[i], s.records[id])
    requires forall o :: o in found <==> o.id in ids && s.rows[o.id] == o
    requires forall i, j :: 0 <= i < j < |found| ==> found[i].id != found[j].id
    ensures Admissible(s, Trigger(id, {}, found))
  {
  }

  /**
   A cancellation is safe, whatever checked events follow, if and only if the order has not
   traded, is not open any more, or the market has printed at or past its price as it stands.
   */
  lemma {:induction false} CancelIsSafeIff(s: Site, id: int)
    requires StopsSafe(s) && Admissible(s, Cancel(id))
    ensures (forall es :: CheckedRun(CancelSite(s, id), es) ==> StopsKept(RunChecked(CancelSite(s, id), es)))
            <==> CancelChecked(s, id)
  {
    var s1 := CancelSite(s, id);
    if CancelChecked(s, id) {
      CancelKeepsStops(s, id);
      forall es | CheckedRun(s1, es) ensures StopsKept(RunChecked(s1, es)) { RunKeepsStops(s1, es); }
    } else {
      CancelKeeps(s, id);
      var es := UnbackedMisfires(s1, id);
    }
  }

  /** An order whose price did not move past its price at one of its trades needs no check: the trade respected it. */
  lemma {:induction false} UnmovedPriceIsBacked(s: Site, id: int, i: nat)
    requires SiteInv(s) && id in s.rows && i < |s.tape|
    requires var t := s.tape[i];
             var row := s.rows[id];
             exists x :: (x == t.taker || x == t.maker) && x.id == id && !x.IsMarket()
               && if row.op == Sell then row.price <= x.price else x.price <= row.price
    ensures CancelChecked(s, id)
  {
    var t := s.tape[i];
    assert t in s.tape && TradeInv(s, t);
  }
}
