/**
 One pair as database, messages and memory together see it: the rows of its orders, the
 records of executions, the placements on their way, and the book. Every event of the
 stack processor and of the stop-limit task, and what all of them keep.
 */
module Sites {
  import opened OrderTypes
  import opened StackModel
  import opened Matching
  import opened OrderUpdates
  import Runs

  /** The newest execution record of an order: a trade's price, or at a cancellation the order's own. */
  datatype Record = Record(op: Operation, price: int)

  datatype Placement = Placement(order: OrderData, inStack: bool)

  /**
   What the rows said of the two orders of a trade: their limits, where the updater has
   priced them, and whether both were open.
   */
  datatype Caps = Caps(taker: Option<int>, maker: Option<int>, open: bool)

  datatype Site = Site(
    rows: map<int, OrderData>,
    inStack: set<int>,           // rows flagged as in the stack
    live: set<int>,              // orders whose object in memory carries that flag
    records: map<int, Record>,   // the last record of each order
    traded: set<int>,            // orders followed by a stop-limit task
    tape: seq<Trade>,            // all trades, oldest first
    queue: seq<Placement>,       // placements on their way
    book: Runs.Book,
    limited: set<int>,           // orders priced by the updater, and not moved past their limit since
    caps: seq<Caps>,             // one for each trade of the tape
    placed: set<int>,            // orders whose placement key is set in the cache
    apart: set<int>)             // ids that the list and the id map of a stack hold at different prices

  function Ids(os: seq<OrderData>): set<int> {
    set o | o in os :: o.id
  }

  function Placements(os: seq<OrderData>): (ps: seq<Placement>)
    ensures |ps| == |os| && forall i :: 0 <= i < |os| ==> ps[i] == Placement(Loaded(os[i]), false)
  {
    seq(|os|, i requires 0 <= i < |os| => Placement(Loaded(os[i]), false))
  }

  /** What the query of the stop-limit task asks of a row: the opposite side, and the stop passed. */
  predicate Triggered(o: OrderData, r: Record) {
    && o.kind == StopLimit && o.state == Opened && o.left > 0 && o.op == r.op.Other() && o.stop.Some?
    && if o.op == Buy then o.stop.value <= r.price else r.price <= o.stop.value
  }

  // ---- One order through the book, with what it leaves in the database ----

  /** An object writes all its fields, the flag among them. */
  function Save(s: Site, o: OrderData): Site {
    s.(rows := s.rows[o.id := o], inStack := if o.id in s.live then s.inStack + {o.id} else s.inStack - {o.id})
  }

  function CapOf(s: Site, id: int): Option<int> {
    if id in s.limited && id in s.rows then s.rows[id].otcLimit else None
  }

  predicate RowOpen(s: Site, id: int) {
    id in s.rows && s.rows[id].state == Opened
  }

  function SaveTrade(s: Site, t: Trade): Site {
    var taker, maker := t.taker.Settle(t.quantity), SettleMaker(t.maker, t.quantity);
    Save(Save(s, taker), maker).(
      records := s.records[taker.id := Record(taker.op, t.price)][maker.id := Record(maker.op, t.price)],
      traded := s.traded + {taker.id, maker.id},
      tape := s.tape + [t],
      caps := s.caps + [Caps(CapOf(s, taker.id), CapOf(s, maker.id), RowOpen(s, taker.id) && RowOpen(s, maker.id))])
  }

  function SaveTrades(s: Site, ts: seq<Trade>): Site
    decreases |ts|
  {
    if ts == [] then s else SaveTrades(SaveTrade(s, ts[0]), ts[1..])
  }

  /** Whether processing wrote the order's own row. */
  predicate Touched(o: OrderData, r: Outcome) {
    r.trades != [] || (r.order.state == Canceled && o.state == Opened)
  }

  /** What the order itself leaves last: its row, and the record of a cancellation. */
  function Finish(s: Site, o: OrderData, r: Outcome): Site {
    if !Touched(o, r) then s
    else
      var s1 := Save(s, r.order);
      if r.order.state == Canceled then s1.(records := s1.records[o.id := Record(o.op, o.price)]) else s1
  }

  function EnterBook(s: Site, o: OrderData): Site {
    var r := Matching.Process(s.book.Pool(o.bot), o);
    Finish(SaveTrades(s.(book := s.book.With(o.bot, r.pool)), r.trades), o, r)
  }

  function EnterAll(s: Site, os: seq<OrderData>): Site
    decreases |os|
  {
    if os == [] then s else EnterAll(EnterBook(s, os[0]), os[1..])
  }

  // ---- Events ----

  datatype Event =
    | Create(order: OrderData)
    | Place(k: nat)
    | Update(id: int, data: UpdateData, allowed: bool)
    | Reprice(candidates: seq<Candidate>, current: real)
    | Cancel(id: int)
    | Trigger(id: int, shown: set<int>, found: seq<OrderData>)
    | Expire(id: int)           // the placement key of an order lapses
    | Reload(orders: seq<OrderData>)

  /** Once list and map of a stack are apart, only a restart goes on from there. */
  ghost predicate Admissible(s: Site, e: Event) {
    (s.apart == {} || e.Reload?) && Possible(s, e)
  }

  ghost predicate Possible(s: Site, e: Event) {
    match e
    case Create(o) => Runs.FromStore(o) && o.state == Opened && o.left == o.quantity && o.id !in s.rows
    case Place(k) => k < |s.queue|
    case Update(id, _, _) => id in s.rows
    case Reprice(cs, _) =>
      && (forall i, j :: 0 <= i < j < |cs| ==> cs[i].order.id != cs[j].order.id)
      && (forall c :: c in cs ==>
           && c.order.id in s.rows && c.order == Loaded(s.rows[c.order.id])
           && c.order.kind == External && c.order.state == Opened && !c.order.bot)
    case Cancel(id) => id in s.rows
    case Trigger(id, shown, found) =>
      && id in s.traded && id in s.records
      && (forall i, j :: 0 <= i < j < |found| ==> found[i].id != found[j].id)
      && (forall o :: o in found <==>
           o.id in s.rows && s.rows[o.id] == o && o.id !in shown && Triggered(o, s.records[id]))
    case Expire(_) => true
    case Reload(os) =>
      && Runs.UniqueOrderIds(os)
      && (forall o :: o in os ==> o.id in s.rows && o == Loaded(s.rows[o.id]) && ToLoad(s, o.id))
      && (forall id :: id in s.rows && ToLoad(s, id) ==> Loaded(s.rows[id]) in os)
  }

  /** What a restart asks of a row: open, flagged, with something left. */
  predicate ToLoad(s: Site, id: int)
    requires id in s.rows
  {
    id in s.inStack && s.rows[id].state == Opened && s.rows[id].left > 0
  }

  function CreateSite(s: Site, o: OrderData): Site {
    var s1 := s.(rows := s.rows[o.id := o]);
    if o.kind == StopLimit then s1
    else
      var s2 := s1.(inStack := s1.inStack + {o.id});
      if o.IsMarket() then EnterBook(s2.(live := s.live + {o.id}), o)
      else s2.(queue := s.queue + [Placement(o, true)])
  }

  /** A message is dropped while the order's key is set, which only an earlier message does. */
  function PlaceSite(s: Site, k: nat): Site
    requires k < |s.queue|
  {
    var p := s.queue[k];
    var s1 := s.(queue := s.queue[..k] + s.queue[k + 1..]);
    if p.order.id in s.placed then s1 else Arrive(s1.(placed := s.placed + {p.order.id}), p)
  }

  /**
   The message's own object goes through the book. When a restart or the updater has brought
   the order in before, the list keeps its entry, and with it the flag of that object.
   */
  function Arrive(s: Site, p: Placement): Site {
    var o := p.order;
    var s' := EnterBook(Flagged(s, p), o);
    if HasId(s.book.Pool(o.bot).Stack(o.op), o.id) then
      s'.(live := s.live, apart := if TakesApart(s.book.Pool(o.bot), o) then s.apart + {o.id} else s.apart)
    else s'
  }

  function Flagged(s: Site, p: Placement): Site {
    s.(live := if p.inStack then s.live + {p.order.id} else s.live - {p.order.id})
  }

  /** The order as its update would leave it. */
  function Updated(s: Site, id: int, d: UpdateData, allowed: bool): Option<OrderData>
    requires id in s.rows
  {
    UpdateOrder(Loaded(s.rows[id]), d, allowed)
  }

  /** The new row, and whether the order still counts as priced within its limit. */
  function WriteUpdate(s: Site, u: OrderData): Site {
    s.(rows := s.rows[u.id := u], limited := if u.WithinOtcLimit() then s.limited else s.limited - {u.id})
  }

  function UpdateSite(s: Site, id: int, d: UpdateData, allowed: bool): Site
    requires id in s.rows
  {
    var row := Loaded(s.rows[id]);
    var u := Updated(s, id, d, allowed);
    var out := s.(book := Runs.RemoveFromStack(s.book, row));
    if u.None? then out
    else
      var saved := WriteUpdate(out, u.value);
      if HasId(s.book.user.Stack(row.op), id) then
        EnterBook(saved.(live := if id in s.inStack then s.live + {id} else s.live - {id}), u.value)
      else saved
  }

  function SaveRows(rows: map<int, OrderData>, us: seq<OrderData>): map<int, OrderData>
    decreases |us|
  {
    if us == [] then rows else SaveRows(rows[us[0].id := us[0]], us[1..])
  }

  /** The rows the updater wrote, before any stack is touched. */
  function Repriced(s: Site, us: seq<OrderData>): Site {
    s.(rows := SaveRows(s.rows, us), limited := s.limited + Ids(us))
  }

  /** When the updater raises, the rows it has written stay, and no stack is touched. */
  function RepriceSite(s: Site, cs: seq<Candidate>, current: real): Site {
    var us := RepriceAll(cs, current);
    var s1 := Repriced(s, us);
    if AnyRaises(cs, current) then s1 else EnterAll(RemovedRepriced(s, us), us)
  }

  /** Out of their stacks, to come back as objects that were read with the flags of their rows. */
  function RemovedRepriced(s: Site, us: seq<OrderData>): Site {
    Repriced(s, us).(book := Runs.RemoveAll(s.book, us), live := s.live - Ids(us) + Ids(us) * s.inStack)
  }

  function CancelSite(s: Site, id: int): Site
    requires id in s.rows
  {
    var row := s.rows[id];
    s.(book := Runs.BookCancel(s.book, row),
       rows := s.rows[id := row.Cancel()],
       records := if row.state == Opened then s.records[id := Record(row.op, row.price)] else s.records)
  }

  function TriggerSite(s: Site, found: seq<OrderData>): Site {
    s.(inStack := s.inStack + Ids(found), queue := s.queue + Placements(found))
  }

  function ReloadSite(s: Site, os: seq<OrderData>): Site {
    EnterAll(Emptied(s, os), os)
  }

  function Emptied(s: Site, os: seq<OrderData>): Site {
    s.(book := Runs.EMPTY, live := Ids(os), apart := {})
  }

  ghost function Apply(s: Site, e: Event): Site
    requires Admissible(s, e)
  {
    match e
    case Create(o) => CreateSite(s, o)
    case Place(k) => PlaceSite(s, k)
    case Update(id, d, allowed) => UpdateSite(s, id, d, allowed)
    case Reprice(cs, current) => RepriceSite(s, cs, current)
    case Cancel(id) => CancelSite(s, id)
    case Trigger(_, _, found) => TriggerSite(s, found)
    case Expire(id) => s.(placed := s.placed - {id})
    case Reload(os) => ReloadSite(s, os)
  }

  const START := Site(map[], {}, {}, map[], {}, [], [], Runs.EMPTY, {}, [], {}, {})

  ghost predicate AdmissibleRun(s: Site, es: seq<Event>)
    decreases |es|
  {
    es == [] || (Admissible(s, es[0]) && AdmissibleRun(Apply(s, es[0]), es[1..]))
  }

  ghost function Run(s: Site, es: seq<Event>): Site
    requires AdmissibleRun(s, es)
    decreases |es|
  {
    if es == [] then s else Run(Apply(s, es[0]), es[1..])
  }

  // ---- What every event keeps ----

  /** A known order: its id, kind, side and owner never change. */
  ghost predicate Known(s: Site, o: OrderData) {
    o.id in s.rows && s.rows[o.id].kind == o.kind && s.rows[o.id].op == o.op && s.rows[o.id].bot == o.bot
  }

  /** No row goes or changes its identity. */
  ghost predicate RowsStay(s: Site, s': Site) {
    && s.rows.Keys <= s'.rows.Keys
    && forall id :: id in s.rows ==>
         && s'.rows[id].kind == s.rows[id].kind && s'.rows[id].op == s.rows[id].op && s'.rows[id].bot == s.rows[id].bot
  }

  ghost predicate RowInv(s: Site, id: int)
    requires id in s.rows
  {
    var o := s.rows[id];
    && o.id == id && o.left >= 0
    && (o.state == Opened ==> o.left > 0)
    && (!o.IsMarket() ==> o.price > 0)
    && (id in s.limited ==> o.kind == External && !o.bot)
  }

  /** Market orders are done with at once, but for the one under way. */
  ghost predicate RowsInv(s: Site, busy: Option<int>) {
    && (forall id :: id in s.rows ==> RowInv(s, id))
    && (forall id :: id in s.rows && busy != Some(id) && s.rows[id].IsMarket() ==> s.rows[id].state != Opened)
  }

  ghost predicate RecordInv(s: Site, id: int) {
    id in s.traded ==> id in s.rows && id in s.records && s.records[id].op == s.rows[id].op
  }

  ghost predicate TradeInv(s: Site, t: Trade) {
    Fair(t) && Known(s, t.taker) && Known(s, t.maker)
  }

  ghost predicate TapeInv(s: Site) {
    && |s.caps| == |s.tape|
    && (forall t :: t in s.tape ==> TradeInv(s, t))
    && (forall id :: RecordInv(s, id))
  }

  ghost predicate BookKnown(s: Site) {
    && Runs.BookInv(s.book)
    && forall bot, op, x :: x in s.book.Pool(bot).Stack(op) ==> Known(s, x)
  }

  ghost predicate QueueKnown(s: Site) {
    forall p :: p in s.queue ==>
      Runs.FromStore(p.order) && p.order.state == Opened && !p.order.IsMarket() && Known(s, p.order)
  }

  ghost predicate Inv(s: Site, busy: Option<int>) {
    && RowsInv(s, busy) && TapeInv(s) && BookKnown(s) && QueueKnown(s)
    && s.inStack <= s.rows.Keys && s.limited <= s.rows.Keys
  }

  ghost predicate SiteInv(s: Site) {
    Inv(s, None)
  }

  /** The same order, apart from what is left of it. */
  predicate Same(x: OrderData, y: OrderData) {
    x == y.(left := x.left, state := x.state)
  }

  lemma {:induction false} KnownStays(s: Site, s': Site, o: OrderData)
    requires Known(s, o) && RowsStay(s, s')
    ensures Known(s', o)
  {
    assert o.id in s.rows.Keys;
  }

  // ---- What a run of trades writes ----

  ghost predicate IsMaker(ts: seq<Trade>, id: int) {
    exists i :: 0 <= i < |ts| && ts[i].maker.id == id
  }

  /** Trades of one taker with different makers, all of them known. */
  ghost predicate OneTaker(s: Site, busy: int, ts: seq<Trade>) {
    && busy in s.rows
    && (forall i :: 0 <= i < |ts| ==> ts[i].taker.id == busy && ts[i].maker.id != busy && ts[i].maker.id in s.rows)
    && (forall i, j :: 0 <= i < j < |ts| ==> ts[i].maker.id != ts[j].maker.id)
  }

  ghost predicate RowsWritten(s: Site, busy: int, ts: seq<Trade>, s': Site) {
    && s'.rows.Keys == s.rows.Keys
    && (forall id :: id in s.rows && id != busy && !IsMaker(ts, id) ==> s'.rows[id] == s.rows[id])
    && (forall id :: id != busy && !IsMaker(ts, id) ==> (id in s'.inStack <==> id in s.inStack))
    && (forall i :: 0 <= i < |ts| ==>
         && ts[i].maker.id in s'.rows
         && s'.rows[ts[i].maker.id] == SettleMaker(ts[i].maker, ts[i].quantity)
         && (ts[i].maker.id in s'.inStack <==> ts[i].maker.id in s.live))
    && (ts == [] ==> s'.rows == s.rows && s'.inStack == s.inStack)
  }

  ghost predicate RecordsWritten(s: Site, busy: int, ts: seq<Trade>, s': Site) {
    && (forall id :: id in s'.traded <==> id in s.traded || IsMaker(ts, id) || (ts != [] && id == busy))
    && (forall id :: id != busy && !IsMaker(ts, id) ==>
         (id in s'.records <==> id in s.records) && (id in s.records ==> s'.records[id] == s.records[id]))
    && (forall i :: 0 <= i < |ts| ==>
         ts[i].maker.id in s'.records && s'.records[ts[i].maker.id] == Record(ts[i].maker.op, ts[i].price))
    && (ts == [] ==> s'.records == s.records)
    && (ts != [] ==> busy in s'.records && s'.records[busy] == Record(ts[|ts| - 1].taker.op, ts[|ts| - 1].price))
  }

  /** What the rows said at trade i: the taker's row is read anew after it was saved by the trade before. */
  ghost predicate CapWritten(s: Site, busy: int, ts: seq<Trade>, s': Site, i: nat)
    requires |s'.caps| == |s.caps| + |ts| && i < |ts|
  {
    var c := s'.caps[|s.caps| + i];
    && c.maker == CapOf(s, ts[i].maker.id)
    && c.taker == (if i == 0 then CapOf(s, busy) else if busy in s.limited then ts[i - 1].taker.otcLimit else None)
    && c.open == (RowOpen(s, ts[i].maker.id) &&
                  if i == 0 then RowOpen(s, busy) else ts[i - 1].taker.Settle(ts[i - 1].quantity).state == Opened)
  }

  ghost predicate CapsWritten(s: Site, busy: int, ts: seq<Trade>, s': Site) {
    && |s'.caps| == |s.caps| + |ts| && s'.caps[..|s.caps|] == s.caps
    && forall i :: 0 <= i < |ts| ==> CapWritten(s, busy, ts, s', i)
  }

  ghost predicate Kept(s: Site, ts: seq<Trade>, s': Site) {
    && s'.tape == s.tape + ts && s'.queue == s.queue && s'.live == s.live && s'.book == s.book
    && s'.limited == s.limited && s'.placed == s.placed && s'.apart == s.apart
  }

  lemma {:induction false} TailTrades(s: Site, busy: int, ts: seq<Trade>)
    requires OneTaker(s, busy, ts) && ts != []
    ensures OneTaker(SaveTrade(s, ts[0]), busy, ts[1..])
    ensures !IsMaker(ts[1..], ts[0].maker.id)
    ensures forall id :: IsMaker(ts, id) <==> ts[0].maker.id == id || IsMaker(ts[1..], id)
  {
    var tail := ts[1..];
    forall i | 0 <= i < |tail| ensures tail[i] == ts[i + 1] {}
    forall id ensures IsMaker(ts, id) <==> ts[0].maker.id == id || IsMaker(tail, id) {
      if IsMaker(ts, id) && ts[0].maker.id != id {
        var i :| 0 <= i < |ts| && ts[i].maker.id == id;
        assert tail[i - 1].maker.id == id;
      }
      if IsMaker(tail, id) {
        var i :| 0 <= i < |tail| && tail[i].maker.id == id;
        assert ts[i + 1].maker.id == id;
      }
    }
  }

  lemma {:induction false} TradesKept(s: Site, ts: seq<Trade>)
    ensures Kept(s, ts, SaveTrades(s, ts))
    decreases |ts|
  {
    if ts == [] {
      assert s.tape + [] == s.tape;
    } else {
      TradesKept(SaveTrade(s, ts[0]), ts[1..]);
      assert s.tape + [ts[0]] + ts[1..] == s.tape + ts;
    }
  }

  lemma {:induction false} TradesWriteRows(s: Site, busy: int, ts: seq<Trade>)
    requires OneTaker(s, busy, ts)
    ensures RowsWritten(s, busy, ts, SaveTrades(s, ts))
    decreases |ts|
  {
    if ts != [] {
      var s1, tail := SaveTrade(s, ts[0]), ts[1..];
      TailTrades(s, busy, ts);
      TradesWriteRows(s1, busy, tail);
      RowsJoin(s, busy, ts, s1, SaveTrades(s1, tail));
    }
  }

  lemma {:induction false} RowsJoin(s: Site, busy: int, ts: seq<Trade>, s1: Site, s': Site)
    requires ts != [] && OneTaker(s, busy, ts) && s1 == SaveTrade(s, ts[0]) && RowsWritten(s1, busy, ts[1..], s')
    ensures RowsWritten(s, busy, ts, s')
  {
    var tail := ts[1..];
    TailTrades(s, busy, ts);
    forall i | 0 <= i < |ts|
      ensures ts[i].maker.id in s'.rows && s'.rows[ts[i].maker.id] == SettleMaker(ts[i].maker, ts[i].quantity)
      ensures ts[i].maker.id in s'.inStack <==> ts[i].maker.id in s.live
    {
      if i > 0 {
        assert tail[i - 1] == ts[i];
      }
    }
  }

  lemma {:induction false} TradesWriteRecords(s: Site, busy: int, ts: seq<Trade>)
    requires OneTaker(s, busy, ts)
    ensures RecordsWritten(s, busy, ts, SaveTrades(s, ts))
    decreases |ts|
  {
    if ts != [] {
      var s1, tail := SaveTrade(s, ts[0]), ts[1..];
      TailTrades(s, busy, ts);
      TradesWriteRecords(s1, busy, tail);
      RecordsJoin(s, busy, ts, s1, SaveTrades(s1, tail));
    }
  }

  lemma {:induction false} RecordsJoin(s: Site, busy: int, ts: seq<Trade>, s1: Site, s': Site)
    requires ts != [] && OneTaker(s, busy, ts) && s1 == SaveTrade(s, ts[0]) && RecordsWritten(s1, busy, ts[1..], s')
    ensures RecordsWritten(s, busy, ts, s')
  {
    var tail := ts[1..];
    TailTrades(s, busy, ts);
    forall i | 0 <= i < |ts|
      ensures ts[i].maker.id in s'.records && s'.records[ts[i].maker.id] == Record(ts[i].maker.op, ts[i].price)
    {
      if i > 0 {
        assert tail[i - 1] == ts[i];
      }
    }
    assert tail != [] ==> tail[|tail| - 1] == ts[|ts| - 1];
  }

  lemma {:induction false} TradesWriteCaps(s: Site, busy: int, ts: seq<Trade>)
    requires OneTaker(s, busy, ts)
    ensures CapsWritten(s, busy, ts, SaveTrades(s, ts))
    decreases |ts|
  {
    if ts != [] {
      var s1, tail := SaveTrade(s, ts[0]), ts[1..];
      TailTrades(s, busy, ts);
      TradesWriteCaps(s1, busy, tail);
      CapsJoin(s, busy, ts, s1, SaveTrades(s1, tail));
    }
  }

  lemma {:induction false} CapsJoin(s: Site, busy: int, ts: seq<Trade>, s1: Site, s': Site)
    requires ts != [] && OneTaker(s, busy, ts) && s1 == SaveTrade(s, ts[0]) && CapsWritten(s1, busy, ts[1..], s')
    ensures CapsWritten(s, busy, ts, s')
  {
    var tail, n := ts[1..], |s.caps|;
    TailTrades(s, busy, ts);
    assert s'.caps[..n] == s1.caps[..n] == s.caps by { assert s'.caps[..n] == s'.caps[..n + 1][..n]; }
    assert s'.caps[n] == s'.caps[..n + 1][n] == s1.caps[n];
    forall i | 0 <= i < |ts| ensures CapWritten(s, busy, ts, s', i) {
      if i > 0 {
        var j := i - 1;
        assert tail[j] == ts[i] && n + i == |s1.caps| + j;
        assert CapWritten(s1, busy, tail, s', j);
        assert ts[0].maker.id != ts[i].maker.id;
        assert j > 0 ==> tail[j - 1] == ts[i - 1];
      }
    }
  }

  // ---- What one order through the book writes ----

  /** The trades of an order: one taker, makers that rested, each trade fair and within what the maker had. */
  ghost predicate TradesFit(s: Site, o: OrderData, ts: seq<Trade>) {
    && OneTaker(s, o.id, ts)
    && forall i :: 0 <= i < |ts| ==> TradeFits(s, o, ts[i])
  }

  ghost predicate TradeFits(s: Site, o: OrderData, t: Trade) {
    && t.maker in s.book.Pool(o.bot).Stack(o.op.Other()) && Same(t.taker, o)
    && Fair(t) && t.quantity <= t.maker.left
  }

  /** The rows, flags, records and caps after an order went through the book with this outcome. */
  ghost predicate Written(s: Site, o: OrderData, r: Outcome, s': Site) {
    && s'.book == s.book.With(o.bot, r.pool) && s'.tape == s.tape + r.trades
    && s'.queue == s.queue && s'.live == s.live && s'.limited == s.limited
    && s'.placed == s.placed && s'.apart == s.apart
    && RowsAfter(s, o, r, s') && RecordsAfter(s, o, r, s') && CapsWritten(s, o.id, r.trades, s')
  }

  ghost predicate RowsAfter(s: Site, o: OrderData, r: Outcome, s': Site) {
    && s'.rows.Keys == s.rows.Keys
    && (forall id :: id in s.rows && id != o.id && !IsMaker(r.trades, id) ==> s'.rows[id] == s.rows[id])
    && (forall id :: id != o.id && !IsMaker(r.trades, id) ==> (id in s'.inStack <==> id in s.inStack))
    && (forall i :: 0 <= i < |r.trades| ==>
         && r.trades[i].maker.id in s'.rows
         && s'.rows[r.trades[i].maker.id] == SettleMaker(r.trades[i].maker, r.trades[i].quantity)
         && (r.trades[i].maker.id in s'.inStack <==> r.trades[i].maker.id in s.live))
    && (if Touched(o, r)
        then o.id in s'.rows && s'.rows[o.id] == r.order && (o.id in s'.inStack <==> o.id in s.live)
        else s'.rows == s.rows && s'.inStack == s.inStack)
  }

  ghost predicate RecordsAfter(s: Site, o: OrderData, r: Outcome, s': Site) {
    && (forall id :: id in s'.traded <==> id in s.traded || IsMaker(r.trades, id) || (r.trades != [] && id == o.id))
    && (forall id :: id != o.id && !IsMaker(r.trades, id) ==>
         (id in s'.records <==> id in s.records) && (id in s.records ==> s'.records[id] == s.records[id]))
    && (forall i :: 0 <= i < |r.trades| ==>
         && r.trades[i].maker.id in s'.records
         && s'.records[r.trades[i].maker.id] == Record(r.trades[i].maker.op, r.trades[i].price))
    && (if !Touched(o, r) then s'.records == s.records
        else o.id in s'.records && s'.records[o.id] == LastRecord(o, r))
  }

  /** A cancellation at the order's own price, or the last trade. */
  function LastRecord(o: OrderData, r: Outcome): Record
    requires Touched(o, r)
  {
    if r.order.state == Canceled then Record(o.op, o.price)
    else Record(r.trades[|r.trades| - 1].taker.op, r.trades[|r.trades| - 1].price)
  }

  lemma {:induction false} FinishRows(s: Site, o: OrderData, r: Outcome, s1: Site)
    requires OneTaker(s, o.id, r.trades) && r.order.id == o.id && (!Touched(o, r) ==> s1 == s)
    requires RowsWritten(s, o.id, r.trades, s1) && s1.live == s.live
    ensures RowsAfter(s, o, r, Finish(s1, o, r))
  {
  }

  lemma {:induction false} FinishRecords(s: Site, o: OrderData, r: Outcome, s1: Site)
    requires OneTaker(s, o.id, r.trades) && (!Touched(o, r) ==> s1 == s)
    requires RecordsWritten(s, o.id, r.trades, s1)
    ensures RecordsAfter(s, o, r, Finish(s1, o, r))
  {
  }

  lemma {:induction false} TradeOf(p: Pool, o: OrderData, i: nat)
    requires Incoming(p, o) && i < |Matching.Process(p, o).trades|
    ensures var t := Matching.Process(p, o).trades[i];
            Same(t.taker, o) && t.maker in p.Stack(o.op.Other()) && t.quantity <= t.maker.left
            && i < |p.Stack(o.op.Other())| && t.maker == p.Stack(o.op.Other())[i]
  {
    var ms := p.Stack(o.op.Other());
    OrderTrades(p, o, i);
    TradesOfFill(p, o);
    FillTrades(o, ms[..Selected(o, ms, o.left)], i);
  }

  lemma {:induction false} MakersDiffer(ms: seq<OrderData>, ts: seq<Trade>, id: int)
    requires UniqueIds(ms) && !HasId(ms, id) && |ts| <= |ms| && forall i :: 0 <= i < |ts| ==> ts[i].maker == ms[i]
    ensures forall i :: 0 <= i < |ts| ==> ts[i].maker.id != id
    ensures forall i, j :: 0 <= i < j < |ts| ==> ts[i].maker.id != ts[j].maker.id
  {
    forall i | 0 <= i < |ts| ensures ts[i].maker.id != id { assert ms[i].id != id; }
  }

  lemma {:induction false} OrderFits(s: Site, o: OrderData)
    requires BookKnown(s) && Known(s, o) && Sane(o) && Incoming(s.book.Pool(o.bot), o)
    ensures TradesFit(s, o, Matching.Process(s.book.Pool(o.bot), o).trades)
  {
    var p := s.book.Pool(o.bot);
    var ts, ms := Matching.Process(p, o).trades, p.Stack(o.op.Other());
    forall i | 0 <= i < |ts| ensures ts[i].maker == ms[i] && TradeFits(s, o, ts[i]) && ts[i].maker.id in s.rows {
      TradeOf(p, o, i);
      ProcessFair(p, o, o.bot, i);
      assert Known(s, ts[i].maker);
    }
    if ts != [] { OrderTrades(p, o, 0); }
    MakersDiffer(ms, ts, o.id);
  }

  /** An order that does nothing: it is not open, or its id rests on the other side. */
  lemma {:induction false} IdleProcess(s: Site, o: OrderData)
    requires o.state != Opened || HasId(s.book.Pool(o.bot).Stack(o.op.Other()), o.id)
    ensures EnterBook(s, o) == s && Matching.Process(s.book.Pool(o.bot), o) == Outcome(s.book.Pool(o.bot), o, [])
  {
    assert s.book.With(o.bot, s.book.Pool(o.bot)) == s.book;
  }

  lemma {:induction false} ProcessWrites(s: Site, o: OrderData)
    requires BookKnown(s) && Known(s, o) && Sane(o) && Incoming(s.book.Pool(o.bot), o)
    ensures Written(s, o, Matching.Process(s.book.Pool(o.bot), o), EnterBook(s, o))
  {
    var r := Matching.Process(s.book.Pool(o.bot), o);
    OrderFits(s, o);
    OrderEnds(s.book.Pool(o.bot), o);
    OutcomeWrites(s, o, r);
  }

  lemma {:induction false} TradesWrite(s: Site, busy: int, ts: seq<Trade>)
    requires OneTaker(s, busy, ts)
    ensures var s' := SaveTrades(s, ts);
            && Kept(s, ts, s') && RowsWritten(s, busy, ts, s') && RecordsWritten(s, busy, ts, s')
            && CapsWritten(s, busy, ts, s') && (ts == [] ==> s' == s)
  {
    TradesKept(s, ts);
    TradesWriteRows(s, busy, ts);
    TradesWriteRecords(s, busy, ts);
    TradesWriteCaps(s, busy, ts);
  }

  lemma {:induction false} OutcomeWrites(s: Site, o: OrderData, r: Outcome)
    requires OneTaker(s, o.id, r.trades) && r.order.id == o.id
    requires r.trades == [] && r.order.state != Canceled ==> r.order == o
    ensures Written(s, o, r, Finish(SaveTrades(s.(book := s.book.With(o.bot, r.pool)), r.trades), o, r))
  {
    var s0 := s.(book := s.book.With(o.bot, r.pool));
    var s1 := SaveTrades(s0, r.trades);
    TradesWrite(s0, o.id, r.trades);
    FinishRows(s0, o, r, s1);
    FinishRecords(s0, o, r, s1);
    CapsOtherBook(s, s0, o.id, r.trades, s1);
    CapsSame(s, o.id, r.trades, s1, Finish(s1, o, r));
    WrittenFrom(s, o, r, s0, Finish(s1, o, r));
  }

  lemma {:induction false} CapsSame(s: Site, busy: int, ts: seq<Trade>, s1: Site, s': Site)
    requires CapsWritten(s, busy, ts, s1) && s'.caps == s1.caps
    ensures CapsWritten(s, busy, ts, s')
  {
    forall i | 0 <= i < |ts| ensures CapWritten(s, busy, ts, s', i) {
      assert CapWritten(s, busy, ts, s1, i);
    }
  }

  lemma {:induction false} WrittenFrom(s: Site, o: OrderData, r: Outcome, s0: Site, s': Site)
    requires s0 == s.(book := s.book.With(o.bot, r.pool)) && s'.book == s0.book && s'.tape == s.tape + r.trades
    requires s'.queue == s.queue && s'.live == s.live && s'.limited == s.limited
    requires s'.placed == s.placed && s'.apart == s.apart
    requires RowsAfter(s0, o, r, s') && RecordsAfter(s0, o, r, s') && CapsWritten(s, o.id, r.trades, s')
    ensures Written(s, o, r, s')
  {
  }

  lemma {:induction false} CapsOtherBook(s: Site, s0: Site, busy: int, ts: seq<Trade>, s': Site)
    requires s0 == s.(book := s0.book) && CapsWritten(s0, busy, ts, s')
    ensures CapsWritten(s, busy, ts, s')
  {
    forall i | 0 <= i < |ts| ensures CapWritten(s, busy, ts, s', i) {
      assert CapWritten(s0, busy, ts, s', i);
    }
  }

  /** Where the order ends: what rests is open, has something left and is no market order. */
  lemma {:induction false} OrderEnds(p: Pool, o: OrderData)
    requires Incoming(p, o) && Sane(o)
    ensures var r := Matching.Process(p, o);
            && Same(r.order, o) && r.order.left >= 0
            && (r.order.state == Opened ==> r.order.left > 0 && !o.IsMarket())
            && r.order.state != Reverted && (r.order.state == Closed ==> r.order.left == 0)
            && (r.order.state == Canceled && !o.IsMarket() ==> r.order.IsDust())
            && (r.trades == [] && r.order.state != Canceled ==> r.order == o)
            && (r.order.state == Canceled ==> (r.trades == [] <==> o.IsMarket()))
            && o.left - r.order.left == SumQuantity(r.trades)
  {
    var ms := p.Stack(o.op.Other());
    ProcessOrder(p, o);
    if MeetsNothing(p, o) {
      RestsAtOnce(p, o);
    } else if !o.IsMarket() || Fulfilled(o, ms, o.left) {
      ExecutesAtOnce(p, o);
      ExecutedOrder(p, o);
    }
  }

  /** A maker left over after its trade. */
  ghost predicate LeftOver(ts: seq<Trade>, x: OrderData) {
    exists i :: 0 <= i < |ts| && x == SettleMaker(ts[i].maker, ts[i].quantity)
  }

  /**
   What rests afterwards rested before and had no part in it, or is a maker left over, or the
   order itself; an entry that had the order's id before stays, unless it was swept out.
   */
  ghost predicate RestsAfter(s: Site, o: OrderData, r: Outcome, bot: bool, op: Operation, x: OrderData) {
    || (x in s.book.Pool(bot).Stack(op) && x.id != o.id && !IsMaker(r.trades, x.id))
    || (bot == o.bot && op == o.op.Other() && LeftOver(r.trades, x))
    || (bot == o.bot && op == o.op && x == r.order && r.order.state == Opened && !HadEntry(s, o))
    || (bot == o.bot && op == o.op && EntryStays(s, o, r, x))
  }

  /** The order's id was in its own stack already. */
  ghost predicate HadEntry(s: Site, o: OrderData) {
    HasId(s.book.Pool(o.bot).Stack(o.op), o.id)
  }

  ghost predicate EntryStays(s: Site, o: OrderData, r: Outcome, x: OrderData) {
    && x in s.book.Pool(o.bot).Stack(o.op) && x.id == o.id && HadEntry(s, o) && !IsMaker(r.trades, x.id)
    && (r.trades != [] && o.op == Sell && !o.IsMarket() ==> r.order.state == Opened)
  }

  lemma {:induction false} MakersLeft(p: Pool, o: OrderData, x: OrderData)
    requires Incoming(p, o) && Matching.Process(p, o).trades != [] && UniqueIds(p.Stack(o.op.Other()))
    requires x in Remainder(o, p.Stack(o.op.Other()))
    ensures var ts := Matching.Process(p, o).trades;
            LeftOver(ts, x) || (x in p.Stack(o.op.Other()) && !IsMaker(ts, x.id))
  {
    var ms, ts := p.Stack(o.op.Other()), Matching.Process(p, o).trades;
    var n := Selected(o, ms, o.left);
    var f := Fill(o, ms[..n]);
    TradesOfFill(p, o);
    OpenOnly(f.makers);
    if x in Open(f.makers) {
      var i :| 0 <= i < |f.makers| && f.makers[i] == x;
      FillTrades(o, ms[..n], i);
      assert x == SettleMaker(ts[i].maker, ts[i].quantity);
    } else {
      var j :| 0 <= j < |ms[n..]| && ms[n..][j] == x;
      assert x == ms[n + j] && |ts| == n;
      forall i | 0 <= i < |ts| ensures ts[i].maker.id != x.id {
        TradeOf(p, o, i);
        assert ms[i].id != ms[n + j].id;
      }
    }
  }

  lemma {:induction false} NothingTraded(p: Pool, o: OrderData)
    requires Incoming(p, o) && Sane(o) && Matching.Process(p, o).trades == []
    ensures Matching.Process(p, o).pool.Stack(o.op.Other()) == p.Stack(o.op.Other())
  {
    var ms := p.Stack(o.op.Other());
    if MeetsNothing(p, o) {
      RestsAtOnce(p, o);
    } else if !o.IsMarket() || Fulfilled(o, ms, o.left) {
      ExecutesAtOnce(p, o);
    }
  }

  lemma {:induction false} TradedStack(p: Pool, o: OrderData)
    requires Incoming(p, o) && Sane(o) && Matching.Process(p, o).trades != []
    ensures Matching.Process(p, o).pool.Stack(o.op.Other()) == Remainder(o, p.Stack(o.op.Other()))
  {
    var ms := p.Stack(o.op.Other());
    if MeetsNothing(p, o) {
      RestsAtOnce(p, o);
    } else if !o.IsMarket() || Fulfilled(o, ms, o.left) {
      ExecutesAtOnce(p, o);
      ExecutedOrder(p, o);
    }
  }

  lemma {:induction false} ProcessRests(s: Site, o: OrderData, bot: bool, op: Operation, x: OrderData)
    requires BookKnown(s) && Known(s, o) && Sane(o) && Incoming(s.book.Pool(o.bot), o)
    requires x in Runs.BookProcess(s.book, o).book.Pool(bot).Stack(op)
    ensures RestsAfter(s, o, Matching.Process(s.book.Pool(o.bot), o), bot, op, x)
  {
    var p := s.book.Pool(o.bot);
    var r := Matching.Process(p, o);
    OrderFits(s, o);
    if bot != o.bot {
      assert x in s.book.Pool(bot).Stack(op);
      OtherPlace(s, o, r.trades, bot, op, x);
    } else if op == o.op {
      OwnSideRests(s, o, x);
    } else {
      OtherSideRests(p, o, x);
    }
  }

  lemma {:induction false} OwnSideRests(s: Site, o: OrderData, x: OrderData)
    requires BookKnown(s) && Known(s, o) && Sane(o) && Incoming(s.book.Pool(o.bot), o)
    requires x in Matching.Process(s.book.Pool(o.bot), o).pool.Stack(o.op)
    ensures RestsAfter(s, o, Matching.Process(s.book.Pool(o.bot), o), o.bot, o.op, x)
  {
    var p := s.book.Pool(o.bot);
    var r := Matching.Process(p, o);
    OrderFits(s, o);
    ProcessOrder(p, o);
    OrderEnds(p, o);
    OwnInv(p, r, o.bot);
    if x in p.Stack(o.op) {
      OtherPlace(s, o, r.trades, o.bot, o.op, x);
      if x.id == o.id {
        var k :| 0 <= k < |p.Stack(o.op)| && p.Stack(o.op)[k] == x;
        SweptGone(p, o, r, x);
      }
    }
  }

  /** A sell order that traded and is not open any more has no entry left. */
  lemma {:induction false} SweptGone(p: Pool, o: OrderData, r: Outcome, x: OrderData)
    requires UniqueIds(p.Stack(o.op)) && x in OwnAfter(p, r) && x.id == o.id && Same(r.order, o)
    requires r.order.state != Reverted && (r.order.state == Closed ==> r.order.left == 0)
    requires r.order.state == Canceled && r.trades != [] && !o.IsMarket() ==> r.order.IsDust()
    ensures r.trades != [] && o.op == Sell && !o.IsMarket() ==> r.order.state == Opened
  {
    WithoutContents(p.Stack(o.op), o.id);
    if r.order.state == Closed && o.op == Sell { assert r.order.left * r.order.price == 0; }
  }

  /** On the other side: a maker left over, or an order that had no part in it. */
  lemma {:induction false} OtherSideRests(p: Pool, o: OrderData, x: OrderData)
    requires PoolInv(p, o.bot) && Sane(o) && Incoming(p, o)
    requires x in Matching.Process(p, o).pool.Stack(o.op.Other())
    ensures var ts := Matching.Process(p, o).trades;
            LeftOver(ts, x) || (x in p.Stack(o.op.Other()) && x.id != o.id && !IsMaker(ts, x.id))
  {
    var ms := p.Stack(o.op.Other());
    if Matching.Process(p, o).trades == [] {
      NothingTraded(p, o);
    } else {
      TradedStack(p, o);
      MakersLeft(p, o, x);
    }
    if x in ms {
      var k :| 0 <= k < |ms| && ms[k] == x;
    }
  }

  /** An order that trades nothing and is not cancelled rests as it came, and writes nothing. */
  lemma {:induction false} NoTradeRests(s: Site, o: OrderData)
    requires Sane(o) && Incoming(s.book.Pool(o.bot), o) && !o.IsMarket() && !HadEntry(s, o)
    requires Matching.Process(s.book.Pool(o.bot), o).trades == []
    ensures var s' := EnterBook(s, o);
            o in s'.book.Pool(o.bot).Stack(o.op) && s'.rows == s.rows && s'.tape == s.tape && s'.caps == s.caps
  {
    var p := s.book.Pool(o.bot);
    ProcessOrder(p, o);
    OrderEnds(p, o);
    InsertContents(DirectionOf(o.op), p.Stack(o.op), o);
  }

  /** What rests on another side or in the other pool has another id than the parties of a trade. */
  lemma {:induction false} OtherPlace(s: Site, o: OrderData, ts: seq<Trade>, bot: bool, op: Operation, x: OrderData)
    requires BookKnown(s) && Known(s, o) && TradesFit(s, o, ts) && x in s.book.Pool(bot).Stack(op)
    requires bot != o.bot || op == o.op
    ensures !IsMaker(ts, x.id) && (bot != o.bot ==> x.id != o.id)
  {
    assert Known(s, x) && Resting(x, op, bot);
    forall i | 0 <= i < |ts| ensures ts[i].maker.id != x.id {
      assert TradeFits(s, o, ts[i]);
      assert Known(s, ts[i].maker) && Resting(ts[i].maker, o.op.Other(), o.bot);
    }
  }

  // ---- The invariant is kept ----

  lemma {:induction false} SettledRow(m: OrderData, q: int)
    requires m.left >= q && m.state == Opened
    ensures var x := SettleMaker(m, q);
            Same(x, m) && x.left >= 0 && (x.state == Opened ==> x.left > 0)
  {
  }

  lemma {:induction false} MakerAt(s: Site, o: OrderData, ts: seq<Trade>, i: nat)
    requires BookKnown(s) && TradesFit(s, o, ts) && i < |ts|
    ensures TradeFits(s, o, ts[i]) && Known(s, ts[i].maker) && Resting(ts[i].maker, o.op.Other(), o.bot)
  {
    assert TradeFits(s, o, ts[i]);
    assert ts[i].maker in s.book.Pool(o.bot).Stack(o.op.Other());
  }

  /** The trade of a maker: a known order that rested on the other side. */
  lemma {:induction false} MakerTrade(s: Site, o: OrderData, ts: seq<Trade>, id: int) returns (i: nat)
    requires BookKnown(s) && TradesFit(s, o, ts) && IsMaker(ts, id)
    ensures i < |ts| && ts[i].maker.id == id && TradeFits(s, o, ts[i])
    ensures Known(s, ts[i].maker) && Resting(ts[i].maker, o.op.Other(), o.bot)
  {
    i :| 0 <= i < |ts| && ts[i].maker.id == id;
    MakerAt(s, o, ts, i);
  }

  lemma {:induction false} WrittenStays(s: Site, o: OrderData, r: Outcome, s': Site)
    requires TradesFit(s, o, r.trades) && BookKnown(s) && Known(s, o) && Same(r.order, o) && RowsAfter(s, o, r, s')
    ensures RowsStay(s, s')
  {
    forall id | id in s.rows
      ensures id in s'.rows && s'.rows[id].kind == s.rows[id].kind
      ensures s'.rows[id].op == s.rows[id].op && s'.rows[id].bot == s.rows[id].bot
    {
      assert id in s'.rows.Keys;
      if IsMaker(r.trades, id) {
        var i := MakerTrade(s, o, r.trades, id);
        assert s'.rows[id] == SettleMaker(r.trades[i].maker, r.trades[i].quantity);
      }
    }
  }

  lemma {:induction false} WrittenRow(s: Site, o: OrderData, r: Outcome, s': Site, id: int)
    requires TradesFit(s, o, r.trades) && BookKnown(s) && Known(s, o) && Sane(o) && RowsAfter(s, o, r, s')
    requires s'.limited == s.limited && RowsInv(s, Busy(o)) && id in s'.rows && id in s.rows
    requires Same(r.order, o) && r.order.left >= 0 && (r.order.state == Opened ==> r.order.left > 0 && !o.IsMarket())
    requires o.IsMarket() ==> Touched(o, r)
    ensures RowInv(s', id) && (s'.rows[id].IsMarket() ==> s'.rows[id].state != Opened)
  {
    assert RowInv(s, id);
    if IsMaker(r.trades, id) {
      var i := MakerTrade(s, o, r.trades, id);
      SettledRow(r.trades[i].maker, r.trades[i].quantity);
    }
  }

  lemma {:induction false} WrittenRows(s: Site, o: OrderData, r: Outcome, s': Site)
    requires TradesFit(s, o, r.trades) && BookKnown(s) && Known(s, o) && Sane(o) && RowsAfter(s, o, r, s')
    requires s'.limited == s.limited && RowsInv(s, Busy(o))
    requires Same(r.order, o) && r.order.left >= 0 && (r.order.state == Opened ==> r.order.left > 0 && !o.IsMarket())
    requires o.IsMarket() ==> Touched(o, r)
    ensures RowsInv(s', None)
  {
    forall id | id in s'.rows ensures RowInv(s', id) && (s'.rows[id].IsMarket() ==> s'.rows[id].state != Opened) {
      assert id in s.rows.Keys;
      WrittenRow(s, o, r, s', id);
    }
  }

  lemma {:induction false} WrittenTape(s: Site, o: OrderData, r: Outcome, s': Site)
    requires TradesFit(s, o, r.trades) && BookKnown(s) && Known(s, o) && TapeInv(s) && RowsStay(s, s')
    requires RecordsAfter(s, o, r, s') && s'.tape == s.tape + r.trades && |s'.caps| == |s.caps| + |r.trades|
    ensures TapeInv(s')
  {
    forall t | t in s'.tape ensures TradeInv(s', t) {
      if t in s.tape {
        assert TradeInv(s, t);
      } else {
        var i :| 0 <= i < |r.trades| && r.trades[i] == t;
        assert TradeFits(s, o, t) && Known(s, t.maker);
      }
      KnownStays(s, s', t.taker);
      KnownStays(s, s', t.maker);
    }
    forall id ensures RecordInv(s', id) {
      assert RecordInv(s, id);
      if IsMaker(r.trades, id) {
        var i := MakerTrade(s, o, r.trades, id);
        KnownStays(s, s', r.trades[i].maker);
      } else if id == o.id {
        KnownStays(s, s', o);
        if r.trades != [] { assert TradeFits(s, o, r.trades[|r.trades| - 1]); }
      }
    }
  }

  lemma {:induction false} RestsKnown(s: Site, o: OrderData, r: Outcome, s': Site, bot: bool, op: Operation,
      x: OrderData)
    requires BookKnown(s) && Known(s, o) && TradesFit(s, o, r.trades) && Same(r.order, o) && RowsStay(s, s')
    requires RestsAfter(s, o, r, bot, op, x)
    ensures Known(s', x)
  {
    if LeftOver(r.trades, x) {
      LeftOverKnown(s, o, r.trades, x);
      KnownStays(s, s', x);
    } else if x in s.book.Pool(bot).Stack(op) {
      KnownStays(s, s', x);
    } else if x == r.order {
      KnownStays(s, s', o);
    } else {
      KnownStays(s, s', x);
    }
  }

  lemma {:induction false} LeftOverKnown(s: Site, o: OrderData, ts: seq<Trade>, x: OrderData)
    requires BookKnown(s) && TradesFit(s, o, ts) && LeftOver(ts, x)
    ensures Known(s, x)
  {
    var i :| 0 <= i < |ts| && x == SettleMaker(ts[i].maker, ts[i].quantity);
    MakerAt(s, o, ts, i);
  }

  lemma {:induction false} WrittenBook(s: Site, o: OrderData, s': Site)
    requires BookKnown(s) && Known(s, o) && Sane(o) && Incoming(s.book.Pool(o.bot), o) && RowsStay(s, s')
    requires s'.book == Runs.BookProcess(s.book, o).book
    ensures BookKnown(s')
  {
    var r := Matching.Process(s.book.Pool(o.bot), o);
    Runs.BookProcessKeeps(s.book, o);
    OrderFits(s, o);
    OrderEnds(s.book.Pool(o.bot), o);
    forall bot, op, x | x in s'.book.Pool(bot).Stack(op) ensures Known(s', x) {
      ProcessRests(s, o, bot, op, x);
      RestsKnown(s, o, r, s', bot, op, x);
    }
  }

  lemma {:induction false} QueueStays(s: Site, s': Site)
    requires QueueKnown(s) && RowsStay(s, s') && forall p :: p in s'.queue ==> p in s.queue
    ensures QueueKnown(s')
  {
    forall p | p in s'.queue ensures Known(s', p.order) { KnownStays(s, s', p.order); }
  }

  lemma {:induction false} FlagsStay(s: Site, o: OrderData, r: Outcome, s': Site)
    requires OneTaker(s, o.id, r.trades) && RowsAfter(s, o, r, s') && s.inStack <= s.rows.Keys
    ensures s'.inStack <= s'.rows.Keys
  {
    forall id | id in s'.inStack ensures id in s'.rows {
      if IsMaker(r.trades, id) {
        var i :| 0 <= i < |r.trades| && r.trades[i].maker.id == id;
      }
    }
  }

  /** A known order never rests on the other side. */
  lemma {:induction false} OtherSideLacks(s: Site, o: OrderData)
    requires BookKnown(s) && Known(s, o)
    ensures !HasId(s.book.Pool(o.bot).Stack(o.op.Other()), o.id)
  {
    var st := s.book.Pool(o.bot).Stack(o.op.Other());
    forall i | 0 <= i < |st| ensures st[i].id != o.id {
      assert Known(s, st[i]) && Resting(st[i], o.op.Other(), o.bot);
    }
  }

  ghost predicate Ready(s: Site, o: OrderData) {
    && Known(s, o) && Sane(o)
    && (o.IsMarket() ==> Incoming(s.book.Pool(o.bot), o))
  }

  /** Ready, and its id is not in its own stack. */
  ghost predicate Fresh(s: Site, o: OrderData) {
    Ready(s, o) && !HadEntry(s, o)
  }

  function Busy(o: OrderData): Option<int> {
    if o.IsMarket() then Some(o.id) else None
  }

  /** One order processed: what was written is in order, and nothing else changed. */
  lemma {:induction false} ProcessKeeps(s: Site, o: OrderData)
    requires Inv(s, Busy(o)) && Ready(s, o)
    ensures var s' := EnterBook(s, o);
            && SiteInv(s') && RowsStay(s, s') && s'.queue == s.queue && s'.limited == s.limited && s'.live == s.live
            && s'.placed == s.placed && s'.apart == s.apart
            && s'.book == Runs.BookProcess(s.book, o).book && s'.tape == s.tape + Runs.BookProcess(s.book, o).trades
  {
    var p, s' := s.book.Pool(o.bot), EnterBook(s, o);
    if o.state == Opened && !HasId(p.Stack(o.op.Other()), o.id) {
      PoolAllLeft(p, o);
      IncomingKeeps(s, o);
    } else {
      IdleProcess(s, o);
      assert s.tape + [] == s.tape;
    }
  }

  lemma {:induction false} IncomingKeeps(s: Site, o: OrderData)
    requires Inv(s, Busy(o)) && Ready(s, o) && Incoming(s.book.Pool(o.bot), o)
    ensures SiteInv(EnterBook(s, o)) && RowsStay(s, EnterBook(s, o))
    ensures Written(s, o, Matching.Process(s.book.Pool(o.bot), o), EnterBook(s, o))
  {
    var r, s' := Matching.Process(s.book.Pool(o.bot), o), EnterBook(s, o);
    OrderFits(s, o);
    OrderEnds(s.book.Pool(o.bot), o);
    ProcessWrites(s, o);
    WrittenStays(s, o, r, s');
    WrittenRows(s, o, r, s');
    WrittenTape(s, o, r, s');
    WrittenBook(s, o, s');
    QueueStays(s, s');
    FlagsStay(s, o, r, s');
  }

  lemma {:induction false} ProcessAllKeeps(s: Site, os: seq<OrderData>)
    requires SiteInv(s) && Runs.UniqueOrderIds(os) && forall o :: o in os ==> Fresh(s, o) && !o.IsMarket()
    ensures var s' := EnterAll(s, os);
            && SiteInv(s') && RowsStay(s, s') && s'.queue == s.queue && s'.limited == s.limited && s'.live == s.live
            && s'.placed == s.placed && s'.apart == s.apart
            && s'.book == Runs.ProcessAll(s.book, os).book && s'.tape == s.tape + Runs.ProcessAll(s.book, os).trades
    decreases |os|
  {
    if os != [] {
      var o, rest := os[0], os[1..];
      assert o in os;
      ProcessKeeps(s, o);
      FreshStays(s, os);
      ProcessAllKeeps(EnterBook(s, o), rest);
      var first := Runs.BookProcess(s.book, o);
      AppendAssoc(s.tape, first.trades, Runs.ProcessAll(first.book, rest).trades);
    } else {
      assert s.tape + [] == s.tape;
    }
  }

  /** After the first of several orders, the others are still ready. */
  lemma {:induction false} FreshStays(s: Site, os: seq<OrderData>)
    requires SiteInv(s) && Runs.UniqueOrderIds(os) && os != []
    requires forall o :: o in os ==> Fresh(s, o) && !o.IsMarket()
    ensures forall x :: x in os[1..] ==> Fresh(EnterBook(s, os[0]), x) && !x.IsMarket()
    ensures Runs.UniqueOrderIds(os[1..])
  {
    var o, rest := os[0], os[1..];
    var s1 := EnterBook(s, o);
    assert o in os;
    ProcessKeeps(s, o);
    Runs.BookProcessKeeps(s.book, o);
    forall x | x in rest ensures Fresh(s1, x) && !x.IsMarket() {
      var i :| 0 <= i < |rest| && rest[i] == x;
      assert os[i + 1] == x && x in os;
      KnownStays(s, s1, x);
      var st := s1.book.Pool(x.bot).Stack(x.op);
      forall j | 0 <= j < |st| ensures st[j].id != x.id {
        assert st[j] in st;
      }
    }
    forall i, j | 0 <= i < j < |rest| ensures rest[i].id != rest[j].id {
      assert os[i + 1].id != os[j + 1].id;
    }
  }

  /** While one order is processed, the row of another that rests nowhere stays as it is. */
  lemma {:induction false} WaitingRow(s: Site, o: OrderData, x: OrderData)
    requires SiteInv(s) && Ready(s, o) && !o.IsMarket() && Fresh(s, x) && x.id != o.id
    ensures x.id in EnterBook(s, o).rows && EnterBook(s, o).rows[x.id] == s.rows[x.id]
    ensures x.id in EnterBook(s, o).inStack <==> x.id in s.inStack
  {
    var p := s.book.Pool(o.bot);
    if o.state == Opened && !HasId(p.Stack(o.op.Other()), o.id) {
      PoolAllLeft(p, o);
      var r := Matching.Process(p, o);
      ProcessWrites(s, o);
      OrderFits(s, o);
      if IsMaker(r.trades, x.id) {
        var i := MakerTrade(s, o, r.trades, x.id);
        RestsHere(s, r.trades[i].maker, o.bot, o.op.Other(), x);
      }
      assert x.id in s.rows.Keys;
    } else {
      IdleProcess(s, o);
    }
  }

  /** A resting order's id rests in the stack of the known order with that id. */
  lemma {:induction false} RestsHere(s: Site, m: OrderData, bot: bool, op: Operation, x: OrderData)
    requires BookKnown(s) && m in s.book.Pool(bot).Stack(op) && Known(s, x) && m.id == x.id
    ensures bot == x.bot && op == x.op && HasId(s.book.Pool(x.bot).Stack(x.op), x.id)
  {
    assert Known(s, m) && Resting(m, op, bot);
    var st := s.book.Pool(bot).Stack(op);
    var i :| 0 <= i < |st| && st[i] == m;
  }

  ghost predicate RowOk(s: Site, o: OrderData) {
    && (o.id in s.rows ==> Known(s, o))
    && o.left >= 0 && (o.state == Opened ==> o.left > 0) && (!o.IsMarket() ==> o.price > 0)
  }

  /** A row written, the flags and the limited set changed for it only. */
  ghost predicate RowPut(s: Site, o: OrderData, s': Site) {
    && s' == s.(rows := s.rows[o.id := o], inStack := s'.inStack, live := s'.live, limited := s'.limited)
    && s'.inStack <= s.inStack + {o.id} && s'.limited <= s.limited + {o.id}
    && (o.id in s'.limited ==> o.kind == External && !o.bot)
  }

  lemma {:induction false} PutKeeps(s: Site, o: OrderData, s': Site)
    requires SiteInv(s) && RowOk(s, o) && RowPut(s, o, s')
    ensures RowsStay(s, s') && Known(s', o)
    ensures Inv(s', if o.IsMarket() && o.state == Opened then Some(o.id) else None)
  {
    forall id | id in s'.rows ensures RowInv(s', id) {
      if id != o.id { assert RowInv(s, id); }
    }
    SameBookKnown(s, s');
    SameTape(s, s');
    QueueStays(s, s');
  }

  lemma {:induction false} SameBookKnown(s: Site, s': Site)
    requires BookKnown(s) && RowsStay(s, s') && Runs.BookInv(s'.book)
    requires forall bot, op, x :: x in s'.book.Pool(bot).Stack(op) ==> x in s.book.Pool(bot).Stack(op)
    ensures BookKnown(s')
  {
    forall bot, op, x | x in s'.book.Pool(bot).Stack(op) ensures Known(s', x) {
      assert x in s.book.Pool(bot).Stack(op);
      KnownStays(s, s', x);
    }
  }

  lemma {:induction false} SameTape(s: Site, s': Site)
    requires TapeInv(s) && RowsStay(s, s') && s'.tape == s.tape && s'.caps == s.caps && s'.traded == s.traded
    requires s'.records == s.records
    ensures TapeInv(s')
  {
    forall t | t in s'.tape ensures TradeInv(s', t) {
      assert TradeInv(s, t);
      KnownStays(s, s', t.taker);
      KnownStays(s, s', t.maker);
    }
    forall id ensures RecordInv(s', id) {
      assert RecordInv(s, id);
      if id in s.traded { assert id in s'.rows.Keys; }
    }
  }

  /** Fewer orders in the book, other flags in memory, a queue with nothing new. */
  lemma {:induction false} LessKeeps(s: Site, s': Site)
    requires SiteInv(s) && Runs.BookInv(s'.book)
    requires s' == s.(book := s'.book, live := s'.live, queue := s'.queue, placed := s'.placed, apart := s'.apart)
    requires forall bot, op, x :: x in s'.book.Pool(bot).Stack(op) ==> x in s.book.Pool(bot).Stack(op)
    requires forall p :: p in s'.queue ==> p in s.queue
    ensures SiteInv(s') && RowsStay(s, s')
  {
    forall id | id in s'.rows ensures RowInv(s', id) { assert RowInv(s, id); }
    SameBookKnown(s, s');
    SameTape(s, s');
    QueueStays(s, s');
  }

  lemma {:induction false} CreateKeeps(s: Site, o: OrderData)
    requires SiteInv(s) && Admissible(s, Create(o))
    ensures SiteInv(CreateSite(s, o)) && RowsStay(s, CreateSite(s, o))
  {
    var s1 := s.(rows := s.rows[o.id := o]);
    PutKeeps(s, o, s1);
    if o.kind != StopLimit {
      var s2 := s1.(inStack := s1.inStack + {o.id});
      PutKeeps(s, o, s2);
      if o.IsMarket() {
        var s3 := s2.(live := s.live + {o.id});
        PutKeeps(s, o, s3);
        FreshId(s, o);
        PoolAllLeft(s.book.Pool(o.bot), o);
        ProcessKeeps(s3, o);
      } else {
        EnqueueKeeps(s2, [Placement(o, true)]);
      }
    }
  }

  /** An id without a row rests nowhere. */
  lemma {:induction false} FreshId(s: Site, o: OrderData)
    requires BookKnown(s) && o.id !in s.rows
    ensures forall bot, op :: !HasId(s.book.Pool(bot).Stack(op), o.id)
  {
    forall bot, op, i | 0 <= i < |s.book.Pool(bot).Stack(op)| ensures s.book.Pool(bot).Stack(op)[i].id != o.id {
      assert Known(s, s.book.Pool(bot).Stack(op)[i]);
    }
  }

  lemma {:induction false} EnqueueKeeps(s: Site, ps: seq<Placement>)
    requires SiteInv(s)
    requires forall p :: p in ps ==>
               Runs.FromStore(p.order) && p.order.state == Opened && !p.order.IsMarket() && Known(s, p.order)
    ensures SiteInv(s.(queue := s.queue + ps))
  {
    var s' := s.(queue := s.queue + ps);
    forall id | id in s'.rows ensures RowInv(s', id) { assert RowInv(s, id); }
    SameBookKnown(s, s');
    SameTape(s, s');
    forall p | p in s'.queue ensures Known(s', p.order) {
      if p in s.queue { KnownStays(s, s', p.order); } else { assert p in ps; }
    }
  }

  lemma {:induction false} PlaceKeeps(s: Site, k: nat)
    requires SiteInv(s) && k < |s.queue|
    ensures SiteInv(PlaceSite(s, k)) && RowsStay(s, PlaceSite(s, k))
  {
    var p := s.queue[k];
    assert p in s.queue;
    var s1 := s.(queue := s.queue[..k] + s.queue[k + 1..]);
    LessKeeps(s, s1);
    if p.order.id !in s.placed {
      var s2 := s1.(placed := s.placed + {p.order.id});
      LessKeeps(s, s2);
      ArriveKeeps(s2, p);
      RowsChain(s, s2, Arrive(s2, p));
    }
  }

  /** A placed order, as it comes from the queue. */
  ghost predicate Arriving(s: Site, o: OrderData) {
    SiteInv(s) && Ready(s, o) && o.state == Opened && !o.IsMarket()
  }

  /** List and map stay together unless the order's entry has another price and the order is left open. */
  predicate StaysTogether(s: Site, o: OrderData) {
    var p := s.book.Pool(o.bot);
    HasId(p.Stack(o.op), o.id) ==> HoldsKey(p.Stack(o.op), o) || !EndsOpen(p, o)
  }

  lemma {:induction false} ArriveApart(s: Site, p: Placement)
    requires Arriving(s, p.order)
    ensures Arrive(s, p).apart == if StaysTogether(s, p.order) then s.apart else s.apart + {p.order.id}
    ensures Incoming(s.book.Pool(p.order.bot), p.order)
  {
    OtherSideLacks(s, p.order);
    PoolAllLeft(s.book.Pool(p.order.bot), p.order);
    var s1 := Flagged(s, p);
    LessKeeps(s, s1);
    ProcessKeeps(s1, p.order);
  }

  /** A sell order that trades until nothing or only dust is left takes the entry with its id out of the stack. */
  predicate SweepsEntry(s: Site, o: OrderData) {
    o.op == Sell && !o.IsMarket() && !EndsOpen(s.book.Pool(o.bot), o)
  }

  /** A buy order that finds enough is executed in full, beside an entry with its id. */
  lemma {:induction false} BoughtInFull(s: Site, o: OrderData)
    requires Arriving(s, o) && o.op == Buy && !EndsOpen(s.book.Pool(o.bot), o)
    ensures var r, s' := Matching.Process(s.book.Pool(o.bot), o), EnterBook(s, o);
            && r.trades != [] && SumQuantity(r.trades) == o.left && s'.tape == s.tape + r.trades
            && o.id in s'.rows && s'.rows[o.id].state == Closed
            && s'.book.Pool(o.bot).Stack(o.op) == s.book.Pool(o.bot).Stack(o.op)
            && TradesFit(s, o, r.trades)
  {
    var p := s.book.Pool(o.bot);
    OtherSideLacks(s, o);
    PoolAllLeft(p, o);
    EndsOpenIff(p, o);
    LimitOrderFilled(p, o);
    ProcessWrites(s, o);
    OrderFits(s, o);
  }

  /** With the entry's own price nothing comes of it. */
  lemma {:induction false} ArriveHeld(s: Site, p: Placement)
    requires Arriving(s, p.order) && HoldsKey(s.book.Pool(p.order.bot).Stack(p.order.op), p.order)
    ensures Arrive(s, p) == s
  {
    var o, pool := p.order, s.book.Pool(p.order.bot);
    var i :| 0 <= i < |pool.Stack(o.op)| && SameKey(pool.Stack(o.op)[i], o);
    ArriveApart(s, p);
    HeldMeetsNothing(pool, o, pool.Stack(o.op)[i]);
    RestsAtOnce(pool, o);
    assert HasId(pool.Stack(o.op), o.id);
    assert s.book.With(o.bot, pool) == s.book;
  }

  lemma {:induction false} ArriveKeeps(s: Site, p: Placement)
    requires SiteInv(s) && Ready(s, p.order) && !p.order.IsMarket()
    ensures SiteInv(Arrive(s, p)) && RowsStay(s, Arrive(s, p))
  {
    var s1 := Flagged(s, p);
    LessKeeps(s, s1);
    ProcessKeeps(s1, p.order);
    LessKeeps(EnterBook(s1, p.order), Arrive(s, p));
  }

  lemma {:induction false} UpdateKeeps(s: Site, id: int, d: UpdateData, allowed: bool)
    requires SiteInv(s) && id in s.rows
    ensures SiteInv(UpdateSite(s, id, d, allowed)) && RowsStay(s, UpdateSite(s, id, d, allowed))
  {
    var row := Loaded(s.rows[id]);
    var u := Updated(s, id, d, allowed);
    var out := s.(book := Runs.RemoveFromStack(s.book, row));
    assert RowInv(s, id);
    Runs.RemoveKeeps(s.book, row);
    LessKeeps(s, out);
    if u.Some? {
      UpdateKeepsExecuted(row, d, allowed);
      var saved := WriteUpdate(out, u.value);
      PutKeeps(out, u.value, saved);
      if HasId(s.book.user.Stack(row.op), id) {
        UserRow(s, row.op, id);
        var s1 := saved.(live := if id in s.inStack then s.live + {id} else s.live - {id});
        PutKeeps(out, u.value, s1);
        ProcessKeeps(s1, u.value);
      }
    }
  }

  /** What rests in a user stack is a user's. */
  lemma {:induction false} UserRow(s: Site, op: Operation, id: int)
    requires SiteInv(s) && HasId(s.book.user.Stack(op), id)
    ensures id in s.rows && !s.rows[id].bot
  {
    var i :| 0 <= i < |s.book.user.Stack(op)| && s.book.user.Stack(op)[i].id == id;
    var x := s.book.user.Stack(op)[i];
    assert x in s.book.Pool(false).Stack(op);
    assert Known(s, x) && Resting(x, op, false);
  }

  /** What is left in the book after a known order of a user is taken out has other ids. */
  lemma {:induction false} RemovedId(s: Site, o: OrderData, bot: bool, op: Operation, x: OrderData)
    requires SiteInv(s) && Known(s, o) && !o.bot && x in Runs.RemoveFromStack(s.book, o).Pool(bot).Stack(op)
    ensures x in s.book.Pool(bot).Stack(op) && x.id != o.id
  {
    Runs.RemoveKeeps(s.book, o);
    assert x in s.book.Pool(bot).Stack(op) && Known(s, x) && Resting(x, op, bot);
    if op == o.op && !bot {
      var st := Runs.RemoveFromStack(s.book, o).user.Stack(o.op);
      var j :| 0 <= j < |st| && st[j] == x;
    }
  }

  /** An accepted update, before the order is processed again. */
  lemma {:induction false} UpdateReady(s: Site, id: int, d: UpdateData, allowed: bool) returns (s1: Site)
    requires SiteInv(s) && id in s.rows && Updated(s, id, d, allowed).Some?
    requires HasId(s.book.user.Stack(s.rows[id].op), id)
    ensures var u := Updated(s, id, d, allowed).value;
            && SiteInv(s1) && Fresh(s1, u) && !u.IsMarket() && u.state == Opened && u.id == id && s1.rows[id] == u
            && UpdateSite(s, id, d, allowed) == EnterBook(s1, u)
            && s1 == s.(book := Runs.RemoveFromStack(s.book, Loaded(s.rows[id])), rows := s.rows[id := u],
                        live := if id in s.inStack then s.live + {id} else s.live - {id},
                        limited := if u.WithinOtcLimit() then s.limited else s.limited - {id})
  {
    var row, u := Loaded(s.rows[id]), Updated(s, id, d, allowed).value;
    assert RowInv(s, id);
    Runs.RemoveKeeps(s.book, row);
    var out := s.(book := Runs.RemoveFromStack(s.book, row));
    LessKeeps(s, out);
    UpdateKeepsExecuted(row, d, allowed);
    UserRow(s, row.op, id);
    s1 := WriteUpdate(out, u).(live := if id in s.inStack then s.live + {id} else s.live - {id});
    PutKeeps(out, u, s1);
  }

  lemma {:induction false} CancelKeeps(s: Site, id: int)
    requires SiteInv(s) && id in s.rows
    ensures SiteInv(CancelSite(s, id)) && RowsStay(s, CancelSite(s, id))
  {
    var row := s.rows[id];
    assert RowInv(s, id);
    var s1 := s.(book := Runs.BookCancel(s.book, row));
    Runs.CancelKeeps(s.book, row);
    WithoutContents(s.book.Pool(row.bot).Stack(row.op), row.id);
    LessKeeps(s, s1);
    var s2 := s1.(rows := s.rows[id := row.Cancel()]);
    PutKeeps(s1, row.Cancel(), s2);
    if row.state == Opened {
      RecordKeeps(s2, id, Record(row.op, row.price));
    }
  }

  lemma {:induction false} RecordKeeps(s: Site, id: int, r: Record)
    requires SiteInv(s) && id in s.rows && r.op == s.rows[id].op
    ensures SiteInv(s.(records := s.records[id := r]))
  {
    var s' := s.(records := s.records[id := r]);
    forall i | i in s'.rows ensures RowInv(s', i) { assert RowInv(s, i); }
    SameBookKnown(s, s');
    QueueStays(s, s');
    forall t | t in s'.tape ensures TradeInv(s', t) { assert TradeInv(s, t); }
    forall i ensures RecordInv(s', i) { assert RecordInv(s, i); }
  }

  lemma {:induction false} TriggerKeeps(s: Site, id: int, shown: set<int>, found: seq<OrderData>)
    requires SiteInv(s) && Admissible(s, Trigger(id, shown, found))
    ensures SiteInv(TriggerSite(s, found)) && RowsStay(s, TriggerSite(s, found))
  {
    var s1 := s.(inStack := s.inStack + Ids(found));
    forall o | o in found ensures RowInv(s, o.id) && o.id in s.rows {}
    forall i | i in s1.rows ensures RowInv(s1, i) { assert RowInv(s, i); }
    SameBookKnown(s, s1);
    SameTape(s, s1);
    QueueStays(s, s1);
    forall p | p in Placements(found)
      ensures Runs.FromStore(p.order) && p.order.state == Opened && !p.order.IsMarket() && Known(s1, p.order)
    {
      var i :| 0 <= i < |found| && Placements(found)[i] == p;
      assert found[i] in found && RowInv(s, found[i].id);
    }
    EnqueueKeeps(s1, Placements(found));
  }

  /** A repriced row: the candidate's, with a price within its limit. */
  ghost predicate RepricedFrom(s: Site, u: OrderData) {
    && u.id in s.rows && u == Loaded(s.rows[u.id]).(price := u.price, otcUpdated := true)
    && u.WithinOtcLimit() && u.price > 0 && u.kind == External && !u.bot && u.state == Opened && u.left > 0
  }

  lemma {:induction false} RepriceWrites(s: Site, cs: seq<Candidate>, current: real, u: OrderData)
    requires SiteInv(s) && Admissible(s, Reprice(cs, current)) && u in RepriceAll(cs, current)
    ensures RepricedFrom(s, u)
    decreases |cs|
  {
    var c := cs[0];
    var first := OrderUpdates.Reprice(c, current);
    assert c in cs && RowInv(s, c.order.id);
    if first.Some? && u == first.value {
      RepriceWithinLimit(c, current);
    } else {
      assert u in RepriceAll(cs[1..], current);
      forall x | x in cs[1..] ensures x in cs {}
      RepriceWrites(s, cs[1..], current, u);
    }
  }

  lemma {:induction false} RepriceCandidates(s: Site, cs: seq<Candidate>, current: real)
    requires SiteInv(s) && Admissible(s, Reprice(cs, current))
    ensures var us := RepriceAll(cs, current);
            Runs.UniqueOrderIds(us) && forall u :: u in us ==> RepricedFrom(s, u)
  {
    forall c | c in cs ensures Runs.FromStore(c.order) { assert RowInv(s, c.order.id); }
    Runs.RepriceAllSane(cs, current);
    forall u | u in RepriceAll(cs, current) ensures RepricedFrom(s, u) { RepriceWrites(s, cs, current, u); }
  }

  lemma {:induction false} RepricedKeeps(s: Site, us: seq<OrderData>)
    requires SiteInv(s) && Runs.UniqueOrderIds(us)
    requires forall u :: u in us ==> RowOk(s, u) && u.id in s.rows && u.kind == External && !u.bot
    ensures var s' := Repriced(s, us);
            && SiteInv(s') && RowsStay(s, s') && s'.rows.Keys == s.rows.Keys
            && (forall id :: id in s.rows && id !in Ids(us) ==> s'.rows[id] == s.rows[id])
            && (forall u :: u in us ==> s'.rows[u.id] == u)
    decreases |us|
  {
    if us != [] {
      var u, rest := us[0], us[1..];
      assert u in us;
      var s1 := s.(rows := s.rows[u.id := u], limited := s.limited + {u.id});
      PutKeeps(s, u, s1);
      assert Ids(us) == {u.id} + Ids(rest) by { assert us == [u] + rest; }
      assert Repriced(s, us) == Repriced(s1, rest) by {
        assert s.limited + Ids(us) == (s.limited + {u.id}) + Ids(rest);
      }
      RestUnique(us);
      forall x | x in rest ensures RowOk(s1, x) && x.id in s1.rows && x.kind == External && !x.bot && x.id != u.id {
        assert x in us;
        KnownStays(s, s1, x);
      }
      RepricedKeeps(s1, rest);
      forall x | x in us ensures Repriced(s, us).rows[x.id] == x {
        if x !in rest { assert x == u && u.id !in Ids(rest); }
      }
    } else {
      assert s.limited + Ids(us) == s.limited;
    }
  }

  lemma {:induction false} RestUnique(us: seq<OrderData>)
    requires Runs.UniqueOrderIds(us) && us != []
    ensures Runs.UniqueOrderIds(us[1..]) && forall x :: x in us[1..] ==> x.id != us[0].id
  {
    var rest := us[1..];
    forall i, j | 0 <= i < j < |rest| ensures rest[i].id != rest[j].id { assert us[i + 1].id != us[j + 1].id; }
    forall x | x in rest ensures x.id != us[0].id {
      var i :| 0 <= i < |rest| && rest[i] == x;
      assert us[i + 1] == x;
    }
  }

  lemma {:induction false} BotsStay(b: Runs.Book, us: seq<OrderData>)
    ensures Runs.RemoveAll(b, us).bots == b.bots
    decreases |us|
  {
    if us != [] {
      BotsStay(Runs.RemoveFromStack(b, us[0]), us[1..]);
    }
  }

  /** The repriced orders, out of their stacks and ready to be processed again. */
  lemma {:induction false} RemovedReady(s: Site, us: seq<OrderData>, live: set<int>)
    requires SiteInv(s) && Runs.UniqueOrderIds(us)
    requires forall u :: u in us ==>
               u.id in s.rows && s.rows[u.id] == u && u.kind == External && !u.bot && u.WithinOtcLimit()
    ensures var s2 := s.(book := Runs.RemoveAll(s.book, us), live := live);
            SiteInv(s2) && RowsStay(s, s2) && forall u :: u in us ==> Fresh(s2, u) && !u.IsMarket()
    ensures forall bot, op, x :: x in Runs.RemoveAll(s.book, us).Pool(bot).Stack(op) ==>
              x in s.book.Pool(bot).Stack(op) && x.id !in Ids(us)
  {
    var b := Runs.RemoveAll(s.book, us);
    Runs.RemoveAllKeeps(s.book, us);
    BotsStay(s.book, us);
    var s2 := s.(book := b, live := live);
    LessKeeps(s, s2);
    forall u | u in us ensures Fresh(s2, u) && !u.IsMarket() {
      var i :| 0 <= i < |us| && us[i] == u;
      assert RowInv(s, u.id);
    }
    forall bot, op, x | x in b.Pool(bot).Stack(op) ensures x in s.book.Pool(bot).Stack(op) && x.id !in Ids(us) {
      RemovedGone(s, us, bot, op, x);
    }
  }

  lemma {:induction false} RemovedGone(s: Site, us: seq<OrderData>, bot: bool, op: Operation, x: OrderData)
    requires SiteInv(s) && x in Runs.RemoveAll(s.book, us).Pool(bot).Stack(op)
    requires forall u :: u in us ==> u.id in s.rows && s.rows[u.id] == u && !u.bot
    ensures x in s.book.Pool(bot).Stack(op) && x.id !in Ids(us)
  {
    Runs.RemoveAllKeeps(s.book, us);
    BotsStay(s.book, us);
    assert x in s.book.Pool(bot).Stack(op) && Known(s, x) && Resting(x, op, bot);
    forall u | u in us ensures u.id != x.id {
      if !bot && u.op == op {
        var i :| 0 <= i < |us| && us[i] == u;
        var st := Runs.RemoveAll(s.book, us).user.Stack(us[i].op);
        var j :| 0 <= j < |st| && st[j] == x;
        assert !HasId(st, us[i].id);
      }
    }
  }

  /** The rows a bulk reprice writes. */
  ghost predicate RowsRepriced(s: Site, us: seq<OrderData>, s1: Site) {
    && SiteInv(s1) && RowsStay(s, s1) && s1.rows.Keys == s.rows.Keys && s1.book == s.book
    && (forall id :: id in s.rows && id !in Ids(us) ==> s1.rows[id] == s.rows[id])
    && (forall u :: u in us ==> u.id in s1.rows && s1.rows[u.id] == u)
  }

  lemma {:induction false} RepricedRows(s: Site, us: seq<OrderData>)
    requires SiteInv(s) && Runs.UniqueOrderIds(us) && forall u :: u in us ==> RepricedFrom(s, u)
    ensures RowsRepriced(s, us, Repriced(s, us))
  {
    RepricedKeeps(s, us);
  }

  /** And then its orders taken out of their stacks. */
  lemma {:induction false} RepricedOut(s: Site, us: seq<OrderData>, s1: Site, live: set<int>)
    requires Runs.UniqueOrderIds(us) && RowsRepriced(s, us, s1) && forall u :: u in us ==> RepricedFrom(s, u)
    ensures var s2 := s1.(book := Runs.RemoveAll(s.book, us), live := live);
            && SiteInv(s2) && RowsStay(s1, s2)
            && forall u :: u in us ==> Fresh(s2, u) && !u.IsMarket()
    ensures forall bot, op, x :: x in Runs.RemoveAll(s.book, us).Pool(bot).Stack(op) ==>
              x in s.book.Pool(bot).Stack(op) && x.id !in Ids(us)
  {
    forall u | u in us ensures u.WithinOtcLimit() && u.kind == External && !u.bot { assert RepricedFrom(s, u); }
    RemovedReady(s1, us, live);
  }

  lemma {:induction false} RowsChain(a: Site, b: Site, c: Site)
    requires RowsStay(a, b) && RowsStay(b, c)
    ensures RowsStay(a, c)
  {
    forall id | id in a.rows ensures id in c.rows { assert id in b.rows.Keys; assert id in c.rows.Keys; }
  }

  lemma {:induction false} RepriceKeeps(s: Site, cs: seq<Candidate>, current: real)
    requires SiteInv(s) && Admissible(s, Reprice(cs, current))
    ensures SiteInv(RepriceSite(s, cs, current)) && RowsStay(s, RepriceSite(s, cs, current))
  {
    var us := RepriceAll(cs, current);
    RepriceCandidates(s, cs, current);
    if AnyRaises(cs, current) {
      RepricedKeeps(s, us);
    } else {
      RepricedRows(s, us);
      var s2 := RemovedRepriced(s, us);
      RepricedOut(s, us, Repriced(s, us), s2.live);
      ProcessAllKeeps(s2, us);
      RowsChain(s, Repriced(s, us), s2);
      RowsChain(s, s2, RepriceSite(s, cs, current));
    }
  }

  lemma {:induction false} ReloadReady(s: Site, os: seq<OrderData>)
    requires SiteInv(s) && Admissible(s, Reload(os))
    ensures var s1 := Emptied(s, os);
            SiteInv(s1) && RowsStay(s, s1) && forall o :: o in os ==> Fresh(s1, o) && !o.IsMarket()
  {
    var s1 := Emptied(s, os);
    LessKeeps(s, s1);
    forall o | o in os ensures Fresh(s1, o) && !o.IsMarket() {
      assert RowInv(s, o.id);
    }
  }

  lemma {:induction false} ReloadKeeps(s: Site, os: seq<OrderData>)
    requires SiteInv(s) && Admissible(s, Reload(os))
    ensures SiteInv(ReloadSite(s, os)) && RowsStay(s, ReloadSite(s, os))
  {
    ReloadReady(s, os);
    ProcessAllKeeps(Emptied(s, os), os);
  }

  /** What the book has no part in. */
  ghost predicate SameElsewhere(s: Site, s': Site) {
    && s'.queue == s.queue && s'.live == s.live && s'.limited == s.limited
    && s'.placed == s.placed && s'.apart == s.apart
  }

  lemma {:induction false} EnterElsewhere(s: Site, o: OrderData)
    ensures SameElsewhere(s, EnterBook(s, o))
  {
    var r := Matching.Process(s.book.Pool(o.bot), o);
    TradesKept(s.(book := s.book.With(o.bot, r.pool)), r.trades);
  }

  lemma {:induction false} EnterAllElsewhere(s: Site, os: seq<OrderData>)
    ensures SameElsewhere(s, EnterAll(s, os))
    decreases |os|
  {
    if os != [] {
      EnterElsewhere(s, os[0]);
      EnterAllElsewhere(EnterBook(s, os[0]), os[1..]);
    }
  }

  /** Only a placement takes list and map of a stack apart, and a restart puts them together again. */
  lemma {:induction false} OthersKeepTogether(s: Site, e: Event)
    requires Admissible(s, e) && !e.Place?
    ensures Apply(s, e).apart == {}
  {
    match e
    case Create(o) =>
      if o.IsMarket() {
        EnterElsewhere(s.(rows := s.rows[o.id := o], inStack := s.inStack + {o.id}, live := s.live + {o.id}), o);
      }
    case Update(id, d, allowed) =>
      var row, u := Loaded(s.rows[id]), Updated(s, id, d, allowed);
      if u.Some? && HasId(s.book.user.Stack(row.op), id) {
        var saved := WriteUpdate(s.(book := Runs.RemoveFromStack(s.book, row)), u.value);
        EnterElsewhere(saved.(live := if id in s.inStack then s.live + {id} else s.live - {id}), u.value);
      }
    case Reprice(cs, current) =>
      var us := RepriceAll(cs, current);
      EnterAllElsewhere(RemovedRepriced(s, us), us);
    case Reload(os) => EnterAllElsewhere(Emptied(s, os), os);
    case _ =>
  }

  /** What the matcher makes of an order and the pool of its owner is in the book and on the tape. */
  ghost predicate Matched(s: Site, o: OrderData, s': Site) {
    var r := Matching.Process(s.book.Pool(o.bot), o);
    s'.book == s.book.With(o.bot, r.pool) && s'.tape == s.tape + r.trades
  }

  /** After a bulk reprice the objects of the repriced orders carry the flags of their rows. */
  lemma {:induction false} RepricedFlags(s: Site, cs: seq<Candidate>, current: real, id: int)
    requires Admissible(s, Reprice(cs, current)) && !AnyRaises(cs, current)
    ensures id in Apply(s, Reprice(cs, current)).live <==>
            if exists u :: u in RepriceAll(cs, current) && u.id == id then id in s.inStack else id in s.live
  {
    var us := RepriceAll(cs, current);
    EnterAllElsewhere(RemovedRepriced(s, us), us);
    assert id in Ids(us) <==> exists u :: u in us && u.id == id;
  }

  lemma {:induction false} ArriveMatches(s: Site, p: Placement)
    ensures Matched(s, p.order, Arrive(s, p))
    ensures Arrive(s, p).queue == s.queue && Arrive(s, p).placed == s.placed
  {
    var s1 := Flagged(s, p);
    var r := Matching.Process(s.book.Pool(p.order.bot), p.order);
    EnterElsewhere(s1, p.order);
    TradesKept(s1.(book := s.book.With(p.order.bot, r.pool)), r.trades);
  }

  /**
   A message is taken off the queue and leaves the key of its order set. While the key was set
   nothing else is done; otherwise its order goes through the matcher.
   */
  lemma {:induction false} MessageTaken(s: Site, k: nat)
    requires Admissible(s, Place(k))
    ensures var id, s' := s.queue[k].order.id, Apply(s, Place(k));
            && s'.queue == s.queue[..k] + s.queue[k + 1..] && s'.placed == s.placed + {id}
            && if id in s.placed then s' == s.(queue := s'.queue) else Matched(s, s.queue[k].order, s')
  {
    var p := s.queue[k];
    if p.order.id in s.placed {
      assert s.placed + {p.order.id} == s.placed;
    } else {
      ArriveMatches(s.(queue := s.queue[..k] + s.queue[k + 1..], placed := s.placed + {p.order.id}), p);
    }
  }

  /** Once its key has lapsed, the order of a message is matched whatever was placed before. */
  lemma {:induction false} ExpiredIsTaken(s: Site, k: nat)
    requires Admissible(s, Place(k))
    ensures var id, s1 := s.queue[k].order.id, Apply(s, Expire(s.queue[k].order.id));
            s1 == s.(placed := s.placed - {id}) && Matched(s1, s.queue[k].order, Apply(s1, Place(k)))
  {
    MessageTaken(Apply(s, Expire(s.queue[k].order.id)), k);
  }

  /** A new limit or auto order: stored, flagged and queued; delivered, it goes through the matcher. */
  lemma {:induction false} NewOrderIsMatched(s: Site, o: OrderData)
    requires Admissible(s, Create(o)) && (o.kind == Limit || o.kind == External) && o.id !in s.placed
    ensures var s1 := Apply(s, Create(o));
            && s1 == s.(rows := s.rows[o.id := o], inStack := s.inStack + {o.id},
                        queue := s.queue + [Placement(o, true)])
            && Admissible(s1, Place(|s.queue|))
            && var s2 := Apply(s1, Place(|s.queue|));
               s2.queue == s.queue && s2.placed == s.placed + {o.id} && Matched(s, o, s2)
  {
    var s1 := Apply(s, Create(o));
    MessageTaken(s1, |s.queue|);
    assert s1.queue[..|s.queue|] + s1.queue[|s.queue| + 1..] == s.queue;
  }

  lemma {:induction false} ApplyKeeps(s: Site, e: Event)
    requires SiteInv(s) && Admissible(s, e)
    ensures SiteInv(Apply(s, e)) && RowsStay(s, Apply(s, e))
  {
    match e
    case Create(o) => CreateKeeps(s, o);
    case Place(k) => PlaceKeeps(s, k);
    case Update(id, d, allowed) => UpdateKeeps(s, id, d, allowed);
    case Reprice(cs, current) => RepriceKeeps(s, cs, current);
    case Cancel(id) => CancelKeeps(s, id);
    case Trigger(id, shown, found) => TriggerKeeps(s, id, shown, found);
    case Expire(id) => LessKeeps(s, s.(placed := s.placed - {id}));
    case Reload(os) => ReloadKeeps(s, os);
  }

  /** In every run whatever: rows, records, queue, tape and book fit together. */
  lemma {:induction false} RunKeeps(s: Site, es: seq<Event>)
    requires SiteInv(s) && AdmissibleRun(s, es)
    ensures SiteInv(Run(s, es))
    decreases |es|
  {
    if es != [] {
      ApplyKeeps(s, es[0]);
      RunKeeps(Apply(s, es[0]), es[1..]);
    }
  }

  lemma {:induction false} StartInv()
    ensures SiteInv(START)
  {
  }
}
