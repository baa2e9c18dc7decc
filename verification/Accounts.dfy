/** What an order has traded and what is left of it, over whole runs of a site. */
module Accounts {
  import opened OrderTypes
  import opened StackModel
  import opened Matching
  import opened OrderUpdates
  import opened Sites
  import Runs

  /** How much of an order the trade moved. */
  function Part(t: Trade, id: int): int {
    (if t.taker.id == id then t.quantity else 0) + if t.maker.id == id then t.quantity else 0
  }

  /** How much of an order was traded, on either side. */
  function Filled(tape: seq<Trade>, id: int): int {
    if tape == [] then 0 else Part(tape[0], id) + Filled(tape[1..], id)
  }

  /** What was traded and what is left add up to the quantity. */
  ghost predicate Accounted(o: OrderData, tape: seq<Trade>) {
    Filled(tape, o.id) + o.left == o.quantity
  }

  /** Every order, stored or resting, is accounted for. */
  ghost predicate Conserved(s: Site) {
    && (forall id :: id in s.rows ==> Accounted(s.rows[id], s.tape))
    && (forall bot, op, x :: x in s.book.Pool(bot).Stack(op) ==> Accounted(x, s.tape))
  }

  /** That, and the lists and maps of the stacks hold the same. */
  ghost predicate AllConserved(s: Site) {
    Conserved(s) && s.apart == {}
  }

  /** In particular none has traded more than its quantity. */
  lemma {:induction false} NoneOvertraded(s: Site, id: int)
    requires SiteInv(s) && Conserved(s) && id in s.rows
    ensures Filled(s.tape, id) <= s.rows[id].quantity
  {
    assert RowInv(s, id) && Accounted(s.rows[id], s.tape);
  }

  lemma {:induction false} FilledConcat(a: seq<Trade>, b: seq<Trade>, id: int)
    ensures Filled(a + b, id) == Filled(a, id) + Filled(b, id)
    decreases |a|
  {
    if a == [] {
      assert a + b == b;
    } else {
      assert (a + b)[0] == a[0] && (a + b)[1..] == a[1..] + b;
      FilledConcat(a[1..], b, id);
    }
  }

  ghost predicate NoParty(ts: seq<Trade>, id: int) {
    forall i :: 0 <= i < |ts| ==> ts[i].taker.id != id && ts[i].maker.id != id
  }

  lemma {:induction false} NoneFilled(ts: seq<Trade>, id: int)
    requires NoParty(ts, id)
    ensures Filled(ts, id) == 0
  {
    if ts != [] {
      assert ts[0].taker.id != id;
      forall i | 0 <= i < |ts[1..]| ensures ts[1..][i].taker.id != id && ts[1..][i].maker.id != id {
        assert ts[i + 1].taker.id != id;
      }
      NoneFilled(ts[1..], id);
    }
  }

  /** One taker's trades fill it by their sum. */
  lemma {:induction false} TakerFilled(ts: seq<Trade>, id: int)
    requires forall i :: 0 <= i < |ts| ==> ts[i].taker.id == id && ts[i].maker.id != id
    ensures Filled(ts, id) == SumQuantity(ts)
  {
    if ts != [] {
      assert ts[0].taker.id == id;
      forall i | 0 <= i < |ts[1..]| ensures ts[1..][i].taker.id == id && ts[1..][i].maker.id != id {
        assert ts[i + 1].taker.id == id;
      }
      TakerFilled(ts[1..], id);
    }
  }

  /** A maker that trades once is filled by that trade. */
  lemma {:induction false} MakerFilled(ts: seq<Trade>, i: nat)
    requires i < |ts|
    requires forall j :: 0 <= j < |ts| ==> ts[j].taker.id != ts[i].maker.id
    requires forall j :: 0 <= j < |ts| && j != i ==> ts[j].maker.id != ts[i].maker.id
    ensures Filled(ts, ts[i].maker.id) == ts[i].quantity
  {
    var id := ts[i].maker.id;
    var before, after := ts[..i], ts[i + 1..];
    assert ts == before + ([ts[i]] + after);
    FilledConcat(before, [ts[i]] + after, id);
    FilledConcat([ts[i]], after, id);
    NoneFilled(before, id);
    forall j | 0 <= j < |after| ensures after[j].taker.id != id && after[j].maker.id != id {
      assert after[j] == ts[i + 1 + j];
    }
    NoneFilled(after, id);
    assert [ts[i]][1..] == [];
  }

  // ---- One order through the book ----

  lemma {:induction false} MakerAccounted(s: Site, o: OrderData, ts: seq<Trade>, i: nat)
    requires BookKnown(s) && Conserved(s) && TradesFit(s, o, ts) && i < |ts|
    ensures Accounted(SettleMaker(ts[i].maker, ts[i].quantity), s.tape + ts)
  {
    MakerAt(s, o, ts, i);
    var m := ts[i].maker;
    assert m in s.book.Pool(o.bot).Stack(o.op.Other());
    assert Accounted(m, s.tape);
    MakerFilled(ts, i);
    FilledConcat(s.tape, ts, m.id);
  }

  lemma {:induction false} OwnAccount(s: Site, o: OrderData, r: Outcome)
    requires TradesFit(s, o, r.trades) && Same(r.order, o) && o.left - r.order.left == SumQuantity(r.trades)
    ensures Accounted(r.order, s.tape + r.trades) <==> Accounted(o, s.tape)
  {
    TakerFilled(r.trades, o.id);
    FilledConcat(s.tape, r.trades, o.id);
  }

  lemma {:induction false} OtherAccounted(tape: seq<Trade>, ts: seq<Trade>, x: OrderData)
    requires Accounted(x, tape) && NoParty(ts, x.id)
    ensures Accounted(x, tape + ts)
  {
    NoneFilled(ts, x.id);
    FilledConcat(tape, ts, x.id);
  }

  lemma {:induction false} PartyFree(s: Site, o: OrderData, ts: seq<Trade>, id: int)
    requires TradesFit(s, o, ts) && id != o.id && !IsMaker(ts, id)
    ensures NoParty(ts, id)
  {
  }

  lemma {:induction false} RestAccounted(s: Site, o: OrderData, r: Outcome, bot: bool, op: Operation, x: OrderData)
    requires BookKnown(s) && Conserved(s) && Accounted(o, s.tape) && TradesFit(s, o, r.trades) && Same(r.order, o)
    requires o.left - r.order.left == SumQuantity(r.trades) && RestsAfter(s, o, r, bot, op, x)
    requires !EntryStays(s, o, r, x)
    ensures Accounted(x, s.tape + r.trades)
  {
    if LeftOver(r.trades, x) {
      var i :| 0 <= i < |r.trades| && x == SettleMaker(r.trades[i].maker, r.trades[i].quantity);
      MakerAccounted(s, o, r.trades, i);
    } else if x == r.order {
      OwnAccount(s, o, r);
    } else {
      PartyFree(s, o, r.trades, x.id);
      OtherAccounted(s.tape, r.trades, x);
    }
  }

  lemma {:induction false} RowAccounted(s: Site, o: OrderData, r: Outcome, s': Site, id: int)
    requires SiteRowsKnown(s) && BookKnown(s) && Conserved(s) && Accounted(o, s.tape)
    requires TradesFit(s, o, r.trades) && Same(r.order, o) && o.left - r.order.left == SumQuantity(r.trades)
    requires RowsAfter(s, o, r, s') && id in s'.rows
    ensures Accounted(s'.rows[id], s.tape + r.trades)
  {
    assert id in s.rows.Keys;
    if IsMaker(r.trades, id) {
      var i := MakerTrade(s, o, r.trades, id);
      MakerAccounted(s, o, r.trades, i);
    } else if id == o.id && Touched(o, r) {
      OwnAccount(s, o, r);
    } else if id == o.id {
      assert s.tape + r.trades == s.tape;
    } else {
      PartyFree(s, o, r.trades, id);
      OtherAccounted(s.tape, r.trades, s.rows[id]);
    }
  }

  ghost predicate SiteRowsKnown(s: Site) {
    forall id :: id in s.rows ==> s.rows[id].id == id
  }

  lemma {:induction false} EnterKeepsAccounts(s: Site, o: OrderData)
    requires SiteRowsKnown(s) && BookKnown(s) && Conserved(s) && Accounted(o, s.tape) && Ready(s, o)
    requires HadEntry(s, o) ==> o.state == Opened && SweepsEntry(s, o)
    ensures Conserved(EnterBook(s, o))
  {
    var p := s.book.Pool(o.bot);
    if o.state == Opened && !HasId(p.Stack(o.op.Other()), o.id) {
      PoolAllLeft(p, o);
      var r, s' := Matching.Process(p, o), EnterBook(s, o);
      ProcessWrites(s, o);
      OrderFits(s, o);
      OrderEnds(p, o);
      forall id | id in s'.rows ensures Accounted(s'.rows[id], s'.tape) { RowAccounted(s, o, r, s', id); }
      forall bot, op, x | x in s'.book.Pool(bot).Stack(op) ensures Accounted(x, s'.tape) {
        ProcessRests(s, o, bot, op, x);
        if HadEntry(s, o) { EndsOpenIff(p, o); }
        RestAccounted(s, o, r, bot, op, x);
      }
    } else {
      IdleProcess(s, o);
    }
  }

  /** A buy order that trades in full leaves the entry with its id, with all that was left of it. */
  lemma {:induction false} EntryBreaks(s: Site, o: OrderData)
    requires Arriving(s, o) && Conserved(s) && HadEntry(s, o) && o.op == Buy
    requires !EndsOpen(s.book.Pool(o.bot), o)
    ensures !Conserved(EnterBook(s, o))
  {
    var r, own := Matching.Process(s.book.Pool(o.bot), o), s.book.Pool(o.bot).Stack(o.op);
    BoughtInFull(s, o);
    var i :| 0 <= i < |own| && own[i].id == o.id;
    assert own[i] in s.book.Pool(o.bot).Stack(o.op);
    assert Accounted(own[i], s.tape);
    TakerFilled(r.trades, o.id);
    FilledConcat(s.tape, r.trades, o.id);
    assert !Accounted(own[i], EnterBook(s, o).tape);
  }

  /** An order that comes with another executed part than its row breaks the account, whether it trades or rests. */
  lemma {:induction false} StaleBreaks(s: Site, o: OrderData)
    requires Arriving(s, o) && !Accounted(o, s.tape)
    requires HadEntry(s, o) ==> !EndsOpen(s.book.Pool(o.bot), o)
    ensures !Conserved(EnterBook(s, o))
  {
    var p := s.book.Pool(o.bot);
    var r, s' := Matching.Process(p, o), EnterBook(s, o);
    OtherSideLacks(s, o);
    PoolAllLeft(p, o);
    EndsOpenIff(p, o);
    if r.trades == [] {
      NoTradeRests(s, o);
    } else {
      ProcessWrites(s, o);
      OrderFits(s, o);
      OrderEnds(p, o);
      OwnAccount(s, o, r);
      assert !Accounted(s'.rows[o.id], s'.tape);
    }
  }

  lemma {:induction false} EnterOneKeeps(s: Site, o: OrderData)
    requires SiteInv(s) && Conserved(s) && Fresh(s, o) && o.id in s.rows && SameAccount(o, s.rows[o.id])
    ensures Conserved(EnterBook(s, o))
  {
    assert RowInv(s, o.id) && Accounted(s.rows[o.id], s.tape);
    SiteRows(s);
    EnterKeepsAccounts(s, o);
  }

  lemma {:induction false} EnterAllKeepsAccounts(s: Site, os: seq<OrderData>)
    requires SiteInv(s) && Conserved(s) && Runs.UniqueOrderIds(os)
    requires forall o :: o in os ==> Fresh(s, o) && !o.IsMarket() && o.id in s.rows && SameAccount(o, s.rows[o.id])
    ensures Conserved(EnterAll(s, os))
    decreases |os|
  {
    if os != [] {
      assert os[0] in os;
      EnterOneKeeps(s, os[0]);
      ProcessKeeps(s, os[0]);
      FreshStays(s, os);
      var s1 := EnterBook(s, os[0]);
      forall x | x in os[1..] ensures x.id in s1.rows && SameAccount(x, s1.rows[x.id]) {
        RestUnique(os);
        WaitingRow(s, os[0], x);
      }
      EnterAllKeepsAccounts(s1, os[1..]);
    }
  }

  lemma {:induction false} SiteRows(s: Site)
    requires SiteInv(s)
    ensures SiteRowsKnown(s)
  {
    forall id | id in s.rows ensures s.rows[id].id == id { assert RowInv(s, id); }
  }

  /** The same quantity, and the same left of it. */
  predicate SameAccount(o: OrderData, row: OrderData) {
    o.quantity == row.quantity && o.left == row.left
  }

  // ---- Every event ----

  /**
   Before a placement that is not dropped: its order was executed as far as its row was. If
   a restart or the updater has brought the order in before, it must have the price of its
   entry, or else be a sell order that finds enough to trade with.
   */
  predicate PlaceCurrent(s: Site, k: nat)
    requires k < |s.queue|
  {
    var o := s.queue[k].order;
    o.id in s.placed || ArrivesCurrent(s, o)
  }

  predicate ArrivesCurrent(s: Site, o: OrderData) {
    var p := s.book.Pool(o.bot);
    if HasId(p.Stack(o.op), o.id) then HoldsKey(p.Stack(o.op), o) || (SweepsEntry(s, o) && ExecutedAlike(s, o))
    else ExecutedAlike(s, o)
  }

  predicate ExecutedAlike(s: Site, o: OrderData) {
    o.id in s.rows && o.quantity - o.left == s.rows[o.id].quantity - s.rows[o.id].left
  }

  ghost predicate Current(s: Site, e: Event)
    requires Admissible(s, e)
  {
    e.Place? ==> PlaceCurrent(s, e.k)
  }

  lemma {:induction false} SameAccounts(s: Site, s': Site)
    requires Conserved(s) && s'.tape == s.tape
    requires forall bot, op, x :: x in s'.book.Pool(bot).Stack(op) ==> x in s.book.Pool(bot).Stack(op)
    requires forall id :: id in s'.rows ==> Accounted(s'.rows[id], s.tape)
    ensures Conserved(s')
  {
  }

  /** An id without a row has not traded. */
  lemma {:induction false} FreshAccount(s: Site, o: OrderData)
    requires SiteInv(s) && o.id !in s.rows && o.left == o.quantity
    ensures Accounted(o, s.tape)
  {
    forall i | 0 <= i < |s.tape| ensures s.tape[i].taker.id != o.id && s.tape[i].maker.id != o.id {
      assert TradeInv(s, s.tape[i]);
    }
    NoneFilled(s.tape, o.id);
  }

  lemma {:induction false} CreateKeepsAccounts(s: Site, o: OrderData)
    requires SiteInv(s) && Conserved(s) && Admissible(s, Create(o))
    ensures Conserved(CreateSite(s, o))
  {
    FreshAccount(s, o);
    var s1 := s.(rows := s.rows[o.id := o]);
    SameAccounts(s, s1);
    if o.IsMarket() {
      var s3 := s1.(inStack := s1.inStack + {o.id}, live := s.live + {o.id});
      PutKeeps(s, o, s3);
      SameAccounts(s, s3);
      FreshId(s, o);
      PoolAllLeft(s.book.Pool(o.bot), o);
      forall id | id in s3.rows ensures s3.rows[id].id == id { assert RowInv(s3, id); }
      EnterKeepsAccounts(s3, o);
    } else {
      SameAccounts(s, CreateSite(s, o));
    }
  }

  lemma {:induction false} PlaceIff(s: Site, k: nat)
    requires SiteInv(s) && AllConserved(s) && k < |s.queue|
    ensures AllConserved(PlaceSite(s, k)) <==> PlaceCurrent(s, k)
  {
    var p := s.queue[k];
    assert p in s.queue;
    var s1 := s.(queue := s.queue[..k] + s.queue[k + 1..]);
    SameAccounts(s, s1);
    if p.order.id !in s.placed {
      var s2 := s1.(placed := s.placed + {p.order.id});
      LessKeeps(s, s2);
      SameAccounts(s, s2);
      ArriveIff(s2, p);
    }
  }

  lemma {:induction false} ArriveIff(s: Site, p: Placement)
    requires Arriving(s, p.order) && AllConserved(s)
    ensures AllConserved(Arrive(s, p)) <==> ArrivesCurrent(s, p.order)
  {
    var o, s1 := p.order, Flagged(s, p);
    ArriveApart(s, p);
    if HoldsKey(s.book.Pool(o.bot).Stack(o.op), o) {
      ArriveHeld(s, p);
    } else if StaysTogether(s, o) {
      LessKeeps(s, s1);
      SameAccounts(s, s1);
      EnterIff(s1, o);
    }
  }

  lemma {:induction false} EnterIff(s: Site, o: OrderData)
    requires Arriving(s, o) && Conserved(s) && (HadEntry(s, o) ==> !EndsOpen(s.book.Pool(o.bot), o))
    ensures Conserved(EnterBook(s, o)) <==> ExecutedAlike(s, o) && (HadEntry(s, o) ==> o.op == Sell)
  {
    assert Accounted(s.rows[o.id], s.tape) && RowInv(s, o.id);
    if HadEntry(s, o) && o.op == Buy {
      EntryBreaks(s, o);
    } else if ExecutedAlike(s, o) {
      SiteRows(s);
      EnterKeepsAccounts(s, o);
    } else {
      StaleBreaks(s, o);
    }
  }

  lemma {:induction false} UpdateKeepsAccounts(s: Site, id: int, d: UpdateData, allowed: bool)
    requires SiteInv(s) && Conserved(s) && id in s.rows
    ensures Conserved(UpdateSite(s, id, d, allowed))
  {
    var row, u := Loaded(s.rows[id]), Updated(s, id, d, allowed);
    assert RowInv(s, id) && Accounted(s.rows[id], s.tape);
    Runs.RemoveKeeps(s.book, row);
    if u.None? {
      SameAccounts(s, UpdateSite(s, id, d, allowed));
    } else {
      UpdateKeepsExecuted(row, d, allowed);
      if HasId(s.book.user.Stack(row.op), id) {
        var s1 := UpdateReady(s, id, d, allowed);
        SameAccounts(s, s1);
        SiteRows(s1);
        EnterKeepsAccounts(s1, u.value);
      } else {
        SameAccounts(s, UpdateSite(s, id, d, allowed));
      }
    }
  }

  lemma {:induction false} RepricedAccounts(s: Site, us: seq<OrderData>, s1: Site)
    requires SiteInv(s) && Conserved(s) && RowsRepriced(s, us, s1) && s1.tape == s.tape
    requires forall u :: u in us ==> RepricedFrom(s, u)
    ensures Conserved(s1)
  {
    forall id | id in s1.rows ensures Accounted(s1.rows[id], s.tape) {
      assert id in s.rows.Keys && RowInv(s, id) && Accounted(s.rows[id], s.tape);
      if id in Ids(us) {
        var u :| u in us && u.id == id;
        assert RepricedFrom(s, u);
      }
    }
    SameAccounts(s, s1);
  }

  lemma {:induction false} RepriceKeepsAccounts(s: Site, cs: seq<Candidate>, current: real)
    requires SiteInv(s) && Conserved(s) && Admissible(s, Reprice(cs, current))
    ensures Conserved(RepriceSite(s, cs, current))
  {
    var us := RepriceAll(cs, current);
    var s1 := Repriced(s, us);
    RepriceCandidates(s, cs, current);
    RepricedRows(s, us);
    RepricedAccounts(s, us, s1);
    if !AnyRaises(cs, current) {
      var s2 := RemovedRepriced(s, us);
      RepricedOut(s, us, s1, s2.live);
      SameAccounts(s1, s2);
      EnterAllKeepsAccounts(s2, us);
    }
  }

  lemma {:induction false} CancelKeepsAccounts(s: Site, id: int)
    requires SiteInv(s) && Conserved(s) && id in s.rows
    ensures Conserved(CancelSite(s, id))
  {
    var row := s.rows[id];
    assert RowInv(s, id) && Accounted(row, s.tape);
    WithoutContents(s.book.Pool(row.bot).Stack(row.op), row.id);
    SameAccounts(s, CancelSite(s, id));
  }

  lemma {:induction false} ReloadKeepsAccounts(s: Site, os: seq<OrderData>)
    requires SiteInv(s) && Conserved(s) && Admissible(s, Reload(os))
    ensures Conserved(ReloadSite(s, os))
  {
    ReloadReady(s, os);
    var s1 := Emptied(s, os);
    SameAccounts(s, s1);
    EnterAllKeepsAccounts(s1, os);
  }

  /** One event keeps the accounts if and only if it is no stale placement. */
  lemma {:induction false} ApplyIff(s: Site, e: Event)
    requires SiteInv(s) && AllConserved(s) && Admissible(s, e)
    ensures AllConserved(Apply(s, e)) <==> Current(s, e)
  {
    if !e.Place? { OthersKeepTogether(s, e); }
    match e
    case Create(o) => CreateKeepsAccounts(s, o);
    case Place(k) => PlaceIff(s, k);
    case Update(id, d, allowed) => UpdateKeepsAccounts(s, id, d, allowed);
    case Reprice(cs, current) => RepriceKeepsAccounts(s, cs, current);
    case Cancel(id) => CancelKeepsAccounts(s, id);
    case Trigger(_, _, found) => SameAccounts(s, TriggerSite(s, found));
    case Expire(id) => SameAccounts(s, s.(placed := s.placed - {id}));
    case Reload(os) => ReloadKeepsAccounts(s, os);
  }

  // ---- Runs ----

  ghost predicate AlwaysConserved(s: Site, es: seq<Event>)
    requires AdmissibleRun(s, es)
    decreases |es|
  {
    AllConserved(s) && (es != [] ==> AlwaysConserved(Apply(s, es[0]), es[1..]))
  }

  ghost predicate AllCurrent(s: Site, es: seq<Event>)
    requires AdmissibleRun(s, es)
    decreases |es|
  {
    es != [] ==> Current(s, es[0]) && AllCurrent(Apply(s, es[0]), es[1..])
  }

  lemma {:induction false} RunIff(s: Site, es: seq<Event>)
    requires SiteInv(s) && AllConserved(s) && AdmissibleRun(s, es)
    ensures AlwaysConserved(s, es) <==> AllCurrent(s, es)
    decreases |es|
  {
    if es != [] {
      ApplyIff(s, es[0]);
      ApplyKeeps(s, es[0]);
      if Current(s, es[0]) {
        RunIff(Apply(s, es[0]), es[1..]);
      }
    }
  }

  /**
   Over every run: what an order has traded and what is left of it add up to its quantity,
   so that none trades more than its quantity, and lists and maps hold the same, at all
   times, if and only if every placement that is not dropped is current.
   */
  lemma {:induction false} QuantityIsConservedIff(es: seq<Event>)
    requires AdmissibleRun(START, es)
    ensures AlwaysConserved(START, es) <==> AllCurrent(START, es)
  {
    StartInv();
    RunIff(START, es);
  }
}
