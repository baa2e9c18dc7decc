/**
 What a restart makes of a site: the book is rebuilt from the rows that are open and
 flagged, which need not be the orders that rested.
 */
module Restarts {
  import opened OrderTypes
  import opened StackModel
  import opened Matching
  import opened Sites
  import opened Recovery
  import opened Storage
  import Runs

  /** The restart makes no trade, and gives every stack back as it was, but for the updater's marks. */
  ghost predicate Restores(s: Site, os: seq<OrderData>) {
    var s' := ReloadSite(s, os);
    s'.tape == s.tape && forall bot, op :: StoredCopy(s.book.Pool(bot).Stack(op), s'.book.Pool(bot).Stack(op))
  }

  ghost predicate RowRests(s: Site, id: int)
    requires id in s.rows
  {
    HasId(s.book.Pool(s.rows[id].bot).Stack(s.rows[id].op), id)
  }

  /** Database and memory are in step: what rests is stored and flagged, and what would be loaded rests. */
  ghost predicate InStep(s: Site) {
    && (forall bot, op, x :: x in s.book.Pool(bot).Stack(op) ==> RestsStored(s, x))
    && (forall id :: id in s.rows && ToLoad(s, id) ==> RowRests(s, id))
  }

  lemma {:induction false} ReloadIs(s: Site, os: seq<OrderData>)
    requires SiteInv(s) && Admissible(s, Reload(os))
    ensures var r := Runs.ProcessAll(Runs.EMPTY, os);
            ReloadSite(s, os).book == r.book && ReloadSite(s, os).tape == s.tape + r.trades
    ensures AllNew(Runs.EMPTY, os)
  {
    ReloadReady(s, os);
    ProcessAllKeeps(Emptied(s, os), os);
    forall o | o in os ensures o.state == Opened {}
  }

  /**
   Where what rests is stored, a restart loads all of it, and besides only rows that rest
   nowhere, such as those whose placement is still on its way.
   */
  lemma {:induction false} LoadsWhatRests(s: Site, os: seq<OrderData>, x: OrderData)
    requires SiteInv(s) && Admissible(s, Reload(os))
    requires forall bot, op, y :: y in s.book.Pool(bot).Stack(op) ==> RestsStored(s, y)
    ensures InStore(s.book, x) <==> x in os && RowRests(s, x.id)
  {
    if InStore(s.book, x) {
      var op, y :| y in s.book.Pool(x.bot).Stack(op) && x == Loaded(y);
      assert RestsStored(s, y) && Resting(y, op, x.bot);
      assert ToLoad(s, y.id);
      var st := s.book.Pool(x.bot).Stack(op);
      var i :| 0 <= i < |st| && st[i] == y;
    }
    if x in os && RowRests(s, x.id) {
      var st := s.book.Pool(x.bot).Stack(x.op);
      var i :| 0 <= i < |st| && st[i].id == x.id;
      assert st[i] in s.book.Pool(x.bot).Stack(x.op);
      assert RestsStored(s, st[i]);
    }
  }

  lemma {:induction false} InStepRestores(s: Site, os: seq<OrderData>)
    requires SiteInv(s) && InStep(s) && Admissible(s, Reload(os))
    ensures Restores(s, os)
  {
    ReloadIs(s, os);
    forall x ensures x in os <==> InStore(s.book, x) { LoadsWhatRests(s, os, x); }
    forall bot, op ensures StoredCopy(s.book.Pool(bot).Stack(op), ReloadSite(s, os).book.Pool(bot).Stack(op)) {
      RestartRecovers(s.book, os, bot, op);
    }
    RestartRecovers(s.book, os, false, Buy);
    assert s.tape + [] == s.tape;
  }

  /** A restart that makes no trade leaves exactly the loaded orders resting. */
  lemma {:induction false} RestoredHolds(s: Site, os: seq<OrderData>)
    requires SiteInv(s) && Admissible(s, Reload(os)) && Restores(s, os)
    ensures Holds(ReloadSite(s, os).book, Runs.EMPTY, os)
  {
    ReloadIs(s, os);
    var r := Runs.ProcessAll(Runs.EMPTY, os);
    assert |s.tape + r.trades| == |s.tape| + |r.trades|;
    EmptyBook();
    QuietReplay(Runs.EMPTY, os);
  }

  lemma {:induction false} HeldWasLoaded(r: Runs.Book, os: seq<OrderData>, bot: bool, op: Operation, x: OrderData)
    requires Holds(r, Runs.EMPTY, os) && x in r.Pool(bot).Stack(op)
    ensures x in os && x.bot == bot && x.op == op
  {
    EmptyBook();
    assert x !in Runs.EMPTY.Pool(bot).Stack(op);
  }

  lemma {:induction false} RestoredRests(s: Site, os: seq<OrderData>, r: Runs.Book, bot: bool, op: Operation,
      x: OrderData)
    requires Admissible(s, Reload(os)) && Holds(r, Runs.EMPTY, os)
    requires StoredCopy(s.book.Pool(bot).Stack(op), r.Pool(bot).Stack(op)) && x in s.book.Pool(bot).Stack(op)
    ensures RestsStored(s, x)
  {
    var st, c := s.book.Pool(bot).Stack(op), r.Pool(bot).Stack(op);
    var i :| 0 <= i < |st| && st[i] == x;
    assert c[i] == Loaded(x) && c[i] in r.Pool(bot).Stack(op);
    HeldWasLoaded(r, os, bot, op, Loaded(x));
  }

  lemma {:induction false} RestoredRow(s: Site, os: seq<OrderData>, r: Runs.Book, id: int)
    requires SiteInv(s) && Admissible(s, Reload(os)) && Holds(r, Runs.EMPTY, os) && id in s.rows && ToLoad(s, id)
    requires var o := s.rows[id]; StoredCopy(s.book.Pool(o.bot).Stack(o.op), r.Pool(o.bot).Stack(o.op))
    ensures RowRests(s, id)
  {
    var o := Loaded(s.rows[id]);
    var st, c := s.book.Pool(o.bot).Stack(o.op), r.Pool(o.bot).Stack(o.op);
    assert RowInv(s, id) && o in os;
    assert o in r.Pool(o.bot).Stack(o.op);
    var i :| 0 <= i < |c| && c[i] == o;
    assert st[i].id == id;
  }

  /**
   A restart makes no trade and gives the stacks back if and only if database and memory
   are in step: everything that rests is flagged, with a row that says the same of it, and
   every open and flagged row with something left rests.
   */
  lemma {:induction false} ReloadRestoresIff(s: Site, os: seq<OrderData>)
    requires SiteInv(s) && Admissible(s, Reload(os))
    ensures Restores(s, os) <==> InStep(s)
  {
    if InStep(s) {
      InStepRestores(s, os);
    }
    if Restores(s, os) {
      var r := ReloadSite(s, os).book;
      RestoredHolds(s, os);
      forall bot, op, x | x in s.book.Pool(bot).Stack(op) ensures RestsStored(s, x) {
        RestoredRests(s, os, r, bot, op, x);
      }
      forall id | id in s.rows && ToLoad(s, id) ensures RowRests(s, id) { RestoredRow(s, os, r, id); }
    }
  }

  /** The same at the end of every run. */
  lemma {:induction false} EveryRestartRestoresIff(es: seq<Event>, os: seq<OrderData>)
    requires AdmissibleRun(START, es) && Admissible(Run(START, es), Reload(os))
    ensures Restores(Run(START, es), os) <==> InStep(Run(START, es))
  {
    StartInv();
    RunKeeps(START, es);
    ReloadRestoresIff(Run(START, es), os);
  }

  /**
   An order that a placement brings in and that trades is loaded by the next restart, if it
   is still open, exactly when it was queued with its flag set. A selected stop-limit order
   is queued as it stood before the flag was set, so it is not.
   */
  lemma {:induction false} LoadedAfterTradeIff(s: Site, k: nat)
    requires SiteInv(s) && k < |s.queue|
    requires var o := s.queue[k].order;
             && o.id !in s.placed && !HasId(s.book.Pool(o.bot).Stack(o.op), o.id)
             && Matching.Process(s.book.Pool(o.bot), o).trades != []
    ensures var o, s' := s.queue[k].order, PlaceSite(s, k);
            o.id in s'.rows && (ToLoad(s', o.id) <==> s.queue[k].inStack && s'.rows[o.id].state == Opened)
  {
    var p := s.queue[k];
    var o := p.order;
    assert p in s.queue;
    var s2 := Flagged(s.(queue := s.queue[..k] + s.queue[k + 1..], placed := s.placed + {o.id}), p);
    LessKeeps(s, s2);
    OtherSideLacks(s2, o);
    PoolAllLeft(s2.book.Pool(o.bot), o);
    ProcessWrites(s2, o);
    OrderEnds(s2.book.Pool(o.bot), o);
  }
}
