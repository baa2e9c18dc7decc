/**
 The book of one pair driven by the stack processor: restart, place, cancel, update
 and bulk reprice, as functions of the book's value, and what holds in every run.
 */
module Runs {
  import opened OrderTypes
  import opened StackModel
  import opened Matching
  import opened OrderUpdates
  import opened Decimals

  datatype Book = Book(user: Pool, bots: Pool) {
    function Pool(bot: bool): Pool {
      if bot then bots else user
    }

    function With(bot: bool, p: Pool): Book {
      if bot then this.(bots := p) else this.(user := p)
    }
  }

  const EMPTY := Book(Pool([], []), Pool([], []))

  datatype Step = Step(book: Book, trades: seq<Trade>)

  function BookProcess(b: Book, o: OrderData): Step {
    var r := Process(b.Pool(o.bot), o);
    Step(b.With(o.bot, r.pool), r.trades)
  }

  function BookCancel(b: Book, o: OrderData): Book {
    var p := b.Pool(o.bot);
    b.With(o.bot, p.With(o.op, Without(p.Stack(o.op), o.id)))
  }

  /** Looks at the user stacks whoever owns the order. */
  function RemoveFromStack(b: Book, o: OrderData): Book {
    b.(user := b.user.With(o.op, Without(b.user.Stack(o.op), o.id)))
  }

  function RemoveAll(b: Book, os: seq<OrderData>): Book
    decreases |os|
  {
    if os == [] then b else RemoveAll(RemoveFromStack(b, os[0]), os[1..])
  }

  function ProcessAll(b: Book, os: seq<OrderData>): Step
    decreases |os|
  {
    if os == [] then Step(b, [])
    else
      var first := BookProcess(b, os[0]);
      var rest := ProcessAll(first.book, os[1..]);
      Step(rest.book, first.trades + rest.trades)
  }

  /** From book b, i of the orders processed lead to this book with these trades. */
  ghost predicate Reaches(b: Book, os: seq<OrderData>, i: nat, view: Book, done: seq<Trade>) {
    && i <= |os|
    && var all := ProcessAll(b, os);
       var rest := ProcessAll(view, os[i..]);
       all.book == rest.book && all.trades == done + rest.trades
  }

  lemma {:induction false} ReachesNext(b: Book, os: seq<OrderData>, i: nat, view: Book, done: seq<Trade>)
    requires i < |os| && Reaches(b, os, i, view, done)
    ensures var step := BookProcess(view, os[i]);
            Reaches(b, os, i + 1, step.book, done + step.trades)
  {
    var step := BookProcess(view, os[i]);
    var next := ProcessAll(step.book, os[i + 1..]);
    assert ProcessAll(view, os[i..]) == Step(next.book, step.trades + next.trades) by {
      assert os[i..][0] == os[i] && os[i..][1..] == os[i + 1..];
    }
    assert done + (step.trades + next.trades) == (done + step.trades) + next.trades;
  }

  datatype Event =
    | Restart(orders: seq<OrderData>)
    | Place(order: OrderData)
    | Cancel(order: OrderData)
    | Update(order: OrderData, data: UpdateData, allowed: bool)
    | BulkReprice(candidates: seq<Candidate>, current: real)

  function Apply(b: Book, e: Event): Step
    requires Admissible(b, e)
  {
    match e
    case Restart(os) => ProcessAll(EMPTY, os)
    case Place(o) => BookProcess(b, o)
    case Cancel(o) => Step(BookCancel(b, o), [])
    case Update(o, d, allowed) => UpdateStep(b, o, d, allowed)
    case BulkReprice(cs, current) =>
      if AnyRaises(cs, current) then Step(b, []) else BulkStep(b, RepriceAll(cs, current))
  }

  /** Out of the stack, changed, and back through the book if it was in the stack. */
  function UpdateStep(b: Book, o: OrderData, d: UpdateData, allowed: bool): Step {
    var removed := RemoveFromStack(b, o);
    var u := UpdateOrder(o, d, allowed);
    if u.Some? && HasId(b.user.Stack(o.op), o.id) then BookProcess(removed, u.value) else Step(removed, [])
  }

  /** All repriced orders out of their stacks, then back through the book in turn. */
  function BulkStep(b: Book, us: seq<OrderData>): Step {
    ProcessAll(RemoveAll(b, us), us)
  }

  /** An order read from the database or from a message, not repriced by this process. */
  predicate FromStore(o: OrderData) {
    && !o.otcUpdated
    && (o.state == Opened ==> o.left > 0)
    && (if o.IsMarket() then o.op == Sell && o.cost == None else o.price > 0)
  }

  /** What the callers of the stack processor provide. */
  predicate Admissible(b: Book, e: Event) {
    match e
    case Restart(os) => UniqueOrderIds(os) && forall i :: 0 <= i < |os| ==> FromStore(os[i])
    case Place(o) => FromStore(o) && !TakesApart(b.Pool(o.bot), o)
    case Cancel(_) => true
    case Update(o, _, _) => FromStore(o) && (o.bot ==> !HasId(b.user.Stack(o.op), o.id))
    case BulkReprice(cs, _) =>
      && (forall i, j :: 0 <= i < j < |cs| ==> cs[i].order.id != cs[j].order.id)
      && forall c :: c in cs ==>
           FromStore(c.order) && !c.order.bot
  }

  predicate UniqueOrderIds(os: seq<OrderData>) {
    forall i, j :: 0 <= i < j < |os| ==> os[i].id != os[j].id
  }

  ghost predicate BookInv(b: Book) {
    PoolInv(b.user, false) && PoolInv(b.bots, true)
  }

  ghost predicate AllFair(ts: seq<Trade>) {
    forall t :: t in ts ==> Fair(t)
  }

  lemma {:induction false} BookProcessKeeps(b: Book, o: OrderData)
    requires BookInv(b) && Sane(o)
    ensures BookInv(BookProcess(b, o).book) && AllFair(BookProcess(b, o).trades)
    ensures forall bot, op, x :: x in BookProcess(b, o).book.Pool(bot).Stack(op) ==>
              x.id == o.id || HasId(b.Pool(bot).Stack(op), x.id)
  {
    ProcessKeepsPool(b.Pool(o.bot), o, o.bot);
    var r := BookProcess(b, o);
    forall t | t in r.trades ensures Fair(t) {
      var i :| 0 <= i < |r.trades| && r.trades[i] == t;
    }
    forall bot, op, x | x in r.book.Pool(bot).Stack(op) && x.id != o.id
      ensures HasId(b.Pool(bot).Stack(op), x.id)
    {
      if bot == o.bot {
        assert x in Process(b.Pool(o.bot), o).pool.Stack(op);
      }
    }
  }

  lemma {:induction false} RemoveKeeps(b: Book, o: OrderData)
    requires BookInv(b)
    ensures BookInv(RemoveFromStack(b, o))
    ensures !HasId(RemoveFromStack(b, o).user.Stack(o.op), o.id)
    ensures forall bot, op, x :: x in RemoveFromStack(b, o).Pool(bot).Stack(op) ==> x in b.Pool(bot).Stack(op)
  {
    WithoutContents(b.user.Stack(o.op), o.id);
    WithoutSorted(DirectionOf(o.op), b.user.Stack(o.op), o.id);
  }

  lemma {:induction false} CancelKeeps(b: Book, o: OrderData)
    requires BookInv(b)
    ensures BookInv(BookCancel(b, o))
    ensures !HasId(BookCancel(b, o).Pool(o.bot).Stack(o.op), o.id)
  {
    WithoutContents(b.Pool(o.bot).Stack(o.op), o.id);
    WithoutSorted(DirectionOf(o.op), b.Pool(o.bot).Stack(o.op), o.id);
  }

  /** A cancelled order leaves its own stack, an updated one the user stack of its side; all else stays. */
  lemma {:induction false} OnlyThatLeaves(b: Book, o: OrderData, bot: bool, op: Operation, x: OrderData)
    requires BookInv(b)
    ensures x in BookCancel(b, o).Pool(bot).Stack(op) <==>
            x in b.Pool(bot).Stack(op) && !(bot == o.bot && op == o.op && x.id == o.id)
    ensures x in RemoveFromStack(b, o).Pool(bot).Stack(op) <==>
            x in b.Pool(bot).Stack(op) && !(!bot && op == o.op && x.id == o.id)
  {
    WithoutMembers(b.Pool(o.bot).Stack(o.op), o.id);
    WithoutMembers(b.user.Stack(o.op), o.id);
  }

  /** Orders processed one after another keep the book's invariant. */
  lemma {:induction false} ProcessAllKeeps(b: Book, os: seq<OrderData>)
    requires BookInv(b) && forall i :: 0 <= i < |os| ==> Sane(os[i])
    ensures BookInv(ProcessAll(b, os).book) && AllFair(ProcessAll(b, os).trades)
    decreases |os|
  {
    if os != [] {
      BookProcessKeeps(b, os[0]);
      ProcessAllKeeps(BookProcess(b, os[0]).book, os[1..]);
    }
  }

  lemma {:induction false} RemoveAllKeeps(b: Book, os: seq<OrderData>)
    requires BookInv(b)
    ensures BookInv(RemoveAll(b, os))
    ensures forall op, x :: x in RemoveAll(b, os).user.Stack(op) ==> x in b.user.Stack(op)
    ensures forall i :: 0 <= i < |os| ==> !HasId(RemoveAll(b, os).user.Stack(os[i].op), os[i].id)
    decreases |os|
  {
    if os != [] {
      RemoveKeeps(b, os[0]);
      var b1 := RemoveFromStack(b, os[0]);
      RemoveAllKeeps(b1, os[1..]);
      var r := RemoveAll(b, os);
      forall op, x | x in r.user.Stack(op) ensures x in b.user.Stack(op) {
        assert x in b1.user.Stack(op);
        assert x in b1.Pool(false).Stack(op);
        assert x in b.Pool(false).Stack(op);
      }
      forall i | 0 <= i < |os| ensures !HasId(r.user.Stack(os[i].op), os[i].id) {
        if i > 0 {
          assert os[1..][i - 1] == os[i];
        } else {
          var s := r.user.Stack(os[0].op);
          forall j | 0 <= j < |s| ensures s[j].id != os[0].id {
            assert s[j] in s && s[j] in b1.user.Stack(os[0].op);
          }
        }
      }
    }
  }

  lemma {:induction false} RepriceAllSane(cs: seq<Candidate>, current: real)
    requires forall i, j :: 0 <= i < j < |cs| ==> cs[i].order.id != cs[j].order.id
    requires forall c :: c in cs ==> FromStore(c.order) && !c.order.bot
    ensures var us := RepriceAll(cs, current);
            && UniqueOrderIds(us)
            && forall u :: u in us ==> Sane(u) && !u.bot && u.otcUpdated && exists c :: c in cs && c.order.id == u.id
    decreases |cs|
  {
    if cs != [] && !Raises(cs[0], current) {
      RepriceAllSane(cs[1..], current);
      var rest := RepriceAll(cs[1..], current);
      var u := Reprice(cs[0], current);
      if u.Some? {
        RepriceWithinLimit(cs[0], current);
        forall j | 0 <= j < |rest| ensures u.value.id != rest[j].id {
          assert rest[j] in rest;
          var c :| c in cs[1..] && c.order.id == rest[j].id;
          var k :| 0 <= k < |cs[1..]| && cs[1..][k] == c;
          assert cs[k + 1] == c;
        }
      }
      var us := RepriceAll(cs, current);
      forall x | x in us ensures Sane(x) && !x.bot && x.otcUpdated && exists c :: c in cs && c.order.id == x.id {
        if x in rest {
          var c :| c in cs[1..] && c.order.id == x.id;
          assert c in cs;
        } else {
          assert cs[0] in cs;
        }
      }
    }
  }

  /** One event: user and bot books stay sorted and uncrossed; trades are fair. */
  lemma {:induction false} ApplyKeeps(b: Book, e: Event)
    requires BookInv(b) && Admissible(b, e)
    ensures BookInv(Apply(b, e).book) && AllFair(Apply(b, e).trades)
  {
    match e
    case Restart(os) => ProcessAllKeeps(EMPTY, os);
    case Place(o) => BookProcessKeeps(b, o);
    case Cancel(o) => CancelKeeps(b, o);
    case Update(o, d, allowed) =>
      RemoveKeeps(b, o);
      if UpdateOrder(o, d, allowed).Some? && HasId(b.user.Stack(o.op), o.id) {
        UpdateKeepsExecuted(o, d, allowed);
        BookProcessKeeps(RemoveFromStack(b, o), UpdateOrder(o, d, allowed).value);
      }
    case BulkReprice(cs, current) =>
      var us := RepriceAll(cs, current);
      RepriceAllSane(cs, current);
      RemoveAllKeeps(b, us);
      forall i | 0 <= i < |us| ensures Sane(us[i]) { assert us[i] in us; }
      ProcessAllKeeps(RemoveAll(b, us), us);
  }

  predicate AdmissibleRun(b: Book, es: seq<Event>)
    decreases |es|
  {
    es == [] || (Admissible(b, es[0]) && AdmissibleRun(Apply(b, es[0]).book, es[1..]))
  }

  function Run(b: Book, es: seq<Event>): Step
    requires AdmissibleRun(b, es)
    decreases |es|
  {
    if es == [] then Step(b, [])
    else
      var first := Apply(b, es[0]);
      var rest := Run(first.book, es[1..]);
      Step(rest.book, first.trades + rest.trades)
  }

  lemma {:induction false} RunKeeps(b: Book, es: seq<Event>)
    requires BookInv(b) && AdmissibleRun(b, es)
    ensures BookInv(Run(b, es).book) && AllFair(Run(b, es).trades)
    decreases |es|
  {
    if es != [] {
      ApplyKeeps(b, es[0]);
      RunKeeps(Apply(b, es[0]).book, es[1..]);
    }
  }

  /**
   In every run from an empty book: best buy is below best sell in the user book and
   in the bot book, no trade joins a bot with a user, no order trades at a price worse
   than its own, and no auto order trades past its limit while it carries the updater's
   mark. The mark is not stored: what a restart keeps of it is `AutoLimits.LimitsAreKeptIff`.
   */
  lemma {:induction false} EveryRunIsSafe(es: seq<Event>)
    requires AdmissibleRun(EMPTY, es)
    ensures var r := Run(EMPTY, es);
            && (forall bot, b, a :: b in r.book.Pool(bot).buys && a in r.book.Pool(bot).sells ==> b.price < a.price)
            && (forall bot, i, j :: 0 <= i < j < |r.book.Pool(bot).sells| ==>
                  var x, y := r.book.Pool(bot).sells[i], r.book.Pool(bot).sells[j];
                  x.price < y.price || (x.price == y.price && x.id < y.id))
            && (forall bot, i, j :: 0 <= i < j < |r.book.Pool(bot).buys| ==>
                  var x, y := r.book.Pool(bot).buys[i], r.book.Pool(bot).buys[j];
                  x.price > y.price || (x.price == y.price && x.id < y.id))
            && (forall t :: t in r.trades ==>
                  && t.taker.bot == t.maker.bot
                  && NoWorse(t.taker, t.price) && NoWorse(t.maker, t.price)
                  && RespectsOtcLimit(t.taker, t.price) && RespectsOtcLimit(t.maker, t.price))
  {
    RunKeeps(EMPTY, es);
    var r := Run(EMPTY, es);
    forall bot {
      StacksInOrder(r.book.Pool(bot), bot);
    }
    forall bot, b, a | b in r.book.Pool(bot).buys && a in r.book.Pool(bot).sells ensures b.price < a.price {
      assert Uncrossed(r.book.Pool(bot));
    }
  }

  /**
   A resting order whose update is refused is already out of its stack, and is not put back:
   after an update it neither rests nor trades if and only if the update is not acceptable.
   */
  lemma {:induction false} UpdateLosesOrderIff(b: Book, o: OrderData, d: UpdateData, allowed: bool)
    requires BookInv(b) && FromStore(o) && !o.bot
    requires HasId(b.user.Stack(o.op), o.id) && !HasId(b.user.Stack(o.op.Other()), o.id)
    ensures var r := UpdateStep(b, o, d, allowed);
            (r.trades == [] && !HasId(r.book.user.Stack(o.op), o.id)) <==> !Acceptable(o, d, allowed)
  {
    RemoveKeeps(b, o);
    AcceptedIff(o, d, allowed);
    if Acceptable(o, d, allowed) {
      UpdateKeepsExecuted(o, d, allowed);
      var u := UpdateOrder(o, d, allowed).value;
      var p := RemoveFromStack(b, o).user;
      var s := p.Stack(u.op.Other());
      if s == [] || !u.Accepts(s[0].price) {
        InsertContents(DirectionOf(u.op), p.Stack(u.op), u);
        assert u in Process(p, u).pool.Stack(u.op);
      } else {
        assert Process(p, u).trades == Execute(p, u).trades;
        assert Selected(u, s, u.left) > 0;
      }
    }
  }

  /** Ten were asked for, four are executed: asking for four leaves nothing, and the order is lost. */
  lemma {:induction false} ShrunkOrderIsLost(o: OrderData)
    requires o.op == Sell && o.kind == Limit && !o.bot && o.state == Opened && o.price > 0
    requires o.quantity == 1_000_000_000 && o.left == 600_000_000
    ensures var d := UpdateData(None, Some(4.0), None, None, None);
            var b := Book(Pool([], [o]), Pool([], []));
            UpdateStep(b, o, d, true) == Step(EMPTY, [])
  {
    assert ToTicks(4.0) == 400_000_000;
  }
}
