/** Reloading the open orders after a restart. */
module Recovery {
  import opened OrderTypes
  import opened StackModel
  import opened Matching
  import opened Runs

  /** Two orders of one pool on opposite sides do not cross. */
  ghost predicate Apart(x: OrderData, y: OrderData) {
    x.bot == y.bot && x.op != y.op ==> if x.op == Buy then x.price < y.price else y.price < x.price
  }

  /** Open orders that no one would match with each other. */
  ghost predicate MutuallyUncrossed(os: seq<OrderData>) {
    && UniqueOrderIds(os)
    && (forall i :: 0 <= i < |os| ==> Resting(os[i], os[i].op, os[i].bot))
    && forall i, j :: 0 <= i < j < |os| ==> Apart(os[i], os[j])
  }

  /** None of the orders meets anything in the book. */
  ghost predicate ApartFromBook(b: Book, os: seq<OrderData>) {
    forall i, op, x :: 0 <= i < |os| && x in b.Pool(os[i].bot).Stack(op) ==> x.id != os[i].id && Apart(os[i], x)
  }

  /** The book holds what it held and these orders, each in its own stack. */
  ghost predicate Holds(r: Book, b: Book, os: seq<OrderData>) {
    forall bot, op, x :: x in r.Pool(bot).Stack(op) <==> RestsOrComes(b, os, bot, op, x)
  }

  ghost predicate RestsOrComes(b: Book, os: seq<OrderData>, bot: bool, op: Operation, x: OrderData) {
    x in b.Pool(bot).Stack(op) || (x in os && x.bot == bot && x.op == op)
  }

  lemma {:induction false} RestStep(b: Book, o: OrderData)
    requires BookInv(b) && Resting(o, o.op, o.bot)
    requires forall op, x :: x in b.Pool(o.bot).Stack(op) ==> x.id != o.id && Apart(o, x)
    ensures BookProcess(b, o).trades == []
    ensures BookInv(BookProcess(b, o).book)
    ensures Holds(BookProcess(b, o).book, b, [o])
  {
    var p := b.Pool(o.bot);
    var s := p.Stack(o.op.Other());
    forall op, i | 0 <= i < |p.Stack(op)| ensures p.Stack(op)[i].id != o.id { assert p.Stack(op)[i] in p.Stack(op); }
    assert IsNew(b, o);
    if s != [] {
      assert s[0] in s;
      assert Apart(o, s[0]) && Resting(s[0], o.op.Other(), o.bot);
    }
    PoolAllLeft(p, o);
    RestsAtOnce(p, o);
    QuietStep(b, o);
  }

  /** Replaying orders that cross nothing makes no trade and adds each to its stack. */
  lemma {:induction false} ReplayRests(b: Book, os: seq<OrderData>)
    requires BookInv(b) && MutuallyUncrossed(os) && ApartFromBook(b, os)
    ensures ProcessAll(b, os).trades == []
    ensures BookInv(ProcessAll(b, os).book)
    ensures Holds(ProcessAll(b, os).book, b, os)
    decreases |os|
  {
    if os == [] {
    } else {
      var b1 := BookProcess(b, os[0]).book;
      RestStep(b, os[0]);
      StillApart(b, b1, os);
      ReplayRests(b1, os[1..]);
      HoldsJoin(ProcessAll(b, os).book, b1, b, os);
    }
  }

  lemma {:induction false} StillApart(b: Book, b1: Book, os: seq<OrderData>)
    requires os != [] && MutuallyUncrossed(os) && ApartFromBook(b, os) && Holds(b1, b, [os[0]])
    ensures MutuallyUncrossed(os[1..]) && ApartFromBook(b1, os[1..])
  {
    var o, rest := os[0], os[1..];
    forall i | 0 <= i < |rest| ensures rest[i] == os[i + 1] {}
    forall i, op, x | 0 <= i < |rest| && x in b1.Pool(rest[i].bot).Stack(op)
      ensures x.id != rest[i].id && Apart(rest[i], x)
    {
      assert x in b.Pool(rest[i].bot).Stack(op) || x == o;
      assert rest[i] == os[i + 1];
      if x == o {
        assert Apart(os[0], os[i + 1]);
      }
    }
  }

  /**
   A restart with mutually uncrossed open orders makes no trade, and each stack is
   exactly the sorted set of the orders of its side and pool.
   */
  lemma {:induction false} RestartRebuilds(os: seq<OrderData>)
    requires MutuallyUncrossed(os)
    ensures var r := ProcessAll(EMPTY, os);
            && r.trades == [] && BookInv(r.book)
            && forall bot, op, x :: x in r.book.Pool(bot).Stack(op) <==> x in os && x.bot == bot && x.op == op
  {
    EmptyBook();
    ReplayIntoEmpty(EMPTY, os);
  }

  lemma {:induction false} ReplayIntoEmpty(b: Book, os: seq<OrderData>)
    requires BookInv(b) && MutuallyUncrossed(os)
    requires forall bot, op :: b.Pool(bot).Stack(op) == []
    ensures ProcessAll(b, os).trades == [] && BookInv(ProcessAll(b, os).book)
    ensures forall bot, op, x :: x in ProcessAll(b, os).book.Pool(bot).Stack(op) <==>
              x in os && x.bot == bot && x.op == op
  {
    EmptyApart(b, os);
    ReplayRests(b, os);
    HoldsOnly(ProcessAll(b, os).book, b, os);
  }

  lemma {:induction false} EmptyApart(b: Book, os: seq<OrderData>)
    requires forall bot, op :: b.Pool(bot).Stack(op) == []
    ensures ApartFromBook(b, os)
  {
    forall i, op, x: OrderData | 0 <= i < |os| ensures x !in b.Pool(os[i].bot).Stack(op) {
      assert b.Pool(os[i].bot).Stack(op) == [];
    }
  }

  lemma {:induction false} HoldsOnly(r: Book, b: Book, os: seq<OrderData>)
    requires Holds(r, b, os) && forall bot, op :: b.Pool(bot).Stack(op) == []
    ensures forall bot, op, x :: x in r.Pool(bot).Stack(op) <==> x in os && x.bot == bot && x.op == op
  {
    forall bot, op, x ensures x in r.Pool(bot).Stack(op) <==> x in os && x.bot == bot && x.op == op {
      assert b.Pool(bot).Stack(op) == [];
    }
  }

  lemma {:induction false} EmptyBook()
    ensures BookInv(EMPTY) && forall bot, op :: EMPTY.Pool(bot).Stack(op) == []
  {
  }

  /** The replay order does not matter. */
  lemma {:induction false} RestartOrderIrrelevant(os: seq<OrderData>, os': seq<OrderData>)
    requires MutuallyUncrossed(os) && MutuallyUncrossed(os')
    requires forall x :: x in os <==> x in os'
    ensures ProcessAll(EMPTY, os).book == ProcessAll(EMPTY, os').book
  {
    RestartRebuilds(os);
    RestartRebuilds(os');
    SameBook(ProcessAll(EMPTY, os).book, ProcessAll(EMPTY, os').book);
  }

  lemma {:induction false} SameBook(a: Book, b: Book)
    requires BookInv(a) && BookInv(b)
    requires forall bot, op, x :: x in a.Pool(bot).Stack(op) <==> x in b.Pool(bot).Stack(op)
    ensures a == b
  {
    forall bot, op ensures a.Pool(bot).Stack(op) == b.Pool(bot).Stack(op) {
      SortedIsUnique(DirectionOf(op), a.Pool(bot).Stack(op), b.Pool(bot).Stack(op));
    }
    assert a.Pool(false).Stack(Buy) == b.Pool(false).Stack(Buy)
        && a.Pool(false).Stack(Sell) == b.Pool(false).Stack(Sell);
    assert a.Pool(true).Stack(Buy) == b.Pool(true).Stack(Buy) && a.Pool(true).Stack(Sell) == b.Pool(true).Stack(Sell);
  }

  ghost predicate InStore(b: Book, x: OrderData) {
    exists op, y :: y in b.Pool(x.bot).Stack(op) && x == Loaded(y)
  }

  ghost predicate StoredCopy(s: seq<OrderData>, c: seq<OrderData>) {
    |c| == |s| && forall i :: 0 <= i < |s| ==> c[i] == Loaded(s[i])
  }

  /**
   Recovery: from any safe book, restarting with its stored orders, listed once each
   in any order, makes no trade and gives back the same stacks.
   */
  lemma {:induction false} RestartRecovers(b: Book, os: seq<OrderData>, bot: bool, op: Operation)
    requires BookInv(b) && UniqueOrderIds(os) && forall x :: x in os <==> InStore(b, x)
    ensures ProcessAll(EMPTY, os).trades == []
    ensures StoredCopy(b.Pool(bot).Stack(op), ProcessAll(EMPTY, os).book.Pool(bot).Stack(op))
  {
    StoredUncrossed(b, os);
    RestartRebuilds(os);
    var s := b.Pool(bot).Stack(op);
    var r := ProcessAll(EMPTY, os).book.Pool(bot).Stack(op);
    var c := seq(|s|, i requires 0 <= i < |s| => Loaded(s[i]));
    forall x ensures x in c <==> x in r {
      StoredMember(b, bot, op, c, x);
    }
    SortedIsUnique(DirectionOf(op), c, r);
  }

  lemma {:induction false} StoredUncrossed(b: Book, os: seq<OrderData>)
    requires BookInv(b) && UniqueOrderIds(os) && forall x :: x in os <==> InStore(b, x)
    ensures MutuallyUncrossed(os)
  {
    forall i | 0 <= i < |os| ensures Resting(os[i], os[i].op, os[i].bot) {
      assert os[i] in os;
    }
    forall i, j | 0 <= i < j < |os| ensures Apart(os[i], os[j]) {
      assert InStore(b, os[i]) && InStore(b, os[j]) by { assert os[i] in os && os[j] in os; }
      StoredApart(b, os[i], os[j]);
    }
  }

  lemma {:induction false} StoredApart(b: Book, x: OrderData, y: OrderData)
    requires BookInv(b) && InStore(b, x) && InStore(b, y)
    ensures Apart(x, y)
  {
    var opx, x' :| x' in b.Pool(x.bot).Stack(opx) && x == Loaded(x');
    var opy, y' :| y' in b.Pool(y.bot).Stack(opy) && y == Loaded(y');
    assert Uncrossed(b.Pool(x.bot));
  }

  lemma {:induction false} StoredMember(b: Book, bot: bool, op: Operation, c: seq<OrderData>, x: OrderData)
    requires BookInv(b) && StoredCopy(b.Pool(bot).Stack(op), c)
    ensures x in c <==> InStore(b, x) && x.bot == bot && x.op == op
  {
    if x in c {
      CopyIsStored(b, bot, op, c, x);
    }
    if InStore(b, x) && x.bot == bot && x.op == op {
      StoredIsCopied(b, bot, op, c, x);
    }
  }

  lemma {:induction false} CopyIsStored(b: Book, bot: bool, op: Operation, c: seq<OrderData>, x: OrderData)
    requires BookInv(b) && StoredCopy(b.Pool(bot).Stack(op), c) && x in c
    ensures InStore(b, x) && x.bot == bot && x.op == op
  {
    var s := b.Pool(bot).Stack(op);
    var i :| 0 <= i < |c| && c[i] == x;
    assert s[i] in s && Resting(s[i], op, bot);
  }

  lemma {:induction false} StoredIsCopied(b: Book, bot: bool, op: Operation, c: seq<OrderData>, x: OrderData)
    requires BookInv(b) && StoredCopy(b.Pool(bot).Stack(op), c) && InStore(b, x) && x.bot == bot && x.op == op
    ensures x in c
  {
    var s := b.Pool(bot).Stack(op);
    var op', y :| y in b.Pool(x.bot).Stack(op') && x == Loaded(y);
    assert Resting(y, op', bot);
    var i :| 0 <= i < |s| && s[i] == y;
    assert c[i] == x;
  }

  /** An order that comes to the book with an id that rests nowhere in its pool. */
  ghost predicate IsNew(b: Book, o: OrderData) {
    && Sane(o) && o.state == Opened && !o.IsMarket()
    && forall op :: !HasId(b.Pool(o.bot).Stack(op), o.id)
  }

  ghost predicate AllNew(b: Book, os: seq<OrderData>) {
    UniqueOrderIds(os) && forall o :: o in os ==> IsNew(b, o)
  }

  /** A new order that makes no trade rests, and nothing else changes. */
  lemma {:induction false} QuietStep(b: Book, o: OrderData)
    requires BookInv(b) && IsNew(b, o) && BookProcess(b, o).trades == []
    ensures BookInv(BookProcess(b, o).book) && Holds(BookProcess(b, o).book, b, [o])
  {
    BookProcessKeeps(b, o);
    QuietPool(b.Pool(o.bot), o);
    InsertContents(DirectionOf(o.op), b.Pool(o.bot).Stack(o.op), o);
  }

  lemma {:induction false} QuietPool(p: Pool, o: OrderData)
    requires PoolInv(p, o.bot) && Sane(o) && o.state == Opened && !o.IsMarket() && !HasId(p.Stack(o.op.Other()), o.id)
    requires Process(p, o).trades == []
    ensures Process(p, o).pool == AddToBook(p, o)
  {
    PoolAllLeft(p, o);
    if !MeetsNothing(p, o) {
      ExecutesAtOnce(p, o);
    }
    RestsAtOnce(p, o);
  }

  lemma {:induction false} StaysNew(b: Book, o: OrderData, x: OrderData)
    requires BookInv(b) && IsNew(b, o) && IsNew(b, x) && x.id != o.id
    ensures IsNew(BookProcess(b, o).book, x)
  {
    var b1 := BookProcess(b, o).book;
    BookProcessKeeps(b, o);
    forall op ensures !HasId(b1.Pool(x.bot).Stack(op), x.id) {
      StaysAway(b, b1, o, x, op);
    }
  }

  lemma {:induction false} StaysAway(b: Book, b1: Book, o: OrderData, x: OrderData, op: Operation)
    requires forall bot, op, y :: y in b1.Pool(bot).Stack(op) ==> y.id == o.id || HasId(b.Pool(bot).Stack(op), y.id)
    requires !HasId(b.Pool(x.bot).Stack(op), x.id) && x.id != o.id
    ensures !HasId(b1.Pool(x.bot).Stack(op), x.id)
  {
    var st := b1.Pool(x.bot).Stack(op);
    forall j | 0 <= j < |st| ensures st[j].id != x.id {
      assert st[j] in b1.Pool(x.bot).Stack(op);
    }
  }

  lemma {:induction false} StillNew(b: Book, os: seq<OrderData>)
    requires BookInv(b) && AllNew(b, os) && os != []
    ensures AllNew(BookProcess(b, os[0]).book, os[1..])
  {
    var rest := os[1..];
    assert os[0] in os;
    forall o | o in rest ensures IsNew(BookProcess(b, os[0]).book, o) {
      var i :| 0 <= i < |rest| && rest[i] == o;
      assert os[i + 1] == o && o in os;
      StaysNew(b, os[0], o);
    }
    forall i, j | 0 <= i < j < |rest| ensures rest[i].id != rest[j].id { assert os[i + 1].id != os[j + 1].id; }
  }

  /** A replay that makes no trade has put every order in its stack, and nothing else. */
  lemma {:induction false} QuietReplay(b: Book, os: seq<OrderData>)
    requires BookInv(b) && AllNew(b, os) && ProcessAll(b, os).trades == []
    ensures Holds(ProcessAll(b, os).book, b, os)
    decreases |os|
  {
    if os != [] {
      var b1 := BookProcess(b, os[0]).book;
      StillNew(b, os);
      assert os[0] in os;
      QuietStep(b, os[0]);
      QuietReplay(b1, os[1..]);
      HoldsJoin(ProcessAll(b, os).book, b1, b, os);
    }
  }

  lemma {:induction false} HoldsJoin(r: Book, b1: Book, b: Book, os: seq<OrderData>)
    requires os != [] && Holds(b1, b, [os[0]]) && Holds(r, b1, os[1..])
    ensures Holds(r, b, os)
  {
    assert os == [os[0]] + os[1..];
    forall bot, op, x ensures x in r.Pool(bot).Stack(op) <==> RestsOrComes(b, os, bot, op, x) {
      assert x in os <==> x == os[0] || x in os[1..];
      assert x in b1.Pool(bot).Stack(op) <==> RestsOrComes(b, [os[0]], bot, op, x);
      assert x in r.Pool(bot).Stack(op) <==> RestsOrComes(b1, os[1..], bot, op, x);
    }
  }
}
