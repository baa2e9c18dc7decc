/** The grouped depth tables: orders of one side gathered into price buckets. */
module Grouping {
  import opened Depth

  /** An order as the book exports it. */
  datatype Entry = Entry(id: int, user: int, price: real, quantity: real)

  datatype Bucket = Bucket(price: real, quantity: real, ids: seq<int>, users: seq<int>)
  datatype DepthRow = DepthRow(bucket: Bucket, depth: real)

  // ---- The buckets, in order of appearance ----

  /** Where the bucket of this price is, or the number of buckets. */
  function Find(bs: seq<Bucket>, price: real): (k: nat)
    ensures k <= |bs| && (k < |bs| ==> bs[k].price == price)
    ensures forall i :: 0 <= i < k ==> bs[i].price != price
  {
    if bs == [] || bs[0].price == price then 0 else 1 + Find(bs[1..], price)
  }

  function AddEntry(bs: seq<Bucket>, e: Entry, price: real): seq<Bucket> {
    var k := Find(bs, price);
    if k < |bs| then
      bs[k := Bucket(price, bs[k].quantity + e.quantity, bs[k].ids + [e.id], bs[k].users + [e.user])]
    else
      bs + [Bucket(price, e.quantity, [e.id], [e.user])]
  }

  function Grouped(es: seq<Entry>, p: Precision, isBid: bool): seq<Bucket>
    requires p.digits > 0
  {
    if es == [] then []
    else
      var e := es[|es| - 1];
      AddEntry(Grouped(es[..|es| - 1], p, isBid), e, RoundByPrecision(e.price, p, isBid))
  }

  // ---- What a bucket holds ----

  function QuantityAt(es: seq<Entry>, p: Precision, isBid: bool, price: real): real
    requires p.digits > 0
  {
    if es == [] then 0.0
    else
      var e := es[|es| - 1];
      QuantityAt(es[..|es| - 1], p, isBid, price)
      + if RoundByPrecision(e.price, p, isBid) == price then e.quantity else 0.0
  }

  function IdsAt(es: seq<Entry>, p: Precision, isBid: bool, price: real): seq<int>
    requires p.digits > 0
  {
    if es == [] then []
    else
      var e := es[|es| - 1];
      IdsAt(es[..|es| - 1], p, isBid, price) + if RoundByPrecision(e.price, p, isBid) == price then [e.id] else []
  }

  /** The owners of those orders. */
  function UsersAt(es: seq<Entry>, p: Precision, isBid: bool, price: real): seq<int>
    requires p.digits > 0
  {
    if es == [] then []
    else
      var e := es[|es| - 1];
      UsersAt(es[..|es| - 1], p, isBid, price) + if RoundByPrecision(e.price, p, isBid) == price then [e.user] else []
  }

  ghost predicate OnePerPrice(bs: seq<Bucket>) {
    forall i, j :: 0 <= i < j < |bs| ==> bs[i].price != bs[j].price
  }

  ghost predicate HasPrice(bs: seq<Bucket>, price: real) {
    exists i :: 0 <= i < |bs| && bs[i].price == price
  }

  /** The bucket holds exactly the orders whose rounded price is its price, and their owners. */
  ghost predicate HoldsAt(b: Bucket, es: seq<Entry>, p: Precision, isBid: bool)
    requires p.digits > 0
  {
    && b.quantity == QuantityAt(es, p, isBid, b.price)
    && b.ids == IdsAt(es, p, isBid, b.price) != []
    && b.users == UsersAt(es, p, isBid, b.price)
  }

  /** Each bucket does, and each order has its bucket. */
  ghost predicate Holds(bs: seq<Bucket>, es: seq<Entry>, p: Precision, isBid: bool)
    requires p.digits > 0
  {
    && OnePerPrice(bs)
    && (forall i :: 0 <= i < |bs| ==> HoldsAt(bs[i], es, p, isBid))
    && (forall e :: e in es ==> HasPrice(bs, RoundByPrecision(e.price, p, isBid)))
  }

  lemma {:induction false} NothingAt(bs: seq<Bucket>, es: seq<Entry>, p: Precision, isBid: bool, price: real)
    requires p.digits > 0 && !HasPrice(bs, price)
    requires forall e :: e in es ==> HasPrice(bs, RoundByPrecision(e.price, p, isBid))
    ensures QuantityAt(es, p, isBid, price) == 0.0
    ensures IdsAt(es, p, isBid, price) == UsersAt(es, p, isBid, price) == []
    decreases |es|
  {
    if es != [] {
      assert es[|es| - 1] in es;
      NothingAt(bs, es[..|es| - 1], p, isBid, price);
    }
  }

  lemma {:induction false} GroupedHolds(es: seq<Entry>, p: Precision, isBid: bool)
    requires p.digits > 0
    ensures Holds(Grouped(es, p, isBid), es, p, isBid)
    decreases |es|
  {
    if es != [] {
      var init, e := es[..|es| - 1], es[|es| - 1];
      GroupedHolds(init, p, isBid);
      AddHolds(Grouped(init, p, isBid), init, e, p, isBid);
      assert init + [e] == es;
    }
  }

  lemma {:induction false} AddHoldsAt(bs: seq<Bucket>, init: seq<Entry>, e: Entry, p: Precision, isBid: bool, i: nat)
    requires p.digits > 0 && Holds(bs, init, p, isBid)
    requires i < |AddEntry(bs, e, RoundByPrecision(e.price, p, isBid))|
    ensures HoldsAt(AddEntry(bs, e, RoundByPrecision(e.price, p, isBid))[i], init + [e], p, isBid)
  {
    var price := RoundByPrecision(e.price, p, isBid);
    assert (init + [e])[..|init|] == init;
    if i == |bs| {
      NothingAt(bs, init, p, isBid, price);
    } else {
      assert HoldsAt(bs[i], init, p, isBid);
    }
  }

  lemma {:induction false} AddHolds(bs: seq<Bucket>, init: seq<Entry>, e: Entry, p: Precision, isBid: bool)
    requires p.digits > 0 && Holds(bs, init, p, isBid)
    ensures Holds(AddEntry(bs, e, RoundByPrecision(e.price, p, isBid)), init + [e], p, isBid)
  {
    var price := RoundByPrecision(e.price, p, isBid);
    var k, es := Find(bs, price), init + [e];
    var r := AddEntry(bs, e, price);
    forall i | 0 <= i < |r| ensures HoldsAt(r[i], es, p, isBid) {
      AddHoldsAt(bs, init, e, p, isBid, i);
    }
    forall x | x in es ensures HasPrice(r, RoundByPrecision(x.price, p, isBid)) {
      if x in init {
        var i :| 0 <= i < |bs| && bs[i].price == RoundByPrecision(x.price, p, isBid);
        assert r[i].price == bs[i].price;
      } else {
        assert r[k].price == price;
      }
    }
  }

  function Total(es: seq<Entry>): real {
    if es == [] then 0.0 else Total(es[..|es| - 1]) + es[|es| - 1].quantity
  }

  function BucketTotal(bs: seq<Bucket>): real {
    if bs == [] then 0.0 else bs[0].quantity + BucketTotal(bs[1..])
  }

  /** The quantity of the buckets whose price, rounded again, is this price. */
  function RegroupedAt(bs: seq<Bucket>, p: Precision, isBid: bool, price: real): real
    requires p.digits > 0
  {
    if bs == [] then 0.0
    else (if RoundByPrecision(bs[0].price, p, isBid) == price then bs[0].quantity else 0.0)
         + RegroupedAt(bs[1..], p, isBid, price)
  }

  lemma {:induction false} AddToSums(bs: seq<Bucket>, e: Entry, at: real, p: Precision, isBid: bool, price: real)
    requires p.digits > 0
    ensures BucketTotal(AddEntry(bs, e, at)) == BucketTotal(bs) + e.quantity
    ensures RegroupedAt(AddEntry(bs, e, at), p, isBid, price) ==
            RegroupedAt(bs, p, isBid, price) + if RoundByPrecision(at, p, isBid) == price then e.quantity else 0.0
  {
    var r := AddEntry(bs, e, at);
    if bs == [] {
      assert r == [Bucket(at, e.quantity, [e.id], [e.user])];
      assert r[1..] == [];
    } else if bs[0].price == at {
      assert r[1..] == bs[1..];
    } else {
      AddToSums(bs[1..], e, at, p, isBid, price);
      assert r[1..] == AddEntry(bs[1..], e, at) && r[0] == bs[0];
    }
  }

  /** Nothing is lost or counted twice. */
  lemma {:induction false} GroupingConserves(es: seq<Entry>, p: Precision, isBid: bool)
    requires p.digits > 0
    ensures BucketTotal(Grouped(es, p, isBid)) == Total(es)
    decreases |es|
  {
    if es != [] {
      var e := es[|es| - 1];
      GroupingConserves(es[..|es| - 1], p, isBid);
      AddToSums(Grouped(es[..|es| - 1], p, isBid), e, RoundByPrecision(e.price, p, isBid), p, isBid, 0.0);
    }
  }

  ghost predicate Nest(fine: Precision, coarse: Precision)
    requires fine.digits > 0 && coarse.digits > 0
  {
    StepPositive(fine);
    StepPositive(coarse);
    IsMultiple(coarse.Step(), fine.Step())
  }

  /** Regrouping a fine table gives the coarse one, price by price. */
  lemma {:induction false} RegroupingIsGrouping(es: seq<Entry>, fine: Precision, coarse: Precision, isBid: bool,
      price: real)
    requires fine.digits > 0 && coarse.digits > 0 && Nest(fine, coarse)
    ensures RegroupedAt(Grouped(es, fine, isBid), coarse, isBid, price) == QuantityAt(es, coarse, isBid, price)
    decreases |es|
  {
    if es != [] {
      var e := es[|es| - 1];
      var at := RoundByPrecision(e.price, fine, isBid);
      RegroupingIsGrouping(es[..|es| - 1], fine, coarse, isBid, price);
      AddToSums(Grouped(es[..|es| - 1], fine, isBid), e, at, coarse, isBid, price);
      RoundTwice(e.price, fine, coarse, isBid);
    }
  }

  /** The given ids if the price rounds to this one. */
  function IdsIf(ids: multiset<int>, at: real, p: Precision, isBid: bool, price: real): multiset<int>
    requires p.digits > 0
  {
    if RoundByPrecision(at, p, isBid) == price then ids else multiset{}
  }

  /** The ids in the buckets whose price, rounded again, is this price. */
  function RegroupedIds(bs: seq<Bucket>, p: Precision, isBid: bool, price: real): multiset<int>
    requires p.digits > 0
  {
    if bs == [] then multiset{}
    else IdsIf(multiset(bs[0].ids), bs[0].price, p, isBid, price) + RegroupedIds(bs[1..], p, isBid, price)
  }

  lemma {:induction false} SumSwaps(a: multiset<int>, b: multiset<int>, c: multiset<int>)
    ensures a + (b + c) == (a + b) + c && (a + c) + b == (a + b) + c
  {
  }

  lemma {:induction false} IdsCons(b: Bucket, t: seq<Bucket>, p: Precision, isBid: bool, price: real)
    requires p.digits > 0
    ensures RegroupedIds([b] + t, p, isBid, price) ==
            IdsIf(multiset(b.ids), b.price, p, isBid, price) + RegroupedIds(t, p, isBid, price)
  {
    assert ([b] + t)[1..] == t;
  }

  function Joined(b: Bucket, e: Entry): Bucket {
    Bucket(b.price, b.quantity + e.quantity, b.ids + [e.id], b.users + [e.user])
  }

  lemma {:induction false} AddCons(b: Bucket, t: seq<Bucket>, e: Entry, at: real)
    ensures AddEntry([b] + t, e, at) == if b.price == at then [Joined(b, e)] + t else [b] + AddEntry(t, e, at)
  {
    assert ([b] + t)[1..] == t;
  }

  lemma {:induction false} JoinedIds(b: Bucket, e: Entry, p: Precision, isBid: bool, price: real)
    requires p.digits > 0
    ensures IdsIf(multiset(Joined(b, e).ids), b.price, p, isBid, price) ==
            IdsIf(multiset(b.ids), b.price, p, isBid, price) + IdsIf(multiset{e.id}, b.price, p, isBid, price)
  {
    assert multiset(b.ids + [e.id]) == multiset(b.ids) + multiset{e.id};
  }

  lemma {:induction false} AddToIds(bs: seq<Bucket>, e: Entry, at: real, p: Precision, isBid: bool, price: real)
    requires p.digits > 0
    ensures RegroupedIds(AddEntry(bs, e, at), p, isBid, price) ==
            RegroupedIds(bs, p, isBid, price) + IdsIf(multiset{e.id}, at, p, isBid, price)
  {
    var more := IdsIf(multiset{e.id}, at, p, isBid, price);
    if bs == [] {
      IdsCons(Bucket(at, e.quantity, [e.id], [e.user]), [], p, isBid, price);
      assert multiset([e.id]) == multiset{e.id};
    } else {
      var b, t := bs[0], bs[1..];
      assert bs == [b] + t;
      AddCons(b, t, e, at);
      IdsCons(b, t, p, isBid, price);
      SumSwaps(IdsIf(multiset(b.ids), b.price, p, isBid, price), RegroupedIds(t, p, isBid, price), more);
      if b.price == at {
        JoinedIds(b, e, p, isBid, price);
        IdsCons(Joined(b, e), t, p, isBid, price);
      } else {
        AddToIds(t, e, at, p, isBid, price);
        IdsCons(b, AddEntry(t, e, at), p, isBid, price);
      }
    }
  }

  /** The regrouped buckets hold the same orders as the coarse ones. */
  lemma {:induction false} RegroupingKeepsIds(es: seq<Entry>, fine: Precision, coarse: Precision, isBid: bool,
      price: real)
    requires fine.digits > 0 && coarse.digits > 0 && Nest(fine, coarse)
    ensures RegroupedIds(Grouped(es, fine, isBid), coarse, isBid, price) == multiset(IdsAt(es, coarse, isBid, price))
    decreases |es|
  {
    if es != [] {
      var e := es[|es| - 1];
      var at := RoundByPrecision(e.price, fine, isBid);
      RegroupingKeepsIds(es[..|es| - 1], fine, coarse, isBid, price);
      AddToIds(Grouped(es[..|es| - 1], fine, isBid), e, at, coarse, isBid, price);
      RoundTwice(e.price, fine, coarse, isBid);
    }
  }

  lemma {:induction false} RoundTwice(x: real, fine: Precision, coarse: Precision, isBid: bool)
    requires fine.digits > 0 && coarse.digits > 0 && Nest(fine, coarse)
    ensures RoundByPrecision(RoundByPrecision(x, fine, isBid), coarse, isBid) == RoundByPrecision(x, coarse, isBid)
  {
    var at := RoundByPrecision(x, fine, isBid);
    RoundIsQuantize(x, fine, isBid);
    RoundIsQuantize(x, coarse, isBid);
    RoundIsQuantize(at, coarse, isBid);
    Coarsen(x, fine.Step(), coarse.Step(), isBid);
  }

  /** The quantity of the buckets whose price, rounded again, is at or below this price. */
  function RegroupedUpTo(bs: seq<Bucket>, p: Precision, isBid: bool, price: real): real
    requires p.digits > 0
  {
    if bs == [] then 0.0
    else (if RoundByPrecision(bs[0].price, p, isBid) <= price then bs[0].quantity else 0.0)
         + RegroupedUpTo(bs[1..], p, isBid, price)
  }

  lemma {:induction false} AddToDepths(bs: seq<Bucket>, e: Entry, at: real, p: Precision, isBid: bool, price: real)
    requires p.digits > 0
    ensures RegroupedUpTo(AddEntry(bs, e, at), p, isBid, price) ==
            RegroupedUpTo(bs, p, isBid, price) + if RoundByPrecision(at, p, isBid) <= price then e.quantity else 0.0
    ensures QuantityUpTo(AddEntry(bs, e, at), price) ==
            QuantityUpTo(bs, price) + if at <= price then e.quantity else 0.0
  {
    var r := AddEntry(bs, e, at);
    if bs == [] {
      assert r == [Bucket(at, e.quantity, [e.id], [e.user])];
      assert r[1..] == [];
    } else if bs[0].price == at {
      assert r[1..] == bs[1..];
    } else {
      AddToDepths(bs[1..], e, at, p, isBid, price);
      assert r[1..] == AddEntry(bs[1..], e, at) && r[0] == bs[0];
    }
  }

  /** And the depths of the regrouped table are those of the coarse one. */
  lemma {:induction false} RegroupingKeepsDepth(es: seq<Entry>, fine: Precision, coarse: Precision, isBid: bool,
      price: real)
    requires fine.digits > 0 && coarse.digits > 0 && Nest(fine, coarse)
    ensures RegroupedUpTo(Grouped(es, fine, isBid), coarse, isBid, price) ==
            QuantityUpTo(Grouped(es, coarse, isBid), price)
    decreases |es|
  {
    if es != [] {
      var e, init := es[|es| - 1], es[..|es| - 1];
      RegroupingKeepsDepth(init, fine, coarse, isBid, price);
      AddToDepths(Grouped(init, fine, isBid), e, RoundByPrecision(e.price, fine, isBid), coarse, isBid, price);
      AddToDepths(Grouped(init, coarse, isBid), e, RoundByPrecision(e.price, coarse, isBid), coarse, isBid, price);
      RoundTwice(e.price, fine, coarse, isBid);
    }
  }

  /** Every order is in the bucket of its rounded price, and in no other. */
  lemma {:induction false} EachIdOnce(es: seq<Entry>, p: Precision, isBid: bool, k: nat, i: nat)
    requires p.digits > 0 && k < |es| && forall a, b :: 0 <= a < b < |es| ==> es[a].id != es[b].id
    requires i < |Grouped(es, p, isBid)|
    ensures es[k].id in Grouped(es, p, isBid)[i].ids
        <==> Grouped(es, p, isBid)[i].price == RoundByPrecision(es[k].price, p, isBid)
    ensures HasPrice(Grouped(es, p, isBid), RoundByPrecision(es[k].price, p, isBid))
  {
    GroupedHolds(es, p, isBid);
    assert es[k] in es;
    IdAt(es, p, isBid, Grouped(es, p, isBid)[i].price, k);
  }

  lemma {:induction false} IdAt(es: seq<Entry>, p: Precision, isBid: bool, price: real, k: nat)
    requires p.digits > 0 && k < |es| && forall a, b :: 0 <= a < b < |es| ==> es[a].id != es[b].id
    ensures es[k].id in IdsAt(es, p, isBid, price) <==> RoundByPrecision(es[k].price, p, isBid) == price
    decreases |es|
  {
    var init := es[..|es| - 1];
    if k < |init| {
      IdAt(init, p, isBid, price, k);
    } else {
      IdNotIn(init, p, isBid, price, es[k].id);
    }
  }

  lemma {:induction false} IdNotIn(es: seq<Entry>, p: Precision, isBid: bool, price: real, id: int)
    requires p.digits > 0 && forall a :: 0 <= a < |es| ==> es[a].id != id
    ensures id !in IdsAt(es, p, isBid, price)
    decreases |es|
  {
    if es != [] {
      IdNotIn(es[..|es| - 1], p, isBid, price, id);
    }
  }

  /** Grouped bids stay below grouped asks, at every precision. */
  lemma {:induction false} GroupingNeverCrosses(bids: seq<Entry>, asks: seq<Entry>, p: Precision, i: nat, j: nat)
    requires p.digits > 0 && forall b, a :: b in bids && a in asks ==> b.price < a.price
    requires i < |Grouped(bids, p, true)| && j < |Grouped(asks, p, false)|
    ensures Grouped(bids, p, true)[i].price < Grouped(asks, p, false)[j].price
  {
    var b := SomeEntry(bids, p, true, i);
    var a := SomeEntry(asks, p, false, j);
    RoundIsQuantize(b.price, p, true);
    RoundIsQuantize(a.price, p, false);
    QuantizeBounds(b.price, p.Step(), true);
    QuantizeBounds(a.price, p.Step(), false);
  }

  lemma {:induction false} SomeEntry(es: seq<Entry>, p: Precision, isBid: bool, i: nat) returns (e: Entry)
    requires p.digits > 0 && i < |Grouped(es, p, isBid)|
    ensures e in es && RoundByPrecision(e.price, p, isBid) == Grouped(es, p, isBid)[i].price
  {
    GroupedHolds(es, p, isBid);
    e := FirstAt(es, p, isBid, Grouped(es, p, isBid)[i].price);
  }

  lemma {:induction false} FirstAt(es: seq<Entry>, p: Precision, isBid: bool, price: real) returns (e: Entry)
    requires p.digits > 0 && IdsAt(es, p, isBid, price) != []
    ensures e in es && RoundByPrecision(e.price, p, isBid) == price
    decreases |es|
  {
    e := es[|es| - 1];
    if RoundByPrecision(e.price, p, isBid) != price {
      e := FirstAt(es[..|es| - 1], p, isBid, price);
    }
  }

  // ---- The tables ----

  function InsertByPrice(bs: seq<Bucket>, b: Bucket): seq<Bucket> {
    if bs == [] || b.price < bs[0].price then [b] + bs else [bs[0]] + InsertByPrice(bs[1..], b)
  }

  function SortByPrice(bs: seq<Bucket>): seq<Bucket> {
    if bs == [] then [] else InsertByPrice(SortByPrice(bs[1..]), bs[0])
  }

  ghost predicate Ascending(bs: seq<Bucket>) {
    forall i, j :: 0 <= i < j < |bs| ==> bs[i].price < bs[j].price
  }

  lemma {:induction false} InsertSorted(bs: seq<Bucket>, b: Bucket)
    requires Ascending(bs) && !HasPrice(bs, b.price)
    ensures Ascending(InsertByPrice(bs, b)) && |InsertByPrice(bs, b)| == |bs| + 1
    ensures forall x :: x in InsertByPrice(bs, b) <==> x in bs || x == b
  {
    if bs == [] || b.price < bs[0].price {
    } else {
      var tail := bs[1..];
      forall i | 0 <= i < |tail| ensures tail[i].price != b.price { assert bs[i + 1].price != b.price; }
      InsertSorted(tail, b);
      var r := InsertByPrice(tail, b);
      assert bs == [bs[0]] + tail;
      assert bs[0].price < b.price;
      forall j | 0 <= j < |r| ensures bs[0].price < r[j].price {
        assert r[j] in r;
        if r[j] != b {
          var i :| 0 <= i < |tail| && tail[i] == r[j];
          assert bs[i + 1] == r[j];
        }
      }
    }
  }

  /** Sorting buckets of different prices puts the same buckets in ascending order. */
  lemma {:induction false} SortSorts(bs: seq<Bucket>)
    requires OnePerPrice(bs)
    ensures Ascending(SortByPrice(bs)) && |SortByPrice(bs)| == |bs|
    ensures forall x :: x in SortByPrice(bs) <==> x in bs
  {
    if bs != [] {
      var s := SortByPrice(bs[1..]);
      SortSorts(bs[1..]);
      forall i | 0 <= i < |s| ensures s[i].price != bs[0].price {
        assert s[i] in s;
        var k :| 0 <= k < |bs[1..]| && bs[1..][k] == s[i];
        assert bs[k + 1] == s[i];
      }
      InsertSorted(s, bs[0]);
      assert bs == [bs[0]] + bs[1..];
    }
  }

  /** The quantity of the buckets priced at or below this price. */
  function QuantityUpTo(bs: seq<Bucket>, price: real): real {
    if bs == [] then 0.0 else (if bs[0].price <= price then bs[0].quantity else 0.0) + QuantityUpTo(bs[1..], price)
  }

  lemma {:induction false} UpToPrefix(bs: seq<Bucket>, i: nat)
    requires Ascending(bs) && i < |bs|
    ensures QuantityUpTo(bs, bs[i].price) == BucketTotal(bs[..i + 1])
  {
    assert bs[..i + 1][1..] == bs[1..][..i];
    if i == 0 {
      NothingUpTo(bs[1..], bs[0].price);
      assert bs[..1][1..] == [];
    } else {
      UpToPrefix(bs[1..], i - 1);
    }
  }

  lemma {:induction false} NothingUpTo(bs: seq<Bucket>, price: real)
    requires forall i :: 0 <= i < |bs| ==> price < bs[i].price
    ensures QuantityUpTo(bs, price) == 0.0
  {
    if bs != [] {
      NothingUpTo(bs[1..], price);
    }
  }

  lemma {:induction false} BucketTotalSnoc(bs: seq<Bucket>, i: nat)
    requires i < |bs|
    ensures BucketTotal(bs[..i + 1]) == BucketTotal(bs[..i]) + bs[i].quantity
    decreases i
  {
    if i == 0 {
      assert bs[..0] == [] && bs[..1] == [bs[0]] && [bs[0]][1..] == [];
    } else {
      BucketTotalSnoc(bs[1..], i - 1);
      assert bs[..i + 1][1..] == bs[1..][..i] && bs[..i][1..] == bs[1..][..i - 1];
    }
  }

  /** A running sum of the quantities, from the lowest price up. */
  method RecalculateDepth(bs: seq<Bucket>) returns (rows: seq<DepthRow>)
    ensures |rows| == |bs|
    ensures forall i :: 0 <= i < |bs| ==> rows[i] == DepthRow(bs[i], BucketTotal(bs[..i + 1]))
  {
    var depth := 0.0;
    rows := [];
    for i := 0 to |bs|
      invariant |rows| == i && depth == BucketTotal(bs[..i])
      invariant forall k :: 0 <= k < i ==> rows[k] == DepthRow(bs[k], BucketTotal(bs[..k + 1]))
    {
      BucketTotalSnoc(bs, i);
      depth := depth + bs[i].quantity;
      rows := rows + [DepthRow(bs[i], depth)];
    }
  }

  method RecalculateStackQuantity(buckets: seq<Bucket>, e: Entry, p: Precision, isBid: bool) returns (r: seq<Bucket>)
    requires p.digits > 0
    ensures r == AddEntry(buckets, e, RoundByPrecision(e.price, p, isBid))
  {
    var newPrice := RoundByPrecision(e.price, p, isBid);
    var k := Find(buckets, newPrice);
    if k < |buckets| {
      var b := buckets[k];
      r := buckets[k := b.(quantity := b.quantity + e.quantity, ids := b.ids + [e.id], users := b.users + [e.user])];
    } else {
      r := buckets + [Bucket(newPrice, e.quantity, [e.id], [e.user])];
    }
  }

  /** One side at one precision, dearest bucket first, each with its depth. */
  method GroupSide(entries: seq<Entry>, p: Precision, isBid: bool) returns (table: seq<DepthRow>)
    requires p.digits > 0
    ensures var sorted := SortByPrice(Grouped(entries, p, isBid));
            && Ascending(sorted) && (forall b :: b in sorted <==> b in Grouped(entries, p, isBid))
            && |table| == |sorted| == |Grouped(entries, p, isBid)|
            && forall i :: 0 <= i < |table| ==>
                 && table[i].bucket == sorted[|table| - 1 - i]
                 && table[i].depth == QuantityUpTo(sorted, table[i].bucket.price)
  {
    var buckets: seq<Bucket> := [];
    for i := 0 to |entries|
      invariant buckets == Grouped(entries[..i], p, isBid)
    {
      assert entries[..i + 1][..i] == entries[..i];
      buckets := RecalculateStackQuantity(buckets, entries[i], p, isBid);
    }
    assert entries[..|entries|] == entries;
    GroupedHolds(entries, p, isBid);
    SortSorts(buckets);
    var sorted := SortByPrice(buckets);
    var rows := RecalculateDepth(sorted);
    forall i | 0 <= i < |sorted|
        ensures rows[i].depth == QuantityUpTo(sorted, sorted[i].price) { UpToPrefix(sorted, i); }
    table := seq(|rows|, i requires 0 <= i < |rows| => rows[|rows| - 1 - i]);
  }
}
