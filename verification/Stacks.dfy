/** One side of a book: a list sorted by (price, id) or (-price, id), and an id map. */
module Stacks {
  import opened OrderTypes
  import opened StackModel
  import opened Orders

  /** Where the sorted list puts an order: after every key not greater than its own. */
  function InsertOrder(d: Direction, l: seq<Order>, o: Order): seq<Order>
    reads l, o
  {
    if l == [] || KeyLess(d, o.Row(), l[0].Row()) then [o] + l else [l[0]] + InsertOrder(d, l[1..], o)
  }

  function WithoutId(l: seq<Order>, id: int): seq<Order> {
    if l == [] then [] else if l[0].id == id then l[1..] else [l[0]] + WithoutId(l[1..], id)
  }

  lemma {:induction false} InsertRows(d: Direction, l: seq<Order>, o: Order)
    ensures Rows(InsertOrder(d, l, o)) == Insert(d, Rows(l), o.Row())
  {
    if l == [] || KeyLess(d, o.Row(), l[0].Row()) {
      RowsCons(o, l);
    } else {
      var rest := InsertOrder(d, l[1..], o);
      InsertRows(d, l[1..], o);
      RowsCons(l[0], rest);
      assert Rows(l)[1..] == Rows(l[1..]);
    }
  }

  lemma {:induction false} InsertMembers(d: Direction, l: seq<Order>, o: Order)
    ensures |InsertOrder(d, l, o)| == |l| + 1
    ensures forall x :: x in InsertOrder(d, l, o) <==> x in l || x == o
  {
    if l != [] && !KeyLess(d, o.Row(), l[0].Row()) {
      InsertMembers(d, l[1..], o);
      assert l == [l[0]] + l[1..];
    }
  }

  lemma {:induction false} WithoutIdRows(l: seq<Order>, id: int)
    ensures Rows(WithoutId(l, id)) == Without(Rows(l), id)
  {
    if l == [] {
    } else if l[0].id == id {
      assert Rows(l)[1..] == Rows(l[1..]);
    } else {
      WithoutIdRows(l[1..], id);
      assert Rows(l)[1..] == Rows(l[1..]);
      assert Rows([l[0]] + WithoutId(l[1..], id)) == [l[0].Row()] + Rows(WithoutId(l[1..], id));
    }
  }

  lemma {:induction false} WithoutIdContents(l: seq<Order>, id: int)
    requires DistinctIds(l)
    ensures forall i :: 0 <= i < |WithoutId(l, id)| ==> WithoutId(l, id)[i] in l && WithoutId(l, id)[i].id != id
    ensures forall i :: 0 <= i < |l| && l[i].id != id ==> l[i] in WithoutId(l, id)
    ensures DistinctIds(WithoutId(l, id))
  {
    if l == [] {
    } else if l[0].id == id {
      assert l == [l[0]] + l[1..];
      forall i | 0 < i < |l| ensures l[i] in l[1..] { assert l[1..][i - 1] == l[i]; }
    } else {
      var tail := l[1..];
      WithoutIdContents(tail, id);
      var r := WithoutId(tail, id);
      forall j | 0 <= j < |r| ensures r[j] in l && r[j].id != id && l[0].id != r[j].id {
        var k :| 0 <= k < |tail| && tail[k] == r[j];
        assert l[k + 1] == r[j];
      }
      forall i | 0 < i < |l| && l[i].id != id ensures l[i] in r { assert tail[i - 1] == l[i]; }
      assert WithoutId(l, id) == [l[0]] + r;
    }
  }

  /** Taking out the order that stands between two parts leaves the parts. */
  lemma {:induction false} WithoutIdSplit(a: seq<Order>, o: Order, b: seq<Order>)
    requires DistinctIds(a + [o] + b)
    ensures WithoutId(a + [o] + b, o.id) == a + b
  {
    var l := a + [o] + b;
    assert l[|a|] == o;
    if a == [] {
      assert l[0] == o && l[1..] == b;
    } else {
      assert l[0].id != l[|a|].id;
      assert l[1..] == a[1..] + [o] + b;
      forall i, j | 0 <= i < j < |l[1..]| ensures l[1..][i].id != l[1..][j].id {
        assert l[i + 1].id != l[j + 1].id;
      }
      WithoutIdSplit(a[1..], o, b);
    }
  }

  /** The sorted list's own removal: it searches by the key of the given object, and fails on another key. */
  function ListRemove(d: Direction, l: seq<Order>, o: Order): (r: Option<seq<Order>>)
    reads l, o
  {
    if l == [] then None
    else if KeyLess(d, l[0].Row(), o.Row()) then
      var rest := ListRemove(d, l[1..], o);
      if rest.None? then None else Some([l[0]] + rest.value)
    else if SameKey(l[0].Row(), o.Row()) then Some(l[1..])
    else None
  }

  lemma {:induction false} ListRemoveRows(d: Direction, l: seq<Order>, o: Order)
    ensures ListRemove(d, l, o).Some? <==> RemoveByKey(d, Rows(l), o.Row()).Some?
    ensures ListRemove(d, l, o).Some? ==> DistinctIds(l) ==> ListRemove(d, l, o).value == WithoutId(l, o.id)
  {
    if l != [] && KeyLess(d, l[0].Row(), o.Row()) {
      ListRemoveRows(d, l[1..], o);
      assert Rows(l)[1..] == Rows(l[1..]);
      if ListRemove(d, l[1..], o).Some? && DistinctIds(l) {
        HeldKey(d, l[1..], o);
        var i :| 0 <= i < |l[1..]| && l[1..][i].id == o.id;
        assert l[0].id != l[i + 1].id;
      }
    }
  }

  lemma {:induction false} HeldKey(d: Direction, l: seq<Order>, o: Order)
    requires ListRemove(d, l, o).Some?
    ensures exists i :: 0 <= i < |l| && l[i].id == o.id
  {
    if KeyLess(d, l[0].Row(), o.Row()) {
      HeldKey(d, l[1..], o);
      var i :| 0 <= i < |l[1..]| && l[1..][i].id == o.id;
      assert l[i + 1].id == o.id;
    } else {
      assert l[0].id == o.id;
    }
  }

  class BaseStack {
    const direction: Direction
    var list: seq<Order>
    var orders: map<int, Order>

    constructor (d: Direction)
      ensures Valid() && direction == d && list == []
    {
      direction, list, orders := d, [], map[];
    }

    /** The id map and the list hold the same orders under the same ids. */
    ghost predicate Indexed()
      reads this
    {
      && DistinctIds(list)
      && (forall o :: o in list ==> o.id in orders && orders[o.id] == o)
      && (forall id :: id in orders ==> orders[id] in list && orders[id].id == id)
    }

    ghost predicate Valid()
      reads this, list
    {
      Indexed() && Sorted(direction, View())
    }

    /** The stack is consistent and is the given list without one id. */
    ghost predicate Removed(before: seq<Order>, id: int)
      reads this, list
    {
      && Valid() && list == WithoutId(before, id)
      && (forall i :: 0 <= i < |list| ==> list[i] in before && list[i].id != id)
      && (forall i :: 0 <= i < |before| && before[i].id != id ==> before[i] in list)
    }

    function View(): (r: seq<OrderData>)
      reads this, list
      ensures |r| == |list| && forall i :: 0 <= i < |list| ==> r[i] == list[i].Row()
    {
      Rows(list)
    }

    lemma {:induction false} ViewIds(id: int)
      requires Indexed()
      ensures id in orders <==> HasId(View(), id)
      ensures UniqueIds(View())
    {
      if id in orders {
        var i :| 0 <= i < |list| && list[i] == orders[id];
        assert View()[i].id == id;
      }
      if HasId(View(), id) {
        var i :| 0 <= i < |list| && View()[i].id == id;
        assert list[i] in list;
      }
    }

    /** Trading with orders of the stack leaves it consistent. */
    twostate lemma {:induction false} StaysValid()
      requires old(Valid()) && unchanged(this)
      requires forall j :: 0 <= j < |list| ==> list[j].price == old(list[j].price)
      ensures Valid()
    {
      forall i, j | 0 <= i < j < |View()| ensures KeyLess(direction, View()[i], View()[j]) {
        assert KeyLess(direction, old(View())[i], old(View())[j]);
      }
    }

    /** Asks stand from the cheapest, bids from the dearest, and at one price the lower id is first. */
    lemma {:induction false} StandsInOrder()
      requires Valid()
      ensures forall i, j :: 0 <= i < j < |list| ==>
                || (if direction == Asc then list[i].price < list[j].price else list[i].price > list[j].price)
                || (list[i].price == list[j].price && list[i].id < list[j].id)
    {
      forall i, j | 0 <= i < j < |list| ensures KeyLess(direction, list[i].Row(), list[j].Row()) {
        assert KeyLess(direction, View()[i], View()[j]);
      }
    }

    /** Nothing is here that was not here before, but for this order. */
    twostate predicate Follows(o: Order)
      reads this
    {
      && (forall k :: k in orders ==> k in old(orders) || k == o.id)
      && (forall j :: 0 <= j < |list| ==> list[j] in old(list) || list[j] == o)
    }

    /** Nothing is here that was not here before. */
    twostate predicate Shrinks()
      reads this
    {
      && (forall k :: k in orders ==> k in old(orders))
      && (forall j :: 0 <= j < |list| ==> list[j] in old(list))
    }

    /**
     A fresh id goes to its sorted place. Adding an id that is already there only
     changes the map: the index stays consistent exactly when it is the same object.
     */
    method Add(order: Order)
      requires Valid()
      modifies this
      ensures orders == old(orders)[order.id := order]
      ensures order.id !in old(orders) ==>
                Valid() && View() == Insert(direction, old(View()), order.Row())
                && forall x :: x in list <==> x in old(list) || x == order
      ensures order.id !in old(orders) ==> forall i, j :: 0 <= i < j < |list| ==>
                || (if direction == Asc then list[i].price < list[j].price else list[i].price > list[j].price)
                || (list[i].price == list[j].price && list[i].id < list[j].id)
      ensures order.id in old(orders) ==>
                list == old(list) && (Valid() <==> old(orders)[order.id] == order)
    {
      var alreadyAdded := order.id in orders;
      FreshInsert(order);
      orders := orders[order.id := order];
      if !alreadyAdded {
        list := InsertOrder(direction, list, order);
        AddedFresh(order);
        StandsInOrder();
      } else {
        AddedAgain(order);
      }
    }

    twostate lemma {:induction false} AddedFresh(order: Order)
      requires old(Indexed()) && order.id !in old(orders)
      requires orders == old(orders)[order.id := order] && DistinctIds(list)
      requires forall x :: x in list <==> x in old(list) || x == order
      ensures Indexed()
    {
    }

    twostate lemma {:induction false} AddedAgain(order: Order)
      requires old(Valid()) && order.id in old(orders)
      requires orders == old(orders)[order.id := order] && list == old(list) && View() == old(View())
      ensures Valid() <==> old(orders)[order.id] == order
    {
      assert old(orders)[order.id] in list;
    }

    /** Where a fresh id would go, the list stays sorted and without a second order of any id. */
    lemma {:induction false} FreshInsert(order: Order)
      requires Valid()
      ensures var l := InsertOrder(direction, list, order);
              && Rows(l) == Insert(direction, View(), order.Row())
              && (forall x :: x in l <==> x in list || x == order)
              && (order.id !in orders ==> Sorted(direction, Rows(l)) && DistinctIds(l))
    {
      InsertRows(direction, list, order);
      InsertMembers(direction, list, order);
      if order.id !in orders {
        FreshSorted(order);
      }
    }

    lemma {:induction false} FreshSorted(order: Order)
      requires DistinctIds(list) && Sorted(direction, View()) && forall x :: x in list ==> x.id != order.id
      ensures var l := InsertOrder(direction, list, order);
              Sorted(direction, Rows(l)) && DistinctIds(l)
    {
      var l := InsertOrder(direction, list, order);
      InsertRows(direction, list, order);
      forall i, j | 0 <= i < j < |View()| ensures View()[i].id != View()[j].id {
        assert list[i].id != list[j].id;
      }
      forall i | 0 <= i < |View()| ensures View()[i].id != order.id { assert list[i] in list; }
      InsertKeeps(direction, View(), order.Row());
      forall i, j | 0 <= i < j < |l| ensures l[i].id != l[j].id {
        assert Rows(l)[i].id != Rows(l)[j].id;
      }
    }

    /**
     Removes the held object with this id, whatever the caller's object says its price is.
     The list searches by key and raises when it finds another one, which is swallowed
     here; with the held object it always finds it.
     */
    method Remove(order: Order)
      requires Valid()
      modifies this
      ensures Removed(old(list), order.id)
      ensures View() == Without(old(View()), order.id)
      ensures orders.Keys == old(orders.Keys) - {order.id} && Shrinks()
    {
      ViewIds(order.id);
      WithoutIdContents(list, order.id);
      WithoutIdRows(list, order.id);
      WithoutSorted(direction, View(), order.id);
      if order.id in orders {
        var cached := orders[order.id];
        HeldIsFound(cached);
        var removed := ListRemove(direction, list, cached);
        if removed.None? {
          return;
        }
        list := removed.value;
        orders := orders - {order.id};
      } else {
        WithoutContents(View(), order.id);
        NothingRemoved(list, order.id);
      }
    }

    lemma {:induction false} HeldIsFound(cached: Order)
      requires Valid() && cached in list
      ensures ListRemove(direction, list, cached) == Some(WithoutId(list, cached.id))
    {
      CallersObjectIff(cached);
    }

    /**
     Had the list been asked for the caller's object instead: it is found if and only if its
     price is still the held one's; if not, list and map would keep the id.
     */
    lemma {:induction false} CallersObjectIff(order: Order)
      requires Valid() && order.id in orders
      ensures ListRemove(direction, list, order) ==
              if order.price == orders[order.id].price then Some(WithoutId(list, order.id)) else None
    {
      ViewIds(order.id);
      var held := orders[order.id];
      var i :| 0 <= i < |list| && list[i] == held;
      assert View()[i] == held.Row();
      RemoveByKeyIff(direction, View(), order.Row(), held.Row());
      ListRemoveRows(direction, list, order);
    }

    lemma {:induction false} NothingRemoved(l: seq<Order>, id: int)
      requires forall x :: x in l ==> x.id != id
      ensures WithoutId(l, id) == l
    {
      if l != [] {
        NothingRemoved(l[1..], id);
      }
    }

    predicate Contains(id: int)
      reads this
    {
      id in orders
    }

    function TopPrice(): Option<int>
      reads this, list
    {
      if list == [] then None else Some(list[0].price)
    }
  }
}
