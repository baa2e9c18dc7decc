/**
 A stack as a value: the sequence of its orders, best first. Asks ascend and bids
 descend by price; equal prices go by id.
 */
module StackModel {
  import opened OrderTypes

  datatype Direction = Asc | Desc

  predicate KeyLess(d: Direction, a: OrderData, b: OrderData) {
    (if d == Asc then a.price < b.price else b.price < a.price) || (a.price == b.price && a.id < b.id)
  }

  ghost predicate Sorted(d: Direction, s: seq<OrderData>) {
    forall i, j :: 0 <= i < j < |s| ==> KeyLess(d, s[i], s[j])
  }

  ghost predicate UniqueIds(s: seq<OrderData>) {
    forall i, j :: 0 <= i < j < |s| ==> s[i].id != s[j].id
  }

  predicate HasId(s: seq<OrderData>, id: int) {
    exists i :: 0 <= i < |s| && s[i].id == id
  }

  function Insert(d: Direction, s: seq<OrderData>, o: OrderData): seq<OrderData> {
    if s == [] || KeyLess(d, o, s[0]) then [o] + s else [s[0]] + Insert(d, s[1..], o)
  }

  function Without(s: seq<OrderData>, id: int): seq<OrderData> {
    if s == [] then [] else if s[0].id == id then s[1..] else [s[0]] + Without(s[1..], id)
  }

  lemma {:induction false} InsertContents(d: Direction, s: seq<OrderData>, o: OrderData)
    ensures |Insert(d, s, o)| == |s| + 1
    ensures multiset(Insert(d, s, o)) == multiset(s) + multiset{o}
    ensures forall x :: x in Insert(d, s, o) <==> x in s || x == o
  {
    if s == [] || KeyLess(d, o, s[0]) {
    } else {
      InsertContents(d, s[1..], o);
      assert s == [s[0]] + s[1..];
    }
  }

  /** A fresh id added to a stack keeps it strictly sorted, with one entry per id. */
  lemma {:induction false} InsertKeeps(d: Direction, s: seq<OrderData>, o: OrderData)
    requires Sorted(d, s) && UniqueIds(s) && !HasId(s, o.id)
    ensures Sorted(d, Insert(d, s, o)) && UniqueIds(Insert(d, s, o))
  {
    if s == [] || KeyLess(d, o, s[0]) {
    } else {
      InsertKeeps(d, s[1..], o);
      InsertContents(d, s[1..], o);
      var r := Insert(d, s[1..], o);
      forall j | 0 <= j < |r| ensures KeyLess(d, s[0], r[j]) && s[0].id != r[j].id {
        assert r[j] in r;
        if r[j] != o {
          var k :| 0 <= k < |s[1..]| && s[1..][k] == r[j];
          assert s[k + 1] == r[j];
        }
      }
    }
  }

  /** Two orders stand at the same place of a stack. */
  predicate SameKey(a: OrderData, b: OrderData) {
    a.price == b.price && a.id == b.id
  }

  /** The list without the entry at this order's key; None when the search finds another key. */
  function RemoveByKey(d: Direction, s: seq<OrderData>, o: OrderData): Option<seq<OrderData>> {
    if s == [] then None
    else if KeyLess(d, s[0], o) then
      var rest := RemoveByKey(d, s[1..], o);
      if rest.None? then None else Some([s[0]] + rest.value)
    else if SameKey(s[0], o) then Some(s[1..])
    else None
  }

  /** In a sorted stack the search finds a key that is there, and removes that entry only. */
  lemma {:induction false} RemoveByKeyFinds(d: Direction, s: seq<OrderData>, o: OrderData)
    requires Sorted(d, s) && UniqueIds(s)
    ensures RemoveByKey(d, s, o).Some? <==> exists i :: 0 <= i < |s| && SameKey(s[i], o)
    ensures RemoveByKey(d, s, o).Some? ==> RemoveByKey(d, s, o).value == Without(s, o.id)
  {
    if s == [] {
    } else if KeyLess(d, s[0], o) {
      RemoveByKeyFinds(d, s[1..], o);
      assert !SameKey(s[0], o);
      if i :| 0 <= i < |s| && SameKey(s[i], o) {
        assert SameKey(s[1..][i - 1], o) && s[0].id != s[i].id;
      }
      if RemoveByKey(d, s[1..], o).Some? {
        var i :| 0 <= i < |s[1..]| && SameKey(s[1..][i], o);
        assert SameKey(s[i + 1], o) && s[0].id != s[i + 1].id;
      }
    } else if !SameKey(s[0], o) {
      forall i | 0 <= i < |s| ensures !SameKey(s[i], o) {
        assert i == 0 || KeyLess(d, s[0], s[i]);
      }
    }
  }

  /**
   Searching with an order of the caller's, for an id the stack holds: it is removed if and
   only if the caller's price is still the one it stands at.
   */
  lemma {:induction false} RemoveByKeyIff(d: Direction, s: seq<OrderData>, o: OrderData, held: OrderData)
    requires Sorted(d, s) && UniqueIds(s) && held in s && held.id == o.id
    ensures RemoveByKey(d, s, held) == Some(Without(s, o.id))
    ensures RemoveByKey(d, s, o) == if o.price == held.price then Some(Without(s, o.id)) else None
  {
    RemoveByKeyFinds(d, s, held);
    RemoveByKeyFinds(d, s, o);
    var k :| 0 <= k < |s| && s[k] == held;
    forall i | 0 <= i < |s| && s[i].id == o.id ensures i == k {}
  }

  lemma {:induction false} HasIdTail(s: seq<OrderData>, id: int)
    requires s != []
    ensures HasId(s, id) <==> s[0].id == id || HasId(s[1..], id)
  {
    if HasId(s[1..], id) {
      var k :| 0 <= k < |s[1..]| && s[1..][k].id == id;
      assert s[k + 1].id == id;
    }
    if HasId(s, id) && s[0].id != id {
      var k :| 0 <= k < |s| && s[k].id == id;
      assert s[1..][k - 1].id == id;
    }
  }

  lemma {:induction false} NothingWithout(s: seq<OrderData>, id: int)
    requires !HasId(s, id)
    ensures Without(s, id) == s
  {
    if s != [] {
      HasIdTail(s, id);
      NothingWithout(s[1..], id);
    }
  }

  lemma {:induction false} WithoutMembers(s: seq<OrderData>, id: int)
    requires UniqueIds(s)
    ensures forall x :: x in Without(s, id) <==> x in s && x.id != id
  {
    if s != [] {
      assert s == [s[0]] + s[1..];
      if s[0].id != id {
        WithoutMembers(s[1..], id);
      }
    }
  }

  /** Removing an id takes out exactly the entry with that id. */
  lemma {:induction false} WithoutContents(s: seq<OrderData>, id: int)
    requires UniqueIds(s)
    ensures !HasId(s, id) ==> Without(s, id) == s
    ensures !HasId(Without(s, id), id)
    ensures forall x :: x in Without(s, id) <==> x in s && x.id != id
    ensures UniqueIds(Without(s, id))
  {
    WithoutMembers(s, id);
    if s != [] && s[0].id != id {
      HasIdTail(s, id);
      WithoutContents(s[1..], id);
      var r := Without(s[1..], id);
      forall j | 0 <= j < |r| ensures s[0].id != r[j].id {
        assert r[j] in s[1..];
      }
    }
  }

  lemma {:induction false} WithoutSorted(d: Direction, s: seq<OrderData>, id: int)
    requires Sorted(d, s) && UniqueIds(s)
    ensures Sorted(d, Without(s, id))
  {
    if s == [] {
    } else if s[0].id == id {
    } else {
      WithoutSorted(d, s[1..], id);
      WithoutContents(s[1..], id);
      var r := Without(s[1..], id);
      forall j | 0 <= j < |r| ensures KeyLess(d, s[0], r[j]) {
        assert r[j] in r;
        var k :| 0 <= k < |s[1..]| && s[1..][k] == r[j];
        assert s[k + 1] == r[j];
      }
    }
  }

  /** Adding a fresh order and removing it again gives the stack back. */
  lemma {:induction false} InsertWithout(d: Direction, s: seq<OrderData>, o: OrderData)
    requires !HasId(s, o.id)
    ensures Without(Insert(d, s, o), o.id) == s
  {
    if s == [] || KeyLess(d, o, s[0]) {
      assert ([o] + s)[1..] == s;
    } else {
      assert s[0].id != o.id;
      forall k | 0 <= k < |s[1..]| ensures s[1..][k].id != o.id {
        assert s[k + 1].id != o.id;
      }
      InsertWithout(d, s[1..], o);
      assert ([s[0]] + Insert(d, s[1..], o))[1..] == Insert(d, s[1..], o);
    }
  }

  /** A strictly sorted stack is fixed by the set of its orders. */
  lemma {:induction false} SortedIsUnique(d: Direction, a: seq<OrderData>, b: seq<OrderData>)
    requires Sorted(d, a) && Sorted(d, b)
    requires forall x :: x in a <==> x in b
    ensures a == b
  {
    assert |a| > 0 ==> a[0] in a;
    assert |b| > 0 ==> b[0] in b;
    if a == [] {
    } else {
      assert a[0] in b;
      var i :| 0 <= i < |b| && b[i] == a[0];
      assert b[0] in a;
      var j :| 0 <= j < |a| && a[j] == b[0];
      assert i == 0;
      forall x ensures x in a[1..] <==> x in b[1..] {
        if x in a[1..] {
          var k :| 0 <= k < |a[1..]| && a[1..][k] == x;
          assert a[k + 1] == x && KeyLess(d, a[0], x);
          assert x in b && x != b[0];
          assert b == [b[0]] + b[1..];
        }
        if x in b[1..] {
          var k :| 0 <= k < |b[1..]| && b[1..][k] == x;
          assert b[k + 1] == x && KeyLess(d, b[0], x);
          assert x in a && x != a[0];
          assert a == [a[0]] + a[1..];
        }
      }
      SortedIsUnique(d, a[1..], b[1..]);
      assert a == [a[0]] + a[1..] && b == [b[0]] + b[1..];
    }
  }
}
