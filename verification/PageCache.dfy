/** The cached first page of a feed that is listed newest first. */
module PageCache {
  import opened OrderTypes

  datatype Row = Row(id: int, body: string)

  type Pos = n: int | n >= 1 witness 1

  /** The rows of the database, newest first: ids descend and start above 0. */
  ghost predicate FeedValid(feed: seq<Row>) {
    && (forall i :: 0 <= i < |feed| ==> feed[i].id > 0)
    && forall i, j :: 0 <= i < j < |feed| ==> feed[i].id > feed[j].id
  }

  function FirstPage(feed: seq<Row>, limit: nat): seq<Row> {
    feed[..Min(limit, |feed|)]
  }

  function Offset(page: Pos, limit: Pos): (o: int)
    ensures o >= 0 && (page == 1 ==> o == 0)
  {
    (page - 1) * limit
  }

  function Page(feed: seq<Row>, page: Pos, limit: Pos): seq<Row>
  {
    var offset := Min(Offset(page, limit), |feed|);
    FirstPage(feed[offset..], limit)
  }

  /** Where the row with this id is, or the number of rows. */
  function IndexOf(rows: seq<Row>, id: int): (k: nat)
    ensures k <= |rows| && (k < |rows| ==> rows[k].id == id)
    ensures forall i :: 0 <= i < k ==> rows[i].id != id
  {
    if rows == [] || rows[0].id == id then 0 else 1 + IndexOf(rows[1..], id)
  }

  function Drop(rows: seq<Row>, id: int): seq<Row> {
    var k := IndexOf(rows, id);
    if k < |rows| then rows[..k] + rows[k + 1..] else rows
  }

  function Put(rows: seq<Row>, row: Row): seq<Row> {
    var k := IndexOf(rows, row.id);
    if k < |rows| then rows[k := row] else rows
  }

  function MaxId(rows: seq<Row>): int
    requires rows != []
  {
    if |rows| == 1 then rows[0].id
    else
      var m := MaxId(rows[1..]);
      if rows[0].id >= m then rows[0].id else m
  }

  /** What a call returns, and what it leaves in the cache; None: nothing to send. */
  datatype Reply = Reply(results: Option<seq<Row>>, cache: Option<seq<Row>>)

  datatype Notice = Changed(row: Row) | Gone(id: int)

  function Hit(cache: Option<seq<Row>>, page: Pos, limit: Pos): bool {
    page == 1 && cache.Some? && |cache.value| >= limit
  }

  /** A notice applied to a cached page that is long enough. */
  function Noticed(rows: seq<Row>, n: Notice): Option<seq<Row>>
    requires rows != []
  {
    match n
    case Gone(id) => if IndexOf(rows, id) < |rows| then Some(Drop(rows, id)) else None
    case Changed(row) =>
      if IndexOf(rows, row.id) < |rows| then Some(Put(rows, row))
      else if row.id == 0 || row.id > MaxId(rows) then Some([row] + rows[..|rows| - 1])
      else None
  }

  function Paginated(cache: Option<seq<Row>>, feed: seq<Row>, notice: Option<Notice>, page: Pos, limit: Pos): Reply
  {
    if !Hit(cache, page, limit) then
      var rows := Page(feed, page, limit);
      Reply(Some(rows), if page == 1 then Some(rows) else cache)
    else if notice.None? then Reply(cache, cache)
    else
      var rows := Noticed(cache.value, notice.value);
      if rows.None? then Reply(None, cache) else Reply(rows, rows)
  }

  class PaginatedNotificator {
    const LIMIT: nat
    var cache: Option<seq<Row>>

    constructor (limit: nat)
      ensures LIMIT == limit && cache == None
    {
      LIMIT, cache := limit, None;
    }

    static method FindSimilarEntryByField(id: int, rows: seq<Row>) returns (k: nat)
      ensures k == IndexOf(rows, id)
    {
      k := 0;
      assert rows[0..] == rows;
      while k < |rows|
        invariant k <= |rows| && IndexOf(rows, id) == k + IndexOf(rows[k..], id)
      {
        assert rows[k..][0] == rows[k] && rows[k..][1..] == rows[k + 1..];
        if rows[k].id == id {
          return;
        }
        k := k + 1;
      }
    }

    /** A page for a reader, or the page to send after a notice. */
    method GetPaginatedData(feed: seq<Row>, notice: Option<Notice>, page: int,
        limit: int) returns (results: Option<seq<Row>>)
      modifies this`cache
      ensures var l := if limit == 0 then LIMIT else limit;
              Reply(results, cache) ==
              Paginated(old(cache), feed, notice, if page < 1 then 1 else page, if l < 1 then 1 else l)
    {
      var l: int := if limit == 0 then LIMIT else limit;
      var p := if page < 1 then 1 else page;
      if l < 1 {
        l := 1;
      }
      if p == 1 && cache.Some? && |cache.value| >= l {
        var data := cache.value;
        if notice.Some? {
          var id := if notice.value.Gone? then notice.value.id else notice.value.row.id;
          var index := FindSimilarEntryByField(id, data);
          var similar := index < |data|;
          var isNew := id == 0 || id > MaxId(data);
          if notice.value.Gone? {
            if !similar {
              return None;
            }
            data := data[..index] + data[index + 1..];
          } else if similar {
            data := data[index := notice.value.row];
          } else if isNew {
            data := data[..|data| - 1];
            data := [notice.value.row] + data;
          } else {
            return None;
          }
          cache := Some(data);
        }
        return Some(data);
      }
      var offset := Min(Offset(p, l), |feed|);
      var rows := FirstPage(feed[offset..], l);
      if p == 1 {
        cache := Some(rows);
      }
      return Some(rows);
    }
  }

  // ---- One feed over time ----

  datatype Event =
    | Insert(row: Row)        // a new row, and its notice
    | Update(row: Row)        // a changed row, and its notice
    | Delete(id: int)         // a row leaves the feed, and its notice
    | Hide(id: int)           // a notice of leaving for a row that stays, as for a partial execution
    | Read(page: Pos, limit: Pos)
    | Expire

  /** The rows, the cached page, and the open rows hidden from it since it was loaded. */
  datatype Feed = Feed(rows: seq<Row>, cache: Option<seq<Row>>, hidden: set<int>)

  ghost predicate Admissible(f: Feed, e: Event) {
    match e
    case Insert(row) => row.id > 0 && forall i :: 0 <= i < |f.rows| ==> f.rows[i].id < row.id
    case Update(row) => IndexOf(f.rows, row.id) < |f.rows|
    case _ => true
  }

  function After(f: Feed, e: Event): seq<Row> {
    match e
    case Insert(row) => [row] + f.rows
    case Update(row) => Put(f.rows, row)
    case Delete(id) => Drop(f.rows, id)
    case _ => f.rows
  }

  function NoticeOf(e: Event): Option<Notice> {
    match e
    case Insert(row) => Some(Changed(row))
    case Update(row) => Some(Changed(row))
    case Delete(id) => Some(Gone(id))
    case Hide(id) => Some(Gone(id))
    case _ => None
  }

  /** Readers choose page and limit; a notice is handled at page 1 and the feed's own limit. */
  function Answer(f: Feed, e: Event, limit: Pos): Reply {
    match e
    case Expire => Reply(None, None)
    case Read(page, l) => Paginated(f.cache, f.rows, None, page, l)
    case _ => Paginated(f.cache, After(f, e), NoticeOf(e), 1, limit)
  }

  /** A reload hides nothing; a row that comes back, comes new or goes is not hidden. */
  function HiddenAfter(f: Feed, e: Event, limit: Pos): set<int> {
    match e
    case Expire => {}
    case Read(page, l) => if page == 1 && !Hit(f.cache, 1, l) then {} else f.hidden
    case _ =>
      if !Hit(f.cache, 1, limit) then {}
      else
        match e
        case Insert(row) => f.hidden - {row.id}
        case Update(row) => if Reappears(f.cache.value, row) then f.hidden - {row.id} else f.hidden
        case Delete(id) => f.hidden - {id}
        case Hide(id) => if IndexOf(f.cache.value, id) < |f.cache.value| then f.hidden + {id} else f.hidden
        case _ => f.hidden
  }

  predicate Reappears(page: seq<Row>, row: Row) {
    page != [] && IndexOf(page, row.id) == |page| && row.id > MaxId(page)
  }

  function Apply(f: Feed, e: Event, limit: Pos): Feed {
    Feed(After(f, e), Answer(f, e, limit).cache, HiddenAfter(f, e, limit))
  }

  function ApplyAll(f: Feed, es: seq<Event>, limit: Pos): Feed
    decreases |es|
  {
    if es == [] then f else ApplyAll(Apply(f, es[0], limit), es[1..], limit)
  }

  ghost predicate AdmissibleAll(f: Feed, es: seq<Event>, limit: Pos)
    decreases |es|
  {
    es == [] || (Admissible(f, es[0]) && AdmissibleAll(Apply(f, es[0], limit), es[1..], limit))
  }

  const START := Feed([], None, {})

  // ---- Pages together ----

  /** Pages 1 to n, one after another. */
  function Pages(feed: seq<Row>, n: nat, limit: Pos): seq<Row> {
    if n == 0 then [] else Pages(feed, n - 1, limit) + Page(feed, n, limit)
  }

  /** How many rows the pages up to this one show together. */
  function UpTo(feed: seq<Row>, page: nat, limit: Pos): (e: nat)
    ensures e <= |feed|
  {
    if page == 0 then 0 else Min(page * limit, |feed|)
  }

  /** Past the first page a reader always gets the rows as they are, and the cache is left alone. */
  lemma {:induction false} LaterPageIsTrue(f: Feed, page: Pos, l: Pos, limit: Pos)
    requires page > 1
    ensures var first, next := UpTo(f.rows, page - 1, l), UpTo(f.rows, page, l);
            first <= next && Answer(f, Read(page, l), limit) == Reply(Some(f.rows[first..next]), f.cache)
  {
    PageRows(f.rows, page, l);
  }

  lemma {:induction false} PageRows(feed: seq<Row>, page: Pos, limit: Pos)
    ensures var first, next := UpTo(feed, page - 1, limit), UpTo(feed, page, limit);
            first <= next && Page(feed, page, limit) == feed[first..next]
  {
    var first, next := UpTo(feed, page - 1, limit), UpTo(feed, page, limit);
    assert page * limit == (page - 1) * limit + limit;
    assert feed[first..][..next - first] == feed[first..next];
  }

  /** The pages neither skip a row nor show one twice. */
  lemma {:induction false} PagesJoin(feed: seq<Row>, n: nat, limit: Pos)
    ensures Pages(feed, n, limit) == feed[..UpTo(feed, n, limit)]
  {
    if n > 0 {
      var first, next := UpTo(feed, n - 1, limit), UpTo(feed, n, limit);
      PagesJoin(feed, n - 1, limit);
      PageRows(feed, n, limit);
      Prefixes(feed, first, next);
    }
  }

  lemma {:induction false} Prefixes<T>(s: seq<T>, first: nat, next: nat)
    requires first <= next <= |s|
    ensures s[..first] + s[first..next] == s[..next]
  {
  }

  lemma {:induction false} DropKeepsFeed(rows: seq<Row>, id: int)
    requires FeedValid(rows)
    ensures FeedValid(Drop(rows, id))
  {
  }

  lemma {:induction false} IndexInPage(rows: seq<Row>, limit: nat, id: int)
    ensures IndexOf(FirstPage(rows, limit), id) < |FirstPage(rows, limit)|
        ==> IndexOf(rows, id) == IndexOf(FirstPage(rows, limit), id)
    ensures IndexOf(FirstPage(rows, limit), id) == |FirstPage(rows, limit)|
        ==> IndexOf(rows, id) >= |FirstPage(rows, limit)|
    decreases |rows|
  {
    if rows != [] && limit > 0 && rows[0].id != id {
      IndexInPage(rows[1..], limit - 1, id);
      assert FirstPage(rows, limit)[1..] == FirstPage(rows[1..], limit - 1);
    }
  }

  lemma {:induction false} MaxIsFirst(rows: seq<Row>)
    requires rows != [] && FeedValid(rows)
    ensures MaxId(rows) == rows[0].id
  {
    if |rows| > 1 {
      MaxIsFirst(rows[1..]);
    }
  }

  lemma {:induction false} InsertNoticed(rows: seq<Row>, row: Row, limit: nat)
    requires 1 <= limit <= |rows| && FeedValid(rows)
    requires row.id > 0 && forall i :: 0 <= i < |rows| ==> rows[i].id < row.id
    ensures Noticed(FirstPage(rows, limit), Changed(row)) == Some(FirstPage([row] + rows, limit))
  {
    MaxIsFirst(rows[..limit]);
    assert IndexOf(rows[..limit], row.id) == limit;
    assert [row] + rows[..limit][..limit - 1] == ([row] + rows)[..limit];
  }

  lemma {:induction false} PutInPage(rows: seq<Row>, limit: nat, k: nat, row: Row)
    requires k < limit <= |rows|
    ensures rows[k := row][..limit] == rows[..limit][k := row]
  {
  }

  lemma {:induction false} PutPastPage(rows: seq<Row>, limit: nat, k: nat, row: Row)
    requires limit <= k < |rows|
    ensures rows[k := row][..limit] == rows[..limit]
  {
  }

  lemma {:induction false} UpdateNoticed(rows: seq<Row>, row: Row, limit: nat)
    requires 1 <= limit <= |rows| && FeedValid(rows) && IndexOf(rows, row.id) < |rows|
    ensures var r := Noticed(FirstPage(rows, limit), Changed(row));
            if r.Some? then r.value == FirstPage(Put(rows, row), limit)
            else FirstPage(Put(rows, row), limit) == FirstPage(rows, limit)
  {
    IndexInPage(rows, limit, row.id);
    MaxIsFirst(rows[..limit]);
    var k := IndexOf(rows, row.id);
    if k < limit {
      PutInPage(rows, limit, k, row);
    } else {
      assert rows[k].id == row.id && rows[0].id > rows[k].id > 0;
      PutPastPage(rows, limit, k, row);
    }
  }

  lemma {:induction false} DropInPage(rows: seq<Row>, limit: nat, k: nat)
    requires k < limit <= |rows|
    ensures rows[..limit][..k] + rows[..limit][k + 1..] == (rows[..k] + rows[k + 1..])[..limit - 1]
  {
  }

  lemma {:induction false} DropPastPage(rows: seq<Row>, limit: nat, k: nat)
    requires limit <= k < |rows|
    ensures (rows[..k] + rows[k + 1..])[..limit] == rows[..limit]
  {
  }

  lemma {:induction false} DeleteNoticed(rows: seq<Row>, id: int, limit: nat)
    requires 1 <= limit <= |rows|
    ensures var r := Noticed(FirstPage(rows, limit), Gone(id));
            if r.Some? then r.value == FirstPage(Drop(rows, id), limit - 1)
            else FirstPage(Drop(rows, id), limit) == FirstPage(rows, limit)
  {
    IndexInPage(rows, limit, id);
    var k := IndexOf(rows, id);
    if k < limit {
      DropInPage(rows, limit, k);
    } else if k < |rows| {
      DropPastPage(rows, limit, k);
    }
  }

  lemma {:induction false} AfterKeepsFeed(f: Feed, e: Event)
    requires FeedValid(f.rows) && Admissible(f, e)
    ensures FeedValid(After(f, e))
  {
    if e.Insert? {
      var n := [e.row] + f.rows;
      assert forall i :: 1 <= i < |n| ==> n[i] == f.rows[i - 1];
    } else if e.Delete? {
      DropKeepsFeed(f.rows, e.id);
    }
  }

  lemma {:induction false} PageOne(rows: seq<Row>, limit: Pos)
    ensures Page(rows, 1, limit) == FirstPage(rows, limit)
  {
    assert rows[0..] == rows;
  }

  // ---- Readers with any limits, and notices that hide rows ----

  /** The rows that are not hidden. */
  function Shown(rows: seq<Row>, hidden: set<int>): seq<Row> {
    if rows == [] then [] else (if rows[0].id in hidden then [] else [rows[0]]) + Shown(rows[1..], hidden)
  }

  ghost predicate HasRow(rows: seq<Row>, id: int) {
    exists i :: 0 <= i < |rows| && rows[i].id == id
  }

  lemma {:induction false} ShownMembers(rows: seq<Row>, hidden: set<int>)
    ensures forall r :: r in Shown(rows, hidden) <==> r in rows && r.id !in hidden
    ensures |Shown(rows, hidden)| <= |rows|
  {
    if rows != [] {
      ShownMembers(rows[1..], hidden);
      assert rows == [rows[0]] + rows[1..];
    }
  }

  lemma {:induction false} ConsValid(x: Row, t: seq<Row>)
    requires FeedValid(t) && x.id > 0 && forall r :: r in t ==> r.id < x.id
    ensures FeedValid([x] + t)
  {
    forall i | 0 <= i < |t| ensures t[i].id < x.id { assert t[i] in t; }
  }

  lemma {:induction false} ShownValid(rows: seq<Row>, hidden: set<int>)
    requires FeedValid(rows)
    ensures FeedValid(Shown(rows, hidden))
  {
    if rows != [] {
      var x, t := rows[0], rows[1..];
      assert rows == [x] + t;
      TailLacks(rows);
      ShownValid(t, hidden);
      ShownCons(x, t, hidden);
      if x.id !in hidden {
        ShownMembers(t, hidden);
        forall r | r in Shown(t, hidden) ensures r.id < x.id {
          var k :| 0 <= k < |t| && t[k] == r;
          assert rows[k + 1] == r;
        }
        ConsValid(x, Shown(t, hidden));
      } else {
        assert [] + Shown(t, hidden) == Shown(t, hidden);
      }
    }
  }

  /** Hiding, or showing again, an id that no row has changes nothing. */
  lemma {:induction false} ShownWithout(rows: seq<Row>, hidden: set<int>, id: int)
    requires !HasRow(rows, id)
    ensures Shown(rows, hidden - {id}) == Shown(rows, hidden) == Shown(rows, hidden + {id})
  {
    if rows != [] {
      assert rows[0].id != id;
      forall i | 0 <= i < |rows[1..]| ensures rows[1..][i].id != id { assert rows[i + 1].id != id; }
      ShownWithout(rows[1..], hidden, id);
    }
  }

  lemma {:induction false} TailLacks(rows: seq<Row>)
    requires FeedValid(rows) && rows != []
    ensures !HasRow(rows[1..], rows[0].id) && FeedValid(rows[1..])
  {
    forall i | 0 <= i < |rows[1..]| ensures rows[1..][i].id != rows[0].id { assert rows[i + 1].id < rows[0].id; }
  }

  lemma {:induction false} ShownCons(x: Row, t: seq<Row>, hidden: set<int>)
    ensures Shown([x] + t, hidden) == (if x.id in hidden then [] else [x]) + Shown(t, hidden)
  {
    assert ([x] + t)[1..] == t;
  }

  lemma {:induction false} DropCons(x: Row, t: seq<Row>, id: int)
    ensures Drop([x] + t, id) == if x.id == id then t else [x] + Drop(t, id)
  {
    var rows := [x] + t;
    assert rows[1..] == t;
    var k := IndexOf(t, id);
    if x.id != id && k < |t| {
      assert rows[..k + 1] + rows[k + 2..] == [x] + (t[..k] + t[k + 1..]);
    }
  }

  lemma {:induction false} PutCons(x: Row, t: seq<Row>, row: Row)
    ensures Put([x] + t, row) == if x.id == row.id then [row] + t else [x] + Put(t, row)
  {
    assert ([x] + t)[1..] == t;
  }

  lemma {:induction false} NotThere(rows: seq<Row>, id: int)
    requires forall r :: r in rows ==> r.id != id
    ensures IndexOf(rows, id) == |rows| && Drop(rows, id) == rows
  {
    forall i | 0 <= i < |rows| ensures rows[i].id != id { assert rows[i] in rows; }
  }

  /** A row that is dropped, or hidden, leaves what is shown. */
  lemma {:induction false} DropShown(rows: seq<Row>, hidden: set<int>, id: int)
    requires FeedValid(rows)
    ensures Shown(Drop(rows, id), hidden - {id}) == Drop(Shown(rows, hidden), id)
    ensures Shown(rows, hidden + {id}) == Drop(Shown(rows, hidden), id)
  {
    if rows != [] {
      var x, t := rows[0], rows[1..];
      assert rows == [x] + t;
      TailLacks(rows);
      DropCons(x, t, id);
      ShownCons(x, t, hidden);
      ShownCons(x, t, hidden + {id});
      if x.id == id {
        ShownWithout(t, hidden, id);
        HeadDropped(x, t, hidden);
      } else {
        DropShown(t, hidden, id);
        ShownCons(x, Drop(t, id), hidden - {id});
        HeadStays(x, Shown(t, hidden), hidden, id);
      }
    }
  }

  lemma {:induction false} HeadStays(x: Row, shown: seq<Row>, hidden: set<int>, id: int)
    requires x.id != id
    ensures var head := if x.id in hidden then [] else [x]; Drop(head + shown, id) == head + Drop(shown, id)
  {
    if x.id in hidden {
      assert [] + shown == shown && [] + Drop(shown, id) == Drop(shown, id);
    } else {
      DropCons(x, shown, id);
    }
  }

  lemma {:induction false} HeadDropped(x: Row, t: seq<Row>, hidden: set<int>)
    requires !HasRow(t, x.id)
    ensures Drop((if x.id in hidden then [] else [x]) + Shown(t, hidden), x.id) == Shown(t, hidden)
  {
    if x.id in hidden {
      ShownMembers(t, hidden);
      NotThere(Shown(t, hidden), x.id);
      assert [] + Shown(t, hidden) == Shown(t, hidden);
    } else {
      DropCons(x, Shown(t, hidden), x.id);
    }
  }

  /** A changed row that is shown changes there; one that is hidden does not show. */
  lemma {:induction false} PutShown(rows: seq<Row>, hidden: set<int>, row: Row)
    requires FeedValid(rows) && HasRow(rows, row.id)
    ensures Shown(Put(rows, row), hidden) ==
            if row.id in hidden then Shown(rows, hidden) else Put(Shown(rows, hidden), row)
  {
    var x, t := rows[0], rows[1..];
    assert rows == [x] + t;
    TailLacks(rows);
    PutCons(x, t, row);
    ShownCons(x, t, hidden);
    if x.id == row.id {
      ShownCons(row, t, hidden);
      if row.id !in hidden { PutCons(x, Shown(t, hidden), row); }
    } else {
      var i :| 0 <= i < |rows| && rows[i].id == row.id;
      assert t[i - 1].id == row.id;
      PutShown(t, hidden, row);
      ShownCons(x, Put(t, row), hidden);
      if x.id !in hidden {
        PutCons(x, Shown(t, hidden), row);
      } else {
        assert [] + Shown(t, hidden) == Shown(t, hidden);
        assert [] + Shown(Put(t, row), hidden) == Shown(Put(t, row), hidden);
      }
    }
  }

  lemma {:induction false} ShownHas(rows: seq<Row>, hidden: set<int>, id: int)
    requires HasRow(rows, id) && id !in hidden
    ensures HasRow(Shown(rows, hidden), id)
  {
    ShownMembers(rows, hidden);
    var i :| 0 <= i < |rows| && rows[i].id == id;
    assert rows[i] in Shown(rows, hidden);
  }

  lemma {:induction false} HeadFirst(rows: seq<Row>, hidden: set<int>)
    requires rows != [] && rows[0].id !in hidden
    ensures Shown(rows, hidden) != [] && Shown(rows, hidden)[0] == rows[0]
  {
  }

  /** A hidden row newer than all that is shown comes back in front of it. */
  lemma {:induction false} ReappearsFirst(rows: seq<Row>, hidden: set<int>, row: Row)
    requires FeedValid(rows) && HasRow(rows, row.id) && row.id in hidden
    requires var s := Shown(rows, hidden); s != [] ==> row.id > s[0].id
    ensures Shown(Put(rows, row), hidden - {row.id}) == [row] + Shown(rows, hidden)
  {
    var x, t := rows[0], rows[1..];
    assert rows == [x] + t;
    TailLacks(rows);
    PutCons(x, t, row);
    ShownCons(x, t, hidden);
    if x.id == row.id {
      ShownWithout(t, hidden, row.id);
      ShownCons(row, t, hidden - {row.id});
      assert [] + Shown(t, hidden) == Shown(t, hidden);
    } else {
      var i :| 0 <= i < |rows| && rows[i].id == row.id;
      assert t[i - 1].id == row.id && x.id > row.id;
      if x.id !in hidden { HeadFirst(rows, hidden); }
      ReappearsFirst(t, hidden, row) by { assert [] + Shown(t, hidden) == Shown(t, hidden); }
      ReappearsBehind(x, t, hidden, row);
    }
  }

  lemma {:induction false} ReappearsBehind(x: Row, t: seq<Row>, hidden: set<int>, row: Row)
    requires x.id in hidden && x.id != row.id
    requires Shown(Put(t, row), hidden - {row.id}) == [row] + Shown(t, hidden)
    ensures Shown(Put([x] + t, row), hidden - {row.id}) == [row] + Shown([x] + t, hidden)
  {
    PutCons(x, t, row);
    ShownCons(x, t, hidden);
    ShownCons(x, Put(t, row), hidden - {row.id});
    assert [] + Shown(t, hidden) == Shown(t, hidden);
    assert [] + Shown(Put(t, row), hidden - {row.id}) == Shown(Put(t, row), hidden - {row.id});
  }

  /** A cached page, of whatever length, holds the newest rows that are not hidden. */
  ghost predicate ShownInv(f: Feed) {
    FeedValid(f.rows) && (f.cache.Some? ==> f.cache.value <= Shown(f.rows, f.hidden))
  }

  lemma {:induction false} InsertKeepsShown(rows: seq<Row>, hidden: set<int>, page: seq<Row>, row: Row)
    requires FeedValid(rows) && page != [] && page <= Shown(rows, hidden)
    requires row.id > 0 && forall i :: 0 <= i < |rows| ==> rows[i].id < row.id
    ensures var r := Noticed(page, Changed(row)); r.Some? && r.value <= Shown([row] + rows, hidden - {row.id})
  {
    var s := Shown(rows, hidden);
    ShownWithout(rows, hidden, row.id);
    ShownMembers(rows, hidden);
    ShownValid(rows, hidden);
    forall i | 0 <= i < |s| ensures s[i].id < row.id { assert s[i] in rows; }
    assert page == FirstPage(s, |page|);
    InsertNoticed(s, row, |page|);
    ShownCons(row, rows, hidden - {row.id});
  }

  lemma {:induction false} HiddenUpdated(rows: seq<Row>, hidden: set<int>, page: seq<Row>, row: Row)
    requires FeedValid(rows) && page != [] && page <= Shown(rows, hidden) && HasRow(rows, row.id) && row.id in hidden
    ensures var r := Noticed(page, Changed(row));
            var hidden' := if Reappears(page, row) then hidden - {row.id} else hidden;
            (if r.Some? then r.value else page) <= Shown(Put(rows, row), hidden')
  {
    var s := Shown(rows, hidden);
    ShownMembers(rows, hidden);
    ShownValid(rows, hidden);
    assert page == s[..|page|];
    forall r | r in page ensures r.id != row.id { assert r in s; }
    NotThere(page, row.id);
    MaxIsFirst(page);
    PutShown(rows, hidden, row);
    RowPositive(rows, row.id);
    if Reappears(page, row) {
      ReappearsFirst(rows, hidden, row);
      assert [row] + page[..|page| - 1] <= [row] + s;
    }
  }

  lemma {:induction false} RowPositive(rows: seq<Row>, id: int)
    requires FeedValid(rows) && HasRow(rows, id)
    ensures id > 0
  {
  }

  lemma {:induction false} PrefixUpdated(s: seq<Row>, page: seq<Row>, row: Row)
    requires FeedValid(s) && page != [] && page <= s && HasRow(s, row.id)
    ensures var r := Noticed(page, Changed(row));
            (if r.Some? then r.value else page) <= Put(s, row) && !Reappears(page, row)
  {
    assert page == FirstPage(s, |page|);
    MaxIsFirst(page);
    var k :| 0 <= k < |s| && s[k].id == row.id;
    assert IndexOf(s, row.id) < |s|;
    assert page[0] == s[0] && s[k].id <= s[0].id;
    UpdateNoticed(s, row, |page|);
  }

  lemma {:induction false} ShownUpdated(rows: seq<Row>, hidden: set<int>, page: seq<Row>, row: Row)
    requires FeedValid(rows) && page != [] && page <= Shown(rows, hidden) && HasRow(rows, row.id) && row.id !in hidden
    ensures var r := Noticed(page, Changed(row));
            (if r.Some? then r.value else page) <= Shown(Put(rows, row), hidden) && !Reappears(page, row)
  {
    ShownValid(rows, hidden);
    PutShown(rows, hidden, row);
    ShownHas(rows, hidden, row.id);
    PrefixUpdated(Shown(rows, hidden), page, row);
  }

  lemma {:induction false} PrefixGone(s: seq<Row>, page: seq<Row>, id: int)
    requires page != [] && page <= s
    ensures var r := Noticed(page, Gone(id)); (if r.Some? then r.value else page) <= Drop(s, id)
  {
    assert page == FirstPage(s, |page|);
    DeleteNoticed(s, id, |page|);
  }

  lemma {:induction false} GoneKeepsShown(rows: seq<Row>, hidden: set<int>, page: seq<Row>, id: int)
    requires FeedValid(rows) && page != [] && page <= Shown(rows, hidden)
    ensures var r := Noticed(page, Gone(id));
            && (if r.Some? then r.value else page) <= Shown(Drop(rows, id), hidden - {id})
            && (r.Some? ==> r.value <= Shown(rows, hidden + {id}))
  {
    DropShown(rows, hidden, id);
    PrefixGone(Shown(rows, hidden), page, id);
  }

  lemma {:induction false} MissKeepsShown(f: Feed, e: Event, limit: Pos)
    requires FeedValid(f.rows) && Admissible(f, e) && NoticeOf(e).Some? && !Hit(f.cache, 1, limit)
    ensures ShownInv(Apply(f, e, limit))
  {
    AfterKeepsFeed(f, e);
    PageOne(After(f, e), limit);
    AllShown(After(f, e));
  }

  lemma {:induction false} ReadKeepsShown(f: Feed, page: Pos, l: Pos, limit: Pos)
    requires ShownInv(f)
    ensures ShownInv(Apply(f, Read(page, l), limit))
  {
    PageOne(f.rows, l);
    AllShown(f.rows);
  }

  lemma {:induction false} ApplyKeepsShown(f: Feed, e: Event, limit: Pos)
    requires ShownInv(f) && Admissible(f, e)
    ensures ShownInv(Apply(f, e, limit))
  {
    if e.Read? {
      ReadKeepsShown(f, e.page, e.limit, limit);
    } else if e.Expire? {
    } else if Hit(f.cache, 1, limit) {
      AfterKeepsFeed(f, e);
      HitKeepsShown(f, e, limit);
    } else {
      MissKeepsShown(f, e, limit);
    }
  }

  lemma {:induction false} HitKeepsShown(f: Feed, e: Event, limit: Pos)
    requires ShownInv(f) && Admissible(f, e) && NoticeOf(e).Some? && Hit(f.cache, 1, limit)
    ensures var f' := Apply(f, e, limit); f'.cache.Some? && f'.cache.value <= Shown(f'.rows, f'.hidden)
  {
    var page := f.cache.value;
    if e.Insert? {
      InsertKeepsShown(f.rows, f.hidden, page, e.row);
    } else if e.Update? {
      assert HasRow(f.rows, e.row.id) by { assert f.rows[IndexOf(f.rows, e.row.id)].id == e.row.id; }
      if e.row.id in f.hidden {
        HiddenUpdated(f.rows, f.hidden, page, e.row);
      } else {
        ShownUpdated(f.rows, f.hidden, page, e.row);
      }
    } else {
      GoneKeepsShown(f.rows, f.hidden, page, e.id);
    }
  }

  lemma {:induction false} AllShown(rows: seq<Row>)
    ensures Shown(rows, {}) == rows
  {
    if rows != [] {
      AllShown(rows[1..]);
    }
  }

  lemma {:induction false} RunKeepsShown(f: Feed, es: seq<Event>, limit: Pos)
    requires ShownInv(f) && AdmissibleAll(f, es, limit)
    ensures ShownInv(ApplyAll(f, es, limit))
    decreases |es|
  {
    if es != [] {
      ApplyKeepsShown(f, es[0], limit);
      RunKeepsShown(Apply(f, es[0], limit), es[1..], limit);
    }
  }

  /** Nothing hidden among the first rows: they are the first shown. */
  lemma {:induction false} FirstShown(rows: seq<Row>, hidden: set<int>, n: nat)
    requires n <= |rows| && forall i :: 0 <= i < n ==> rows[i].id !in hidden
    ensures n <= |Shown(rows, hidden)| && Shown(rows, hidden)[..n] == rows[..n]
    decreases n
  {
    if n > 0 {
      forall i | 0 <= i < n - 1 ensures rows[1..][i].id !in hidden { assert rows[i + 1].id !in hidden; }
      FirstShown(rows[1..], hidden, n - 1);
      var s := Shown(rows, hidden);
      assert s == [rows[0]] + Shown(rows[1..], hidden);
      assert s[..n] == [rows[0]] + Shown(rows[1..], hidden)[..n - 1];
    }
  }

  /** Either there is no page to serve, or it has the length asked for and no open row is hidden from it. */
  ghost predicate Servable(f: Feed, limit: Pos) {
    Hit(f.cache, 1, limit) ==>
      && |f.cache.value| == limit
      && forall r :: r in FirstPage(f.rows, limit) ==> r.id !in f.hidden
  }

  lemma {:induction false} ReadIsFirstPageIff(f: Feed, limit: Pos)
    requires ShownInv(f)
    ensures Paginated(f.cache, f.rows, None, 1, limit).results == Some(FirstPage(f.rows, limit)) <==> Servable(f, limit)
  {
    PageOne(f.rows, limit);
    if Hit(f.cache, 1, limit) {
      var s, c, page := Shown(f.rows, f.hidden), f.cache.value, FirstPage(f.rows, limit);
      ShownMembers(f.rows, f.hidden);
      if Servable(f, limit) {
        forall i | 0 <= i < limit ensures f.rows[i].id !in f.hidden { assert page[i] in page; }
        FirstShown(f.rows, f.hidden, limit);
        assert c == s[..limit];
      }
      if c == page {
        forall r | r in page ensures r.id !in f.hidden { assert r in s; }
      }
    }
  }

  /**
   After any run, readers of any limit and hidden rows included, a reader of page 1 gets the
   true first page if and only if no page is served from the cache, or it has the length asked
   for and lacks none of the first rows: a cached page is served whole.
   */
  lemma {:induction false} ReaderGetsFirstPageIff(es: seq<Event>, limit: Pos, asked: Pos)
    requires AdmissibleAll(START, es, limit)
    ensures var f := ApplyAll(START, es, limit);
            Answer(f, Read(1, asked), limit).results == Some(FirstPage(f.rows, asked)) <==> Servable(f, asked)
  {
    RunKeepsShown(START, es, limit);
    ReadIsFirstPageIff(ApplyAll(START, es, limit), asked);
  }

  /** Two rows cached by one reader are both served to the next, who asked for one. */
  lemma {:induction false} LongerPageIsServedWhole(a: Row, b: Row)
    requires 0 < a.id < b.id
    ensures var es := [Insert(a), Insert(b), Read(1, 2)];
            && AdmissibleAll(START, es, 50)
            && Answer(ApplyAll(START, es, 50), Read(1, 1), 50).results == Some([b, a])
  {
    var es := [Insert(a), Insert(b), Read(1, 2)];
    assert es[1..] == [Insert(b), Read(1, 2)] && es[1..][1..] == [Read(1, 2)] && es[1..][1..][1..] == [];
    PageOne([a], 50);
    PageOne([b, a], 50);
    assert [a] + [] == [a] && [b] + [a] == [b, a];
    assert FirstPage([a], 50) == [a] && FirstPage([b, a], 50) == [b, a];
    var f1, f2 := Feed([a], Some([a]), {}), Feed([b, a], Some([b, a]), {});
    assert Apply(START, Insert(a), 50) == f1;
    assert Apply(f1, Insert(b), 50) == f2;
    assert Apply(f2, Read(1, 2), 50) == f2;
    assert ApplyAll(f2, es[1..][1..], 50) == f2 && AdmissibleAll(f2, es[1..][1..], 50);
    assert ApplyAll(f1, es[1..], 50) == f2 && AdmissibleAll(f1, es[1..], 50);
  }

  /**
   A page of two is cached, then the newer row is noticed gone though it is still open: a
   reader of one row is given the other.
   */
  lemma {:induction false} HiddenRowIsMissing(a: Row, b: Row)
    requires 0 < a.id < b.id
    ensures var es := [Insert(a), Insert(b), Read(1, 2), Hide(b.id)];
            && AdmissibleAll(START, es, 1)
            && var f := ApplyAll(START, es, 1);
               f.rows == [b, a] && Answer(f, Read(1, 1), 1).results == Some([a]) && !Servable(f, 1)
  {
    var f1, f2, f3 := Feed([a], Some([a]), {}), Feed([b, a], Some([b]), {}), Feed([b, a], Some([b, a]), {});
    var f4 := Feed([b, a], Some([a]), {b.id});
    assert Apply(START, Insert(a), 1) == f1 by { assert [a] + [] == [a] && FirstPage([a], 1) == [a]; }
    assert Apply(f1, Insert(b), 1) == f2 by { assert [b] + [a] == [b, a] && [b] + [a][..0] == [b]; }
    assert Apply(f2, Read(1, 2), 1) == f3 by { PageOne([b, a], 2); assert FirstPage([b, a], 2) == [b, a]; }
    assert Apply(f3, Hide(b.id), 1) == f4 by { assert Drop([b, a], b.id) == [a] && {} + {b.id} == {b.id}; }
    FourEvents(START, Insert(a), f1, Insert(b), f2, Read(1, 2), f3, Hide(b.id), f4, 1);
    assert FirstPage([b, a], 1) == [b] && b in [b];
  }

  lemma {:induction false} FourEvents(f: Feed, e: Event, f1: Feed, e1: Event, f2: Feed, e2: Event, f3: Feed,
      e3: Event, f4: Feed, limit: Pos)
    requires Admissible(f, e) && f1 == Apply(f, e, limit) && Admissible(f1, e1) && f2 == Apply(f1, e1, limit)
    requires Admissible(f2, e2) && f3 == Apply(f2, e2, limit) && Admissible(f3, e3) && f4 == Apply(f3, e3, limit)
    ensures AdmissibleAll(f, [e, e1, e2, e3], limit) && ApplyAll(f, [e, e1, e2, e3], limit) == f4
  {
    assert [e, e1, e2, e3][1..] == [e1, e2, e3] && [e1, e2, e3][1..] == [e2, e3];
    assert [e2, e3][1..] == [e3] && [e3][1..] == [];
    assert AdmissibleAll(f3, [e3], limit) && ApplyAll(f3, [e3], limit) == f4;
    assert AdmissibleAll(f2, [e2, e3], limit) && ApplyAll(f2, [e2, e3], limit) == f4;
    assert AdmissibleAll(f1, [e1, e2, e3], limit) && ApplyAll(f1, [e1, e2, e3], limit) == f4;
  }

  // ---- Readers who all use the feed's own limit, with notices that hide rows as well ----

  /** A cached page that is long enough to be served is the true first page. */
  ghost predicate Inv(f: Feed, limit: Pos) {
    FeedValid(f.rows) && (f.cache.Some? && |f.cache.value| >= limit ==> f.cache.value == FirstPage(f.rows, limit))
  }

  /** What a call may answer: the true page, or the first page short of a row just noticed gone. */
  ghost predicate GoodAnswer(f: Feed, e: Event, limit: Pos) {
    var r := Answer(f, e, limit).results;
    r.Some? ==>
      match e
      case Read(page, l) => r.value == Page(f.rows, page, l)
      case Delete(id) => r.value == FirstPage(After(f, e), limit) || r.value == FirstPage(After(f, e), limit - 1)
      case Hide(id) => r.value == FirstPage(f.rows, limit) || r.value == Drop(FirstPage(f.rows, limit), id)
      case _ => r.value == FirstPage(After(f, e), limit)
  }

  ghost predicate AtLimit(e: Event, limit: Pos) {
    e.Read? ==> e.limit == limit
  }

  lemma {:induction false} MissKeeps(f: Feed, e: Event, limit: Pos)
    requires Inv(f, limit) && Admissible(f, e) && AtLimit(e, limit)
    requires e.Expire? || e.Read? || !Hit(f.cache, 1, limit)
    ensures Inv(Apply(f, e, limit), limit) && GoodAnswer(f, e, limit)
  {
    AfterKeepsFeed(f, e);
    PageOne(After(f, e), limit);
  }

  lemma {:induction false} HitKeeps(f: Feed, e: Event, limit: Pos)
    requires Inv(f, limit) && Admissible(f, e) && NoticeOf(e).Some? && Hit(f.cache, 1, limit)
    ensures Inv(Apply(f, e, limit), limit) && GoodAnswer(f, e, limit)
  {
    AfterKeepsFeed(f, e);
    if e.Insert? {
      InsertNoticed(f.rows, e.row, limit);
    } else if e.Update? {
      UpdateNoticed(f.rows, e.row, limit);
    } else {
      DeleteNoticed(f.rows, e.id, limit);
    }
  }

  lemma {:induction false} ApplyKeeps(f: Feed, e: Event, limit: Pos)
    requires Inv(f, limit) && Admissible(f, e) && AtLimit(e, limit)
    ensures Inv(Apply(f, e, limit), limit) && GoodAnswer(f, e, limit)
  {
    if e.Expire? || e.Read? || !Hit(f.cache, 1, limit) {
      MissKeeps(f, e, limit);
    } else {
      HitKeeps(f, e, limit);
    }
  }

  lemma {:induction false} RunKeeps(f: Feed, es: seq<Event>, limit: Pos)
    requires Inv(f, limit) && AdmissibleAll(f, es, limit) && forall e <- es :: AtLimit(e, limit)
    ensures Inv(ApplyAll(f, es, limit), limit)
    decreases |es|
  {
    if es != [] {
      ApplyKeeps(f, es[0], limit);
      RunKeeps(Apply(f, es[0], limit), es[1..], limit);
    }
  }

  /**
   After any run from an empty feed, whatever comes next: what is returned or sent is the
   true first page, or, right after a visible row was noticed gone, that page short of one
   row; and then the next read is the true first page again.
   */
  lemma {:induction false} CachedPageIsTrue(es: seq<Event>, next: Event, limit: Pos)
    requires AdmissibleAll(START, es, limit) && forall e <- es :: AtLimit(e, limit)
    requires Admissible(ApplyAll(START, es, limit), next) && AtLimit(next, limit)
    ensures var f := ApplyAll(START, es, limit);
            && GoodAnswer(f, next, limit)
            && Answer(Apply(f, next, limit), Read(1, limit), limit).results == Some(FirstPage(After(f, next), limit))
  {
    RunKeeps(START, es, limit);
    var f := ApplyAll(START, es, limit);
    ApplyKeeps(f, next, limit);
    ApplyKeeps(Apply(f, next, limit), Read(1, limit), limit);
    PageOne(After(f, next), limit);
  }
}
