/** The block scanner that credits deposits to user wallets. */
module Deposits {
  import opened OrderTypes

  type Address = string
  type TxId = string

  /** An output of a transaction; scripts without an address have None. */
  datatype Output = Output(address: Option<Address>, amount: int)
  datatype Tx = Tx(id: TxId, outputs: seq<Output>)
  datatype Record = Record(wallet: int, tx: TxId, amount: int)

  /** The blocks of the node, fixed by height; a height it does not have raises. */
  type Chain = map<int, seq<Tx>>

  const DEFAULT_BLOCK_ID_DELTA := 100

  /** All wallets by address, and the addresses of users among them. */
  datatype Wallets = Wallets(ids: map<Address, int>, users: set<Address>)
  {
    ghost predicate Valid() {
      users <= ids.Keys && forall a, b :: a in ids && b in ids && ids[a] == ids[b] ==> a == b
    }
  }

  // ---- What one transaction is due ----

  function SumTo(os: seq<Output>, a: Address): int {
    if os == [] then 0 else (if os[0].address == Some(a) then os[0].amount else 0) + SumTo(os[1..], a)
  }

  /** The addresses paid, in order of first appearance. */
  function Paid(os: seq<Output>): (r: seq<Address>)
    ensures forall a :: a in r <==> exists i :: 0 <= i < |os| && os[i].address == Some(a)
    ensures forall i, j :: 0 <= i < j < |r| ==> r[i] != r[j]
  {
    if os == [] then []
    else
      var last := os[|os| - 1].address;
      var before := Paid(os[..|os| - 1]);
      assert forall i :: 0 <= i < |os| - 1 ==> os[..|os| - 1][i] == os[i];
      if last.None? || last.value in before then before else before + [last.value]
  }

  function DueFor(tx: Tx, paid: seq<Address>, w: Wallets): seq<Record>
    requires w.users <= w.ids.Keys
  {
    if paid == [] then []
    else
      var mine := if paid[0] in w.users then [Record(w.ids[paid[0]], tx.id, SumTo(tx.outputs, paid[0]))] else [];
      mine + DueFor(tx, paid[1..], w)
  }

  /** One record for each user address paid, with all the transaction pays it. */
  function Due(tx: Tx, w: Wallets): seq<Record>
    requires w.users <= w.ids.Keys
  {
    DueFor(tx, Paid(tx.outputs), w)
  }

  function DueInBlock(b: seq<Tx>, w: Wallets): seq<Record>
    requires w.users <= w.ids.Keys
  {
    if b == [] then [] else Due(b[0], w) + DueInBlock(b[1..], w)
  }

  /** A record that is already stored is skipped. */
  function Credit(rs: seq<Record>, r: Record): seq<Record> {
    if r in rs then rs else rs + [r]
  }

  function CreditAll(rs: seq<Record>, due: seq<Record>): seq<Record>
    decreases |due|
  {
    if due == [] then rs else CreditAll(Credit(rs, due[0]), due[1..])
  }

  ghost predicate NoRepeat(rs: seq<Record>) {
    forall i, j :: 0 <= i < j < |rs| ==> rs[i] != rs[j]
  }

  lemma {:induction false} CreditAllAdds(rs: seq<Record>, due: seq<Record>)
    ensures forall r :: r in CreditAll(rs, due) <==> r in rs || r in due
    ensures NoRepeat(rs) ==> NoRepeat(CreditAll(rs, due))
    ensures rs <= CreditAll(rs, due)
    decreases |due|
  {
    if due != [] {
      CreditAllAdds(Credit(rs, due[0]), due[1..]);
      assert due == [due[0]] + due[1..];
    }
  }

  lemma {:induction false} CreditAllSplit(rs: seq<Record>, a: seq<Record>, b: seq<Record>)
    ensures CreditAll(rs, a + b) == CreditAll(CreditAll(rs, a), b)
    decreases |a|
  {
    if a == [] {
      assert a + b == b;
    } else {
      assert (a + b)[0] == a[0] && (a + b)[1..] == a[1..] + b;
      CreditAllSplit(Credit(rs, a[0]), a[1..], b);
    }
  }

  /** The blocks from `first` to `last`, one after another; None when the node has no such block. */
  function DueInRange(chain: Chain, first: int, last: int, w: Wallets): Option<seq<Record>>
    requires w.users <= w.ids.Keys
    decreases last - first
  {
    if first > last then Some([])
    else if first !in chain then None
    else
      var rest := DueInRange(chain, first + 1, last, w);
      if rest.None? then None else Some(DueInBlock(chain[first], w) + rest.value)
  }

  /** The stored cursor never goes down; a missing row starts at 0. */
  function StoreCursor(cursor: Option<int>, height: int): int {
    var stored := if cursor.None? then 0 else cursor.value;
    if stored >= height then stored else height
  }

  function LoadCursor(cursor: Option<int>, height: int): int {
    if cursor.None? then height - DEFAULT_BLOCK_ID_DELTA else cursor.value
  }

  datatype ScanResult = ScanResult(ok: bool, cursor: Option<int>, records: seq<Record>)

  /** One run of the scanner with the node at this height; nothing changes when it raises. */
  function Scan(cursor: Option<int>, records: seq<Record>, w: Wallets, chain: Chain, height: int): ScanResult
    requires w.users <= w.ids.Keys
  {
    var last := LoadCursor(cursor, height);
    var due := DueInRange(chain, last + 1, height, w);
    if last == height then ScanResult(true, cursor, records)
    else if due.None? then ScanResult(false, cursor, records)
    else ScanResult(true, Some(StoreCursor(cursor, height)), CreditAll(records, due.value))
  }

  // ---- What a run does ----

  /** What is due, address by address, transaction by transaction, block by block. */
  ghost predicate IsDue(w: Wallets, tx: Tx, a: Address, r: Record) {
    a in w.users && a in w.ids && a in Paid(tx.outputs) && r == Record(w.ids[a], tx.id, SumTo(tx.outputs, a))
  }

  ghost predicate IsDueInBlock(w: Wallets, block: seq<Tx>, i: int, a: Address, r: Record) {
    0 <= i < |block| && IsDue(w, block[i], a, r)
  }

  ghost predicate IsDueAt(w: Wallets, chain: Chain, first: int, last: int, b: int, i: int, a: Address, r: Record) {
    first <= b <= last && b in chain && IsDueInBlock(w, chain[b], i, a, r)
  }

  lemma {:induction false} DueForHas(tx: Tx, paid: seq<Address>, w: Wallets, r: Record)
    requires w.users <= w.ids.Keys && forall a :: a in paid ==> a in Paid(tx.outputs)
    ensures r in DueFor(tx, paid, w) <==> exists a :: a in paid && IsDue(w, tx, a, r)
  {
    if paid != [] {
      DueForHas(tx, paid[1..], w, r);
      assert paid == [paid[0]] + paid[1..];
      assert IsDue(w, tx, paid[0], r) ==> paid[0] in paid;
    }
  }

  lemma {:induction false} DueInBlockHas(block: seq<Tx>, w: Wallets, r: Record)
    requires w.users <= w.ids.Keys
    ensures r in DueInBlock(block, w) <==> exists i, a :: IsDueInBlock(w, block, i, a, r)
  {
    if block != [] {
      DueForHas(block[0], Paid(block[0].outputs), w, r);
      DueInBlockHas(block[1..], w, r);
      if r in Due(block[0], w) {
        var a :| a in Paid(block[0].outputs) && IsDue(w, block[0], a, r);
        assert IsDueInBlock(w, block, 0, a, r);
      } else if r in DueInBlock(block[1..], w) {
        var i, a :| IsDueInBlock(w, block[1..], i, a, r);
        assert IsDueInBlock(w, block, i + 1, a, r);
      }
      if i, a :| IsDueInBlock(w, block, i, a, r) {
        if i == 0 {
          assert a in Paid(block[0].outputs) && IsDue(w, block[0], a, r);
        } else {
          assert IsDueInBlock(w, block[1..], i - 1, a, r);
        }
      }
    }
  }

  ghost predicate IsDueSomewhere(w: Wallets, chain: Chain, first: int, last: int, r: Record) {
    exists b, i, a :: IsDueAt(w, chain, first, last, b, i, a, r)
  }

  /** Due somewhere is due in the first block or in a later one. */
  lemma {:induction false} FirstOrLater(w: Wallets, chain: Chain, first: int, last: int, r: Record)
    requires first <= last && first in chain
    ensures IsDueSomewhere(w, chain, first, last, r) <==>
            (exists i, a :: IsDueInBlock(w, chain[first], i, a, r)) || IsDueSomewhere(w, chain, first + 1, last, r)
  {
    var next := first + 1;
    if b, i, a :| IsDueAt(w, chain, first, last, b, i, a, r) {
      assert b == first || IsDueAt(w, chain, next, last, b, i, a, r);
    }
    if i, a :| IsDueInBlock(w, chain[first], i, a, r) {
      assert IsDueAt(w, chain, first, last, first, i, a, r);
    }
    if b, i, a :| IsDueAt(w, chain, next, last, b, i, a, r) {
      assert IsDueAt(w, chain, first, last, b, i, a, r);
    }
  }

  lemma {:induction false} DueInRangeHas(chain: Chain, first: int, last: int, w: Wallets, r: Record)
    requires w.users <= w.ids.Keys && DueInRange(chain, first, last, w).Some?
    ensures r in DueInRange(chain, first, last, w).value <==> IsDueSomewhere(w, chain, first, last, r)
    decreases last - first
  {
    if first <= last {
      DueInRangeHas(chain, first + 1, last, w, r);
      DueInBlockHas(chain[first], w, r);
      FirstOrLater(w, chain, first, last, r);
    }
  }

  lemma {:induction false} DueSet(chain: Chain, first: int, last: int, w: Wallets)
    requires w.users <= w.ids.Keys && DueInRange(chain, first, last, w).Some?
    ensures forall r :: r in DueInRange(chain, first, last, w).value <==> IsDueSomewhere(w, chain, first, last, r)
  {
    forall r ensures r in DueInRange(chain, first, last, w).value <==> IsDueSomewhere(w, chain, first, last, r) {
      DueInRangeHas(chain, first, last, w, r);
    }
  }

  /** The node has every block from `first` to `last`. */
  ghost predicate HasBlocks(chain: Chain, first: int, last: int) {
    forall b :: first <= b <= last ==> b in chain
  }

  lemma {:induction false} DueInRangeIff(chain: Chain, first: int, last: int, w: Wallets)
    requires w.users <= w.ids.Keys
    ensures DueInRange(chain, first, last, w).Some? <==> HasBlocks(chain, first, last)
    decreases last - first
  {
    if first <= last {
      DueInRangeIff(chain, first + 1, last, w);
    }
  }

  /**
   What one run does, told from the cursor, the node's height and its blocks: a first run takes
   the 100 blocks up to the height, a later one those after the cursor. Without new blocks, or
   with one missing, nothing changes; otherwise exactly what those blocks are due is added and
   the cursor is at the height, unless it was higher.
   */
  ghost predicate Progresses(cursor: Option<int>, records: seq<Record>, w: Wallets, chain: Chain, height: int,
      r: ScanResult)
  {
    var last := if cursor.Some? then cursor.value else height - 100;
    if last == height then r == ScanResult(true, cursor, records)
    else if !HasBlocks(chain, last + 1, height) then r == ScanResult(false, cursor, records)
    else
      && r.ok
      && r.cursor == Some(if cursor.Some? && height < cursor.value then cursor.value
                          else if cursor.None? && height < 0 then 0 else height)
      && (forall x :: x in r.records <==> x in records || IsDueSomewhere(w, chain, last + 1, height, x))
  }

  lemma {:induction false} ScanProgresses(cursor: Option<int>, records: seq<Record>, w: Wallets, chain: Chain,
      height: int)
    requires w.users <= w.ids.Keys
    ensures Progresses(cursor, records, w, chain, height, Scan(cursor, records, w, chain, height))
  {
    var first := (if cursor.Some? then cursor.value else height - 100) + 1;
    DueInRangeIff(chain, first, height, w);
    if HasBlocks(chain, first, height) {
      DueSet(chain, first, height, w);
      CreditAllAdds(records, DueInRange(chain, first, height, w).value);
    }
  }

  // ---- The scanner ----

  class CoinService {
    var cursor: Option<int>
    var records: seq<Record>
    var wallets: Wallets

    constructor ()
      ensures cursor == None && records == [] && wallets == Wallets(map[], {})
    {
      cursor, records, wallets := None, [], Wallets(map[], {});
    }

    method ProcessDeposit(tx: TxId, address: Address, amount: int)
      modifies this`records
      ensures records == if address in wallets.ids
                         then Credit(old(records), Record(wallets.ids[address], tx, amount))
                         else old(records)
    {
      if address !in wallets.ids {
        return;
      }
      var record := Record(wallets.ids[address], tx, amount);
      if record in records {
        return;
      }
      records := records + [record];
    }

    /** What the outputs pay to each address, and the addresses in order of appearance. */
    static method AddUp(outputs: seq<Output>) returns (addresses: seq<Address>, amounts: map<Address, int>)
      ensures addresses == Paid(outputs)
      ensures forall a :: a in amounts <==> a in addresses
      ensures forall a :: a in amounts ==> amounts[a] == SumTo(outputs, a)
    {
      addresses, amounts := [], map[];
      for i := 0 to |outputs|
        invariant addresses == Paid(outputs[..i])
        invariant forall a :: a in amounts <==> a in addresses
        invariant forall a :: a in amounts ==> amounts[a] == SumTo(outputs[..i], a)
      {
        var output := outputs[i];
        assert outputs[..i + 1][..i] == outputs[..i];
        SumToSnoc(outputs, i);
        if output.address.Some? {
          var a := output.address.value;
          if a in amounts {
            amounts := amounts[a := amounts[a] + output.amount];
          } else {
            NothingTo(outputs[..i], a);
            amounts := amounts[a := output.amount];
            addresses := addresses + [a];
          }
        }
      }
      assert outputs[..|outputs|] == outputs;
    }

    /** Credits each user address paid with all that the transaction pays it. */
    method CheckTxForDeposit(tx: Tx)
      requires wallets.users <= wallets.ids.Keys
      modifies this`records
      ensures records == CreditAll(old(records), Due(tx, wallets))
    {
      var addresses, amounts := AddUp(tx.outputs);
      assert addresses[0..] == addresses;
      for i := 0 to |addresses|
        invariant CreditAll(old(records), Due(tx, wallets)) == CreditAll(records, DueFor(tx, addresses[i..], wallets))
      {
        CreditStep(records, tx, addresses, i, wallets);
        if addresses[i] in wallets.users {
          assert addresses[i] in addresses;
          ProcessDeposit(tx.id, addresses[i], amounts[addresses[i]]);
        }
      }
    }

    method ProcessBlock(block: seq<Tx>)
      requires wallets.users <= wallets.ids.Keys
      modifies this`records
      ensures records == CreditAll(old(records), DueInBlock(block, wallets))
    {
      assert block[0..] == block;
      for i := 0 to |block|
        invariant CreditAll(old(records), DueInBlock(block, wallets)) ==
                  CreditAll(records, DueInBlock(block[i..], wallets))
      {
        assert block[i..][0] == block[i] && block[i..][1..] == block[i + 1..];
        CreditAllSplit(records, Due(block[i], wallets), DueInBlock(block[i + 1..], wallets));
        CheckTxForDeposit(block[i]);
      }
    }

    /** One run of the scanner, in a transaction: false when it raised and was rolled back. */
    method ProcessNewBlocks(chain: Chain, height: int) returns (ok: bool)
      requires wallets.users <= wallets.ids.Keys
      modifies this`records, this`cursor
      ensures ScanResult(ok, cursor, records) == Scan(old(cursor), old(records), wallets, chain, height)
      ensures Progresses(old(cursor), old(records), wallets, chain, height, ScanResult(ok, cursor, records))
    {
      ScanProgresses(cursor, records, wallets, chain, height);
      var last := if cursor.None? then height - DEFAULT_BLOCK_ID_DELTA else cursor.value;
      if height == last {
        return true;
      }
      var savepoint := records;
      var id := last + 1;
      ghost var due := DueInRange(chain, id, height, wallets);
      while id <= height
        invariant last < id && cursor == old(cursor)
        invariant Comes(due, savepoint, DueInRange(chain, id, height, wallets), records)
      {
        if id !in chain {
          records := savepoint;
          return false;
        }
        BlockComes(due, savepoint, chain, id, height, wallets, records);
        ProcessBlock(chain[id]);
        id := id + 1;
      }
      cursor := Some(StoreCursor(cursor, height));
      return true;
    }
  }

  /** What is due from the savepoint comes to the same as the rest from the records so far. */
  ghost predicate Comes(due: Option<seq<Record>>, savepoint: seq<Record>, rest: Option<seq<Record>>,
      records: seq<Record>)
  {
    && due.None? == rest.None?
    && (due.Some? ==> CreditAll(savepoint, due.value) == CreditAll(records, rest.value))
  }

  lemma {:induction false} BlockComes(due: Option<seq<Record>>, savepoint: seq<Record>, chain: Chain, id: int,
      height: int, w: Wallets, records: seq<Record>)
    requires w.users <= w.ids.Keys && id in chain && id <= height
    requires Comes(due, savepoint, DueInRange(chain, id, height, w), records)
    ensures Comes(due, savepoint, DueInRange(chain, id + 1, height, w), CreditAll(records, DueInBlock(chain[id], w)))
  {
    var rest := DueInRange(chain, id + 1, height, w);
    if rest.Some? {
      CreditAllSplit(records, DueInBlock(chain[id], w), rest.value);
    }
  }

  lemma {:induction false} CreditStep(rs: seq<Record>, tx: Tx, paid: seq<Address>, i: nat, w: Wallets)
    requires w.users <= w.ids.Keys && i < |paid|
    ensures var rest := DueFor(tx, paid[i + 1..], w);
            CreditAll(rs, DueFor(tx, paid[i..], w)) ==
            if paid[i] in w.users
            then CreditAll(Credit(rs, Record(w.ids[paid[i]], tx.id, SumTo(tx.outputs, paid[i]))), rest)
            else CreditAll(rs, rest)
  {
    assert paid[i..][0] == paid[i] && paid[i..][1..] == paid[i + 1..];
    var rest := DueFor(tx, paid[i + 1..], w);
    if paid[i] in w.users {
      var r := Record(w.ids[paid[i]], tx.id, SumTo(tx.outputs, paid[i]));
      assert ([r] + rest)[1..] == rest;
    } else {
      assert [] + rest == rest;
    }
  }

  lemma {:induction false} SumToSnoc(os: seq<Output>, i: nat)
    requires i < |os|
    ensures forall a ::
              SumTo(os[..i + 1], a) == SumTo(os[..i], a) + if os[i].address == Some(a) then os[i].amount else 0
    decreases i
  {
    if i == 0 {
      assert os[..0] == [] && os[..1] == [os[0]] && [os[0]][1..] == [];
    } else {
      SumToSnoc(os[1..], i - 1);
      assert os[..i + 1][1..] == os[1..][..i] && os[..i][1..] == os[1..][..i - 1];
    }
  }

  lemma {:induction false} NothingTo(os: seq<Output>, a: Address)
    requires a !in Paid(os)
    ensures SumTo(os, a) == 0
  {
    forall i | 0 <= i < |os| ensures os[i].address != Some(a) {}
    NothingPaid(os, a);
  }

  lemma {:induction false} NothingPaid(os: seq<Output>, a: Address)
    requires forall i :: 0 <= i < |os| ==> os[i].address != Some(a)
    ensures SumTo(os, a) == 0
  {
    if os != [] {
      NothingPaid(os[1..], a);
    }
  }

  // ---- Every run ----

  /** The stored rows, and for each scanned block the user addresses there were then. */
  datatype Ledger = Ledger(cursor: Option<int>, records: seq<Record>, wallets: Wallets, scanned: map<int, set<Address>>)

  const EMPTY := Ledger(None, [], Wallets(map[], {}), map[])

  datatype Event =
    | NewWallet(address: Address, id: int, isUser: bool)
    | Run(height: int, interrupted: bool)   // an interrupted run is rolled back

  predicate Admissible(l: Ledger, e: Event) {
    e.NewWallet? ==> e.address !in l.wallets.ids && e.id !in l.wallets.ids.Values
  }

  function Heights(last: int, height: int, users: set<Address>): (m: map<int, set<Address>>)
    ensures forall b :: b in m <==> last < b <= height
    ensures forall b :: b in m ==> m[b] == users
    decreases height - last
  {
    if height <= last then map[] else Heights(last, height - 1, users)[height := users]
  }

  function Apply(l: Ledger, e: Event, chain: Chain): Ledger
    requires l.wallets.users <= l.wallets.ids.Keys
    ensures Apply(l, e, chain).wallets.users <= Apply(l, e, chain).wallets.ids.Keys
  {
    match e
    case NewWallet(a, id, isUser) =>
      l.(wallets := Wallets(l.wallets.ids[a := id], l.wallets.users + if isUser then {a} else {}))
    case Run(height, interrupted) =>
      var last := LoadCursor(l.cursor, height);
      var r := Scan(l.cursor, l.records, l.wallets, chain, height);
      if interrupted || !r.ok || last == height then l
      else Ledger(r.cursor, r.records, l.wallets, l.scanned + Heights(last, height, l.wallets.users))
  }

  function ApplyAll(l: Ledger, es: seq<Event>, chain: Chain): (l': Ledger)
    requires l.wallets.users <= l.wallets.ids.Keys
    ensures l'.wallets.users <= l'.wallets.ids.Keys
    decreases |es|
  {
    if es == [] then l else ApplyAll(Apply(l, es[0], chain), es[1..], chain)
  }

  ghost predicate AdmissibleAll(l: Ledger, es: seq<Event>, chain: Chain)
    requires l.wallets.users <= l.wallets.ids.Keys
    decreases |es|
  {
    es == [] || (Admissible(l, es[0]) && AdmissibleAll(Apply(l, es[0], chain), es[1..], chain))
  }

  /** A transaction id stands for one transaction; heights start at 0. */
  ghost predicate ChainValid(chain: Chain) {
    && (forall b :: b in chain ==> b >= 0)
    && forall b, c, i, j ::
         b in chain && c in chain && 0 <= i < |chain[b]| && 0 <= j < |chain[c]| && chain[b][i].id == chain[c][j].id
         ==> chain[b][i] == chain[c][j]
  }

  /** A user address that a transaction of a scanned block pays. */
  ghost predicate Deposit(l: Ledger, chain: Chain, b: int, i: int, a: Address) {
    b in l.scanned && b in chain && 0 <= i < |chain[b]| && a in l.scanned[b] && a in l.wallets.ids
        && a in Paid(chain[b][i].outputs)
  }

  function RecordOf(l: Ledger, tx: Tx, a: Address): Record
    requires a in l.wallets.ids
  {
    Record(l.wallets.ids[a], tx.id, SumTo(tx.outputs, a))
  }

  ghost predicate Inv(l: Ledger, chain: Chain) {
    && l.wallets.Valid() && NoRepeat(l.records)
    && (forall b :: b in l.scanned ==> b in chain && l.scanned[b] <= l.wallets.users)
    && (l.cursor.None? ==> l.scanned == map[])
    && (l.cursor.Some? ==>
          && l.cursor.value in l.scanned
          && (forall b :: b in l.scanned ==> b <= l.cursor.value)
          && (forall b, c :: b in l.scanned && b <= c <= l.cursor.value ==> c in l.scanned))
    && (forall b, i, a :: Deposit(l, chain, b, i, a) ==> RecordOf(l, chain[b][i], a) in l.records)
    && (forall r :: r in l.records ==> exists b, i, a :: Deposit(l, chain, b, i, a) && r == RecordOf(l, chain[b][i], a))
  }

  lemma {:induction false} NewWalletKeeps(l: Ledger, e: Event, chain: Chain)
    requires e.NewWallet? && Inv(l, chain) && Admissible(l, e)
    ensures Inv(Apply(l, e, chain), chain)
  {
    var l' := Apply(l, e, chain);
    forall b, i, a | Deposit(l', chain, b, i, a) ensures RecordOf(l', chain[b][i], a) in l'.records {
      assert a in l.wallets.users;
      assert Deposit(l, chain, b, i, a);
    }
    forall r | r in l'.records
      ensures exists b, i, a :: Deposit(l', chain, b, i, a) && r == RecordOf(l', chain[b][i], a)
    {
      var b, i, a :| Deposit(l, chain, b, i, a) && r == RecordOf(l, chain[b][i], a);
      assert Deposit(l', chain, b, i, a) && r == RecordOf(l', chain[b][i], a);
    }
  }

  /** The blocks from `first` to `height` join the scanned ones, and what they are due is stored. */
  ghost predicate Grows(l: Ledger, l': Ledger, first: int, height: int, chain: Chain) {
    && l'.wallets == l.wallets
    && (forall b :: b in l'.scanned <==> b in l.scanned || first <= b <= height)
    && (forall b :: b in l'.scanned ==> l'.scanned[b] == if first <= b <= height then l.wallets.users else l.scanned[b])
    && (forall b :: first <= b <= height ==> b in chain)
    && (forall r :: r in l'.records <==> r in l.records || IsDueSomewhere(l.wallets, chain, first, height, r))
  }

  lemma {:induction false} RunGrows(l: Ledger, height: int, chain: Chain)
    requires l.wallets.Valid() && NoRepeat(l.records)
    requires LoadCursor(l.cursor, height) != height && Scan(l.cursor, l.records, l.wallets, chain, height).ok
    ensures var l' := Apply(l, Run(height, false), chain);
            Grows(l, l', LoadCursor(l.cursor, height) + 1, height, chain) && NoRepeat(l'.records)
  {
    var first := LoadCursor(l.cursor, height) + 1;
    var due := DueInRange(chain, first, height, l.wallets).value;
    CreditAllAdds(l.records, due);
    DueSet(chain, first, height, l.wallets);
    DueInRangeIff(chain, first, height, l.wallets);
  }

  lemma {:induction false} DepositHasRecord(l: Ledger, l': Ledger, first: int, height: int, chain: Chain, b: int,
      i: int, a: Address)
    requires Inv(l, chain) && Grows(l, l', first, height, chain) && Deposit(l', chain, b, i, a)
    ensures RecordOf(l', chain[b][i], a) in l'.records
  {
    var r := RecordOf(l', chain[b][i], a);
    if first <= b <= height {
      assert IsDueInBlock(l.wallets, chain[b], i, a, r);
      assert IsDueAt(l.wallets, chain, first, height, b, i, a, r);
    } else {
      assert Deposit(l, chain, b, i, a);
    }
  }

  lemma {:induction false} RecordHasDeposit(l: Ledger, l': Ledger, first: int, height: int, chain: Chain, r: Record)
    requires Inv(l, chain) && Grows(l, l', first, height, chain) && r in l'.records
    ensures exists b, i, a :: Deposit(l', chain, b, i, a) && r == RecordOf(l', chain[b][i], a)
  {
    if r in l.records {
      var b, i, a :| Deposit(l, chain, b, i, a) && r == RecordOf(l, chain[b][i], a);
      assert b in l'.scanned && (first <= b <= height ==> a in l.wallets.users);
      assert Deposit(l', chain, b, i, a) && r == RecordOf(l', chain[b][i], a);
    } else {
      var b, i, a :| IsDueAt(l.wallets, chain, first, height, b, i, a, r);
      assert Deposit(l', chain, b, i, a) && r == RecordOf(l', chain[b][i], a);
    }
  }

  /** A run that commits keeps the invariant. */
  lemma {:induction false} RunCommits(l: Ledger, height: int, chain: Chain)
    requires ChainValid(chain) && Inv(l, chain)
    requires LoadCursor(l.cursor, height) != height && Scan(l.cursor, l.records, l.wallets, chain, height).ok
    ensures Inv(Apply(l, Run(height, false), chain), chain)
  {
    var first := LoadCursor(l.cursor, height) + 1;
    var l' := Apply(l, Run(height, false), chain);
    RunGrows(l, height, chain);
    forall b, i, a | Deposit(l', chain, b, i, a) ensures RecordOf(l', chain[b][i], a) in l'.records {
      DepositHasRecord(l, l', first, height, chain, b, i, a);
    }
    forall r | r in l'.records
      ensures exists b, i, a :: Deposit(l', chain, b, i, a) && r == RecordOf(l', chain[b][i], a)
    {
      RecordHasDeposit(l, l', first, height, chain, r);
    }
  }

  lemma {:induction false} ApplyAllKeeps(l: Ledger, es: seq<Event>, chain: Chain)
    requires ChainValid(chain) && Inv(l, chain) && AdmissibleAll(l, es, chain)
    ensures Inv(ApplyAll(l, es, chain), chain)
    decreases |es|
  {
    if es != [] {
      if es[0].NewWallet? {
        NewWalletKeeps(l, es[0], chain);
      } else if !es[0].interrupted && LoadCursor(l.cursor, es[0].height) != es[0].height
                && Scan(l.cursor, l.records, l.wallets, chain, es[0].height).ok {
        RunCommits(l, es[0].height, chain);
      }
      ApplyAllKeeps(Apply(l, es[0], chain), es[1..], chain);
    }
  }

  /**
   Exactly once, over any run: whatever a transaction of a scanned block pays to an
   address that was a user's when the block was scanned, there is one record of that
   wallet and transaction, and its amount is the sum of those outputs. Scanned blocks
   leave no gap up to the cursor, and no record comes from anything else.
   */
  lemma {:induction false} DepositsCreditedOnce(es: seq<Event>, chain: Chain, b: int, i: int, a: Address)
    requires ChainValid(chain) && AdmissibleAll(EMPTY, es, chain)
    ensures var l := ApplyAll(EMPTY, es, chain);
            Deposit(l, chain, b, i, a) ==>
              exists k :: 0 <= k < |l.records| && l.records[k] == RecordOf(l, chain[b][i], a)
                && forall j ::
                     && 0 <= j < |l.records| && l.records[j].wallet == l.wallets.ids[a]
                     && l.records[j].tx == chain[b][i].id
                     ==> j == k
    ensures var l := ApplyAll(EMPTY, es, chain);
            && (forall r :: r in l.records ==>
                 exists b, i, a :: Deposit(l, chain, b, i, a) && r == RecordOf(l, chain[b][i], a))
            && (l.cursor.Some? ==> forall c, d :: c in l.scanned && c <= d <= l.cursor.value ==> d in l.scanned)
  {
    ApplyAllKeeps(EMPTY, es, chain);
    var l := ApplyAll(EMPTY, es, chain);
    if Deposit(l, chain, b, i, a) {
      var r := RecordOf(l, chain[b][i], a);
      var k :| 0 <= k < |l.records| && l.records[k] == r;
      forall j | 0 <= j < |l.records| && l.records[j].wallet == l.wallets.ids[a]
          && l.records[j].tx == chain[b][i].id ensures j == k {
        assert l.records[j] in l.records;
        var b', i', a' :| Deposit(l, chain, b', i', a') && l.records[j] == RecordOf(l, chain[b'][i'], a');
        assert a' == a && chain[b'][i'] == chain[b][i];
        assert l.records[j] == r;
      }
    }
  }

  lemma {:induction false} ScanCommits(cursor: Option<int>, records: seq<Record>, w: Wallets, chain: Chain,
      height: int, first: int)
    requires w.users <= w.ids.Keys && (cursor.Some? || height >= 0)
    requires first == (if cursor.Some? then cursor.value + 1 else height - 99) <= height
    requires HasBlocks(chain, first, height)
    ensures Scan(cursor, records, w, chain, height).ok && Scan(cursor, records, w, chain, height).cursor == Some(height)
  {
    DueInRangeIff(chain, first, height, w);
  }

  lemma {:induction false} RunScans(l: Ledger, height: int, chain: Chain, first: int)
    requires l.wallets.Valid() && NoRepeat(l.records) && (l.cursor.Some? || height >= 0)
    requires first == (if l.cursor.Some? then l.cursor.value + 1 else height - 99) <= height
    requires HasBlocks(chain, first, height)
    ensures var l' := Apply(l, Run(height, false), chain);
            Grows(l, l', first, height, chain) && l'.cursor == Some(height)
  {
    ScanCommits(l.cursor, l.records, l.wallets, chain, height, first);
    RunGrows(l, height, chain);
  }

  /** The first run over existing blocks scans exactly the 100 up to the node's height. */
  lemma {:induction false} FirstRunScans(l: Ledger, height: int, chain: Chain)
    requires ChainValid(chain) && Inv(l, chain) && l.cursor.None?
    requires forall b :: height - 99 <= b <= height ==> b in chain
    ensures var l' := Apply(l, Run(height, false), chain);
            Grows(l, l', height - 99, height, chain) && l'.cursor == Some(height) && |l'.scanned| == 100
  {
    assert height in chain;
    RunScans(l, height, chain, height - 99);
    CountBlocks(Apply(l, Run(height, false), chain).scanned, height - 99, height);
  }

  /** A later run over existing blocks scans exactly those after the cursor. */
  lemma {:induction false} LaterRunScans(l: Ledger, height: int, chain: Chain)
    requires Inv(l, chain) && l.cursor.Some? && l.cursor.value < height
    requires forall b :: l.cursor.value < b <= height ==> b in chain
    ensures var l' := Apply(l, Run(height, false), chain);
            Grows(l, l', l.cursor.value + 1, height, chain) && l'.cursor == Some(height)
  {
    RunScans(l, height, chain, l.cursor.value + 1);
  }

  lemma {:induction false} CountBlocks<T>(m: map<int, T>, first: int, last: int)
    requires first <= last + 1 && forall b :: b in m <==> first <= b <= last
    ensures |m| == last + 1 - first
    decreases last - first
  {
    if first <= last {
      CountBlocks(m - {last}, first, last - 1);
      assert m == (m - {last})[last := m[last]];
    } else {
      assert m == map[];
    }
  }

  /**
   Whatever ran before: once a run has found all blocks after the cursor, or the last 100 if
   there is none, every payment in them to a user's address has its record.
   */
  lemma {:induction false} EveryDepositArrives(es: seq<Event>, chain: Chain, height: int, b: int, i: int, k: int)
    requires ChainValid(chain) && AdmissibleAll(EMPTY, es, chain)
    requires var l := ApplyAll(EMPTY, es, chain);
             var last := if l.cursor.Some? then l.cursor.value else height - 100;
             && (forall c :: last < c <= height ==> c in chain) && last < b <= height
             && 0 <= i < |chain[b]| && 0 <= k < |chain[b][i].outputs|
    ensures var l := ApplyAll(EMPTY, es, chain);
            var a := chain[b][i].outputs[k].address;
            a.Some? && a.value in l.wallets.users ==>
              Record(l.wallets.ids[a.value], chain[b][i].id, SumTo(chain[b][i].outputs, a.value))
                in Apply(l, Run(height, false), chain).records
  {
    var l := ApplyAll(EMPTY, es, chain);
    var tx := chain[b][i];
    var last := if l.cursor.Some? then l.cursor.value else height - 100;
    ApplyAllKeeps(EMPTY, es, chain);
    assert height in chain;
    RunScans(l, height, chain, last + 1);
    if tx.outputs[k].address.Some? && tx.outputs[k].address.value in l.wallets.users {
      var a := tx.outputs[k].address.value;
      var r := Record(l.wallets.ids[a], tx.id, SumTo(tx.outputs, a));
      assert IsDueInBlock(l.wallets, chain[b], i, a, r);
      assert IsDueAt(l.wallets, chain, last + 1, height, b, i, a, r);
    }
  }

  /** The stored cursor never goes back, however the node's height moves. */
  lemma {:induction false} CursorNeverFalls(l: Ledger, e: Event, chain: Chain)
    requires l.wallets.users <= l.wallets.ids.Keys && l.cursor.Some?
    ensures var c := Apply(l, e, chain).cursor; c.Some? && c.value >= l.cursor.value
  {
  }
}
