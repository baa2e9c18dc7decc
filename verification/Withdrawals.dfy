/** The batch of withdrawals a keeper pays in one transaction. */
module Withdrawals {
  import opened OrderTypes

  type Address = string

  datatype Request = Request(amount: int, destination: Address)
  datatype TxOutput = TxOutput(address: Address, amount: int)

  // ---- Which requests ----

  function Total(rs: seq<Request>): int {
    if rs == [] then 0 else rs[0].amount + Total(rs[1..])
  }

  lemma {:induction false} TotalSnoc(rs: seq<Request>, i: nat)
    requires i < |rs|
    ensures Total(rs[..i + 1]) == Total(rs[..i]) + rs[i].amount
    decreases i
  {
    if i == 0 {
      assert rs[..0] == [] && rs[..1] == [rs[0]] && [rs[0]][1..] == [];
    } else {
      TotalSnoc(rs[1..], i - 1);
      assert rs[..i + 1][1..] == rs[1..][..i] && rs[..i][1..] == rs[1..][..i - 1];
    }
  }

  lemma {:induction false} TotalMonotone(rs: seq<Request>, i: nat, j: nat)
    requires i <= j <= |rs| && forall k :: 0 <= k < |rs| ==> rs[k].amount > 0
    ensures Total(rs[..i]) <= Total(rs[..j])
    decreases j
  {
    if i < j {
      TotalSnoc(rs, j - 1);
      TotalMonotone(rs, i, j - 1);
    }
  }

  /** The prefix that ends before the first request the balance does not cover. */
  ghost predicate CoveredPrefix(rs: seq<Request>, limit: int, result: seq<Request>) {
    && result <= rs
    && (forall j :: 0 < j <= |result| ==> Total(rs[..j]) <= limit)
    && (|result| < |rs| ==> limit < Total(rs[..|result| + 1]))
  }

  /** For positive amounts: the first j requests are paid if and only if the balance covers them together. */
  lemma {:induction false} CoveredIsLongest(rs: seq<Request>, limit: int, result: seq<Request>, j: nat)
    requires CoveredPrefix(rs, limit, result) && forall k :: 0 <= k < |rs| ==> rs[k].amount > 0
    requires 0 < j <= |rs|
    ensures rs[..j] <= result <==> Total(rs[..j]) <= limit
    ensures result == rs[..|result|]
  {
    if j > |result| {
      TotalMonotone(rs, |result| + 1, j);
    } else {
      assert rs[..j] == result[..j];
    }
  }

  /** The requests of the queue, in order of creation, or the selected ones when there are any. */
  method GetSufficientWithdrawalRequests(limit: int, selected: seq<Request>,
      queue: seq<Request>) returns (result: seq<Request>)
    ensures CoveredPrefix(if selected == [] then queue else selected, limit, result)
  {
    var requests := if selected == [] then queue else selected;
    result := [];
    var total := 0;
    for i := 0 to |requests|
      invariant result == requests[..i] && total == Total(result)
      invariant forall j :: 0 < j <= i ==> Total(requests[..j]) <= limit
    {
      var item := requests[i];
      TotalSnoc(requests, i);
      if total + item.amount <= limit {
        total := total + item.amount;
        result := result + [item];
      } else {
        assert requests[..i] <= requests && requests[..|result| + 1] == requests[..i + 1];
        return;
      }
    }
  }

  // ---- What the transaction pays ----

  function PaidTo(os: seq<TxOutput>, a: Address): int {
    if os == [] then 0 else (if os[0].address == a then os[0].amount else 0) + PaidTo(os[1..], a)
  }

  function Sum(os: seq<TxOutput>): int {
    if os == [] then 0 else os[0].amount + Sum(os[1..])
  }

  predicate PaysTo(os: seq<TxOutput>, a: Address) {
    exists i :: 0 <= i < |os| && os[i].address == a
  }

  lemma {:induction false} OutputsSnoc(os: seq<TxOutput>, i: nat, a: Address)
    requires i < |os|
    ensures Sum(os[..i + 1]) == Sum(os[..i]) + os[i].amount
    ensures PaidTo(os[..i + 1], a) == PaidTo(os[..i], a) + if os[i].address == a then os[i].amount else 0
    decreases i
  {
    if i == 0 {
      assert os[..0] == [] && os[..1] == [os[0]] && [os[0]][1..] == [];
    } else {
      OutputsSnoc(os[1..], i - 1, a);
      assert os[..i + 1][1..] == os[1..][..i] && os[..i][1..] == os[1..][..i - 1];
    }
  }

  lemma {:induction false} PaidToNobody(os: seq<TxOutput>, a: Address)
    requires !PaysTo(os, a)
    ensures PaidTo(os, a) == 0
  {
    if os != [] {
      assert os[0].address != a;
      forall i | 0 <= i < |os[1..]| ensures os[1..][i].address != a { assert os[i + 1].address != a; }
      PaidToNobody(os[1..], a);
    }
  }

  /** A dictionary in insertion order: its keys, and their amounts. */
  datatype Outputs = Outputs(keys: seq<Address>, amounts: map<Address, int>) {
    ghost predicate Valid() {
      && (forall a :: a in amounts <==> a in keys)
      && forall i, j :: 0 <= i < j < |keys| ==> keys[i] != keys[j]
    }

    function Set(a: Address, x: int): Outputs {
      Outputs(if a in amounts then keys else keys + [a], amounts[a := x])
    }

    function Values(): int
      requires forall i :: 0 <= i < |keys| ==> keys[i] in amounts
    {
      SumOver(keys, amounts)
    }
  }

  function SumOver(keys: seq<Address>, m: map<Address, int>): int
    requires forall i :: 0 <= i < |keys| ==> keys[i] in m
  {
    if keys == [] then 0 else m[keys[0]] + SumOver(keys[1..], m)
  }

  lemma {:induction false} SumOverSet(keys: seq<Address>, m: map<Address, int>, a: Address, x: int)
    requires forall i :: 0 <= i < |keys| ==> keys[i] in m
    requires forall i, j :: 0 <= i < j < |keys| ==> keys[i] != keys[j]
    ensures SumOver(keys, m[a := x]) == SumOver(keys, m) + if a in keys then x - (if a in m then m[a] else 0) else 0
  {
    if keys != [] {
      SumOverSet(keys[1..], m, a, x);
      assert keys == [keys[0]] + keys[1..];
      if keys[0] == a {
        forall i | 0 <= i < |keys[1..]| ensures keys[1..][i] != a { assert keys[0] != keys[i + 1]; }
      }
    }
  }

  lemma {:induction false} SumOverSnoc(keys: seq<Address>, m: map<Address, int>, a: Address)
    requires a in m && forall i :: 0 <= i < |keys| ==> keys[i] in m
    ensures SumOver(keys + [a], m) == SumOver(keys, m) + m[a]
  {
    if keys == [] {
      assert [] + [a] == [a] && [a][1..] == [];
    } else {
      SumOverSnoc(keys[1..], m, a);
      assert (keys + [a])[1..] == keys[1..] + [a];
    }
  }

  /** Setting a key changes the sum of the values by the difference. */
  lemma {:induction false} SetChangesSum(d: Outputs, a: Address, x: int)
    requires d.Valid()
    ensures d.Set(a, x).Valid()
    ensures d.Set(a, x).Values() == d.Values() + x - if a in d.amounts then d.amounts[a] else 0
  {
    SumOverSet(d.keys, d.amounts, a, x);
    if a !in d.amounts {
      SumOverSnoc(d.keys, d.amounts[a := x], a);
    }
  }

  /** What the keeper gets back: its balance without the fee and all that others are paid. */
  function Change(os: seq<TxOutput>, keeper: Address, balance: int, fee: int): int {
    balance - fee - (Sum(os) - PaidTo(os, keeper))
  }

  /**
   The transaction's outputs, or None when the change would be negative. Together with
   the fee they are worth the keeper's balance; every other address gets the sum of its
   outputs, no one else gets anything.
   */
  method SendFromKeeper(outputs: seq<TxOutput>, keeper: Address, balance: int,
      transferFee: int) returns (r: Option<Outputs>)
    ensures r.Some? <==> Change(outputs, keeper, balance, transferFee) >= 0
    ensures r.Some? ==>
              && r.value.Valid()
              && r.value.Values() + transferFee == balance
              && (forall a :: a in r.value.amounts <==> a == keeper || PaysTo(outputs, a))
              && (forall a :: a in r.value.amounts && a != keeper ==> r.value.amounts[a] == PaidTo(outputs, a))
              && r.value.amounts[keeper] == Change(outputs, keeper, balance, transferFee) >= 0
  {
    var d := AddUp(outputs);
    // the address the change goes to
    SetChangesSum(d, keeper, 0);
    if keeper !in d.amounts { PaidToNobody(outputs, keeper); }
    d := d.Set(keeper, 0);
    var chargeback := balance - transferFee - d.Values();
    if chargeback < 0 {
      return None;
    }
    SetChangesSum(d, keeper, chargeback);
    d := d.Set(keeper, chargeback);
    return Some(d);
  }

  method AddUp(outputs: seq<TxOutput>) returns (d: Outputs)
    ensures AddedUp(outputs, d)
  {
    d := Outputs([], map[]);
    assert outputs[..0] == [];
    for i := 0 to |outputs|
      invariant AddedUp(outputs[..i], d)
    {
      var item := outputs[i];
      var amount := if item.address in d.amounts then d.amounts[item.address] + item.amount else item.amount;
      AddNext(outputs, i, d);
      d := d.Set(item.address, amount);
    }
    assert outputs[..|outputs|] == outputs;
  }

  /** Each paid address once, with the sum of what it is paid. */
  ghost predicate AddedUp(os: seq<TxOutput>, d: Outputs) {
    d.Valid() && d.Values() == Sum(os) && PaidAmounts(os, d.amounts)
  }

  /** The dictionary with one more output. */
  function Plus(d: Outputs, o: TxOutput): Outputs {
    d.Set(o.address, if o.address in d.amounts then d.amounts[o.address] + o.amount else o.amount)
  }

  lemma {:induction false} AddNext(os: seq<TxOutput>, i: nat, d: Outputs)
    requires i < |os| && AddedUp(os[..i], d)
    ensures AddedUp(os[..i + 1], Plus(d, os[i]))
  {
    PlusSum(d, os[i]);
    PlusPaid(os, i, d.amounts);
    OutputsGrow(os, i);
  }

  lemma {:induction false} PlusSum(d: Outputs, o: TxOutput)
    requires d.Valid()
    ensures Plus(d, o).Valid() && Plus(d, o).Values() == d.Values() + o.amount
  {
    SetChangesSum(d, o.address, if o.address in d.amounts then d.amounts[o.address] + o.amount else o.amount);
  }

  ghost predicate PaidAmounts(os: seq<TxOutput>, m: map<Address, int>) {
    forall a :: (a in m <==> PaysTo(os, a)) && (a in m ==> m[a] == PaidTo(os, a))
  }

  lemma {:induction false} PlusPaid(os: seq<TxOutput>, i: nat, m: map<Address, int>)
    requires i < |os| && PaidAmounts(os[..i], m)
    ensures var x, a := os[i].amount, os[i].address;
            PaidAmounts(os[..i + 1], m[a := if a in m then m[a] + x else x])
  {
    OutputsGrow(os, i);
    PaysToSnoc(os, i);
    if os[i].address !in m { PaidToNobody(os[..i], os[i].address); }
  }

  lemma {:induction false} OutputsGrow(os: seq<TxOutput>, i: nat)
    requires i < |os|
    ensures Sum(os[..i + 1]) == Sum(os[..i]) + os[i].amount
    ensures forall a :: PaidTo(os[..i + 1], a) == PaidTo(os[..i], a) + if os[i].address == a then os[i].amount else 0
  {
    OutputsSnoc(os, i, os[i].address);
    forall a ensures PaidTo(os[..i + 1], a) == PaidTo(os[..i], a) + if os[i].address == a then os[i].amount else 0 {
      OutputsSnoc(os, i, a);
    }
  }

  lemma {:induction false} PaysToSnoc(os: seq<TxOutput>, i: nat)
    requires i < |os|
    ensures forall a :: PaysTo(os[..i + 1], a) <==> PaysTo(os[..i], a) || os[i].address == a
  {
    forall a ensures PaysTo(os[..i + 1], a) <==> PaysTo(os[..i], a) || os[i].address == a {
      if PaysTo(os[..i], a) {
        var k :| 0 <= k < i && os[..i][k].address == a;
        assert os[..i + 1][k].address == a;
      }
      if os[i].address == a { assert os[..i + 1][i].address == a; }
      if PaysTo(os[..i + 1], a) && os[i].address != a {
        var k :| 0 <= k < i + 1 && os[..i + 1][k].address == a;
        assert os[..i][k].address == a;
      }
    }
  }

  // ---- The whole batch ----

  function OutputsOf(rs: seq<Request>, withdrawalFee: int): (os: seq<TxOutput>)
    ensures |os| == |rs|
    ensures forall i :: 0 <= i < |rs| ==> os[i] == TxOutput(rs[i].destination, rs[i].amount - withdrawalFee)
  {
    seq(|rs|, i requires 0 <= i < |rs| => TxOutput(rs[i].destination, rs[i].amount - withdrawalFee))
  }

  lemma {:induction false} OutputsSum(rs: seq<Request>, withdrawalFee: int)
    ensures Sum(OutputsOf(rs, withdrawalFee)) == Total(rs) - |rs| * withdrawalFee
  {
    if rs != [] {
      OutputsSum(rs[1..], withdrawalFee);
      assert OutputsOf(rs, withdrawalFee)[1..] == OutputsOf(rs[1..], withdrawalFee);
    }
  }

  /**
   Pays the covered prefix in one transaction. The fee depends on the size of
   the transaction, so it is whatever the node says. None stands for the two errors: nothing
   to pay, or no money left for the fee.
   */
  method ProcessWithdrawals(keeper: Address, balance: int, withdrawalFee: int, transferFee: int,
      selected: seq<Request>, queue: seq<Request>)
    returns (paid: seq<Request>, r: Option<Outputs>)
    ensures CoveredPrefix(if selected == [] then queue else selected, balance, paid)
    ensures r.Some? <==> paid != [] && Change(OutputsOf(paid, withdrawalFee), keeper, balance, transferFee) >= 0
    ensures r.Some? ==>
              var os := OutputsOf(paid, withdrawalFee);
              && r.value.Valid() && r.value.Values() + transferFee == balance
              && (forall a :: a in r.value.amounts <==> a == keeper || PaysTo(os, a))
              && (forall a :: a in r.value.amounts && a != keeper ==> r.value.amounts[a] == PaidTo(os, a))
              && r.value.amounts[keeper] == Change(os, keeper, balance, transferFee)
  {
    paid := GetSufficientWithdrawalRequests(balance, selected, queue);
    if paid == [] {
      return paid, None;
    }
    r := SendFromKeeper(OutputsOf(paid, withdrawalFee), keeper, balance, transferFee);
  }

  /**
   The change is the balance left by the requests, plus the withdrawal fees kept, less the
   transfer fee: exactly when nothing is sent to the keeper's own address. What is sent
   there only comes back as change.
   */
  lemma {:induction false} ChangeFormula(rs: seq<Request>, keeper: Address, balance: int, withdrawalFee: int,
      transferFee: int)
    ensures var os := OutputsOf(rs, withdrawalFee);
            var change := Change(os, keeper, balance, transferFee);
            && change == (balance - Total(rs)) + |rs| * withdrawalFee - transferFee + PaidTo(os, keeper)
            && (change == (balance - Total(rs)) + |rs| * withdrawalFee - transferFee <==> PaidTo(os, keeper) == 0)
  {
    OutputsSum(rs, withdrawalFee);
  }

  /** In particular when no request names the keeper's address. */
  lemma {:induction false} ChangeWithoutKeeper(rs: seq<Request>, keeper: Address, balance: int, withdrawalFee: int,
      transferFee: int)
    requires forall i :: 0 <= i < |rs| ==> rs[i].destination != keeper
    ensures Change(OutputsOf(rs, withdrawalFee), keeper, balance, transferFee) ==
            (balance - Total(rs)) + |rs| * withdrawalFee - transferFee
  {
    PaidToNobody(OutputsOf(rs, withdrawalFee), keeper);
    ChangeFormula(rs, keeper, balance, withdrawalFee, transferFee);
  }

  /** Requests above the withdrawal fee pay positive amounts, so every address paid gets something. */
  lemma {:induction false} PaidIsPositive(rs: seq<Request>, withdrawalFee: int, a: Address)
    requires forall i :: 0 <= i < |rs| ==> rs[i].amount > withdrawalFee
    ensures var os := OutputsOf(rs, withdrawalFee);
            PaidTo(os, a) >= 0 && (PaysTo(os, a) ==> PaidTo(os, a) > 0)
  {
    if rs != [] {
      var os := OutputsOf(rs, withdrawalFee);
      PaidIsPositive(rs[1..], withdrawalFee, a);
      assert os[1..] == OutputsOf(rs[1..], withdrawalFee);
      if PaysTo(os, a) && os[0].address != a {
        var i :| 0 <= i < |os| && os[i].address == a;
        assert os[1..][i - 1].address == a;
      }
    }
  }

  /** One below the fee makes a negative output, and its difference lands in the keeper's change. */
  lemma {:induction false} RequestBelowFee(keeper: Address, other: Address)
    requires keeper != other
    ensures var os := OutputsOf([Request(1, other)], 3);
            PaidTo(os, other) == -2 && Change(os, keeper, 5, 0) == 7
  {
    var os := OutputsOf([Request(1, other)], 3);
    assert os == [TxOutput(other, -2)] && os[1..] == [];
    assert Sum(os) == -2 && PaidTo(os, keeper) == 0;
  }
}
