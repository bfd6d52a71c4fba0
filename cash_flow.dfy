/** The cash-flow screen: money in, money out and the net balance of the
    transaction ledger. */
module CashFlow {
  import opened Ledger
  import opened Portfolio

  /** The value a transaction adds to the `in` total (`incoming`) or to the
      `out` total: `ENTRADA` goes in, every other type goes out. */
  function Share(t: Transaction, incoming: bool): real
  {
    if (t.kind == Entrada) == incoming then t.value else 0.0
  }

  /** One of the two totals of the fold, summed left to right. */
  function Flow(ts: seq<Transaction>, incoming: bool): real
  {
    if ts == [] then 0.0 else Flow(ts[..|ts| - 1], incoming) + Share(ts[|ts| - 1], incoming)
  }

  /** Sum of all transaction values, whatever their direction. */
  function Volume(ts: seq<Transaction>): real
  {
    if ts == [] then 0.0 else Volume(ts[..|ts| - 1]) + ts[|ts| - 1].value
  }

  /** The `totals` fold: one pass over the ledger, adding each value to `in`
      for an `ENTRADA` and to `out` otherwise. */
  method Totals(ts: seq<Transaction>) returns (totalIn: real, totalOut: real)
    ensures totalIn == Flow(ts, true) && totalOut == Flow(ts, false)
  {
    totalIn, totalOut := 0.0, 0.0;
    var i := 0;
    while i < |ts|
      invariant 0 <= i <= |ts|
      invariant totalIn == Flow(ts[..i], true) && totalOut == Flow(ts[..i], false)
    {
      assert ts[..i + 1][..i] == ts[..i];
      if ts[i].kind == Entrada {
        totalIn := totalIn + ts[i].value;
      } else {
        totalOut := totalOut + ts[i].value;
      }
      i := i + 1;
    }
    assert ts[..|ts|] == ts;
  }

  /** The "Saldo Líquido" card: `totals.in - totals.out`, which is the
      dashboard's `totalBalance`. */
  method NetBalance(ts: seq<Transaction>) returns (net: real)
    ensures net == Flow(ts, true) - Flow(ts, false)
    ensures net == TotalBalance(ts)
  {
    var totalIn, totalOut := Totals(ts);
    net := totalIn - totalOut;
    NetIsTotalBalance(ts);
  }

  /** Every transaction lands in exactly one of the two totals. */
  lemma {:induction false} InPlusOutIsVolume(ts: seq<Transaction>)
    ensures Flow(ts, true) + Flow(ts, false) == Volume(ts)
  {
    if ts != [] {
      InPlusOutIsVolume(ts[..|ts| - 1]);
    }
  }

  /** The cash-flow net and the dashboard balance are the same figure. */
  lemma {:induction false} NetIsTotalBalance(ts: seq<Transaction>)
    ensures Flow(ts, true) - Flow(ts, false) == TotalBalance(ts)
  {
    if ts != [] {
      NetIsTotalBalance(ts[..|ts| - 1]);
    }
  }

  /** With no negative value both totals are non-negative and bounded by the
      volume. */
  lemma {:induction false} TotalsBounded(ts: seq<Transaction>)
    requires forall i :: 0 <= i < |ts| ==> ts[i].value >= 0.0
    ensures 0.0 <= Flow(ts, true) <= Volume(ts)
    ensures 0.0 <= Flow(ts, false) <= Volume(ts)
  {
    if ts != [] {
      var n := |ts| - 1;
      assert forall i :: 0 <= i < n ==> ts[..n][i] == ts[i];
      TotalsBounded(ts[..n]);
    }
  }

  lemma {:induction false} FlowAppend(ts: seq<Transaction>, us: seq<Transaction>, incoming: bool)
    ensures Flow(ts + us, incoming) == Flow(ts, incoming) + Flow(us, incoming)
    decreases |us|
  {
    if us == [] {
      assert ts + us == ts;
    } else {
      var n := |us| - 1;
      assert (ts + us)[..|ts + us| - 1] == ts + us[..n];
      FlowAppend(ts, us[..n], incoming);
    }
  }

  /** Taking out the transaction at position `k` takes its share out of the
      total. */
  lemma FlowWithout(ts: seq<Transaction>, k: nat, incoming: bool)
    requires k < |ts|
    ensures Flow(ts, incoming) == Flow(ts[..k] + ts[k + 1..], incoming) + Share(ts[k], incoming)
  {
    var front, t, back := ts[..k], ts[k], ts[k + 1..];
    assert ts == (front + [t]) + back;
    FlowAppend(front + [t], back, incoming);
    assert (front + [t])[..|front|] == front;
    FlowAppend(front, back, incoming);
  }

  /** Removing the element at `k` removes one copy of it from the multiset. */
  lemma MultisetWithout<T>(us: seq<T>, k: nat)
    requires k < |us|
    ensures multiset(us[..k] + us[k + 1..]) == multiset(us) - multiset{us[k]}
  {
    assert us == us[..k] + [us[k]] + us[k + 1..];
  }

  /** The totals do not depend on the order of the ledger: any rearrangement
      of the same transactions gives the same two figures. */
  lemma {:induction false} FlowIgnoresOrder(ts: seq<Transaction>, us: seq<Transaction>, incoming: bool)
    requires multiset(ts) == multiset(us)
    ensures Flow(ts, incoming) == Flow(us, incoming)
    decreases |ts|
  {
    if ts != [] {
      var n := |ts| - 1;
      var front, t := ts[..n], ts[n];
      assert ts == front + [t];
      assert t in multiset(us);
      var k :| 0 <= k < |us| && us[k] == t;
      var rest := us[..k] + us[k + 1..];
      MultisetWithout(us, k);
      assert multiset(front) == multiset(rest);
      FlowIgnoresOrder(front, rest, incoming);
      FlowWithout(us, k, incoming);
    }
  }
}
