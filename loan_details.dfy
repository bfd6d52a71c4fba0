/** The loan details screen: the figures it derives from one loan, its payment
    form, and the payment history with the balance left after each payment. */
module LoanDetails {
  import opened Dates
  import opened Ledger
  import opened Portfolio
  import opened Store

  // ---------------------------------------------------------------------------
  // Per-loan figures

  /** What is still owed: `totalToReceive - amountPaid`. */
  function RemainingBalance(l: Loan): real
  {
    l.totalToReceive - l.amountPaid
  }

  /** Under the ledger invariant the balance is the contract total less the
      interest and the principal collected, and it is used up exactly when the
      loan is settled. */
  lemma RemainingBalanceMeaning(l: Loan, today: Date)
    requires LoanInvariant(l)
    ensures RemainingBalance(l) == l.totalToReceive - InterestPaid(l.payments) - PrincipalPaid(l.payments)
    ensures RemainingBalance(l) <= 0.0 <==> Classify(l, today) == Quitado
  {
    InterestPlusPrincipalIsTotal(l.payments);
  }

  /** A JavaScript number as `progressPercent` can produce it. */
  datatype Progress = Percent(value: real) | NotANumber | MinusInfinity

  /** `Math.min(100, (amountPaid / totalToReceive) * 100)`.  There is no lower
      clamp and no guard for a zero total: `x / 0` is `Infinity` for positive
      `x`, `NaN` for zero and `-Infinity` for negative `x`. */
  function ProgressPercent(l: Loan): (r: Progress)
    ensures l.totalToReceive > 0.0 ==> r.Percent? && r.value <= 100.0
    ensures l.totalToReceive > 0.0 ==> (r.value == 100.0 <==> l.amountPaid >= l.totalToReceive)
    ensures l.totalToReceive > 0.0 && l.amountPaid < l.totalToReceive
            ==> r.value * l.totalToReceive == l.amountPaid * 100.0
    ensures l.totalToReceive > 0.0 && l.amountPaid >= 0.0 ==> r.value >= 0.0
    ensures l.totalToReceive == 0.0 ==> (r == NotANumber <==> l.amountPaid == 0.0)
  {
    var t, p := l.totalToReceive, l.amountPaid;
    if t != 0.0 then
      var raw := p / t * 100.0;
      assert t > 0.0 ==> (raw >= 100.0 <==> p >= t) by {
        if t > 0.0 {
          assert raw * t == p * 100.0;
        }
      }
      Percent(if raw < 100.0 then raw else 100.0)
    else if p > 0.0 then Percent(100.0)
    else if p == 0.0 then NotANumber
    else MinusInfinity
  }

  /** A non-negative payment never lowers the progress bar of a loan with a
      positive total. */
  lemma ProgressNeverDecreases(l: Loan, e: PaymentEntry, isInterestOnly: bool)
    requires ValidDate(l.dueDate) && l.totalToReceive > 0.0 && e.value >= 0.0
    ensures ProgressPercent(ApplyPayment(l, e, isInterestOnly)).value >= ProgressPercent(l).value
  {
    var l' := ApplyPayment(l, e, isInterestOnly);
    var t := l.totalToReceive;
    if l'.amountPaid < t {
      assert l.amountPaid < t;
      var a, b := ProgressPercent(l).value, ProgressPercent(l').value;
      assert a * t == l.amountPaid * 100.0 && b * t == l'.amountPaid * 100.0;
      assert (b - a) * t == e.value * 100.0;
      PositiveFactor(b - a, t);
    }
  }

  lemma PositiveFactor(x: real, t: real)
    requires t > 0.0 && x * t >= 0.0
    ensures x >= 0.0
  {
  }

  /** The two buttons of the payment form: interest only, or the whole balance. */
  datatype PaymentMode = InterestMode | TotalMode

  /** The amount the form proposes: one period of interest on the principal,
      or everything still owed. */
  function SuggestedAmount(l: Loan, mode: PaymentMode): real
  {
    match mode
    case InterestMode => l.amount * (l.interestRate / 100.0)
    case TotalMode => RemainingBalance(l)
  }

  /** Paying the proposed total settles the loan, whichever kind it is filed as. */
  lemma SuggestedTotalSettles(l: Loan, e: PaymentEntry, isInterestOnly: bool, today: Date)
    requires ValidDate(l.dueDate) && e.value == SuggestedAmount(l, TotalMode)
    ensures ApplyPayment(l, e, isInterestOnly).amountPaid == l.totalToReceive
    ensures RemainingBalance(ApplyPayment(l, e, isInterestOnly)) == 0.0
    ensures Classify(ApplyPayment(l, e, isInterestOnly), today) == Quitado
  {
  }

  /** The proposed interest payment is `interestRate` percent of the principal,
      and is never negative for a non-negative principal and rate. */
  lemma SuggestedInterestIsRateOfPrincipal(l: Loan)
    ensures SuggestedAmount(l, InterestMode) * 100.0 == l.amount * l.interestRate
    ensures l.amount >= 0.0 && l.interestRate >= 0.0 ==> SuggestedAmount(l, InterestMode) >= 0.0
  {
    var q := l.interestRate / 100.0;
    assert q * 100.0 == l.interestRate;
  }

  // ---------------------------------------------------------------------------
  // The payment form

  /** What the form hands to `onPayment`. */
  datatype PaymentRequest = PaymentRequest(loanId: string, value: real, isInterestOnly: bool)

  /** `handleConfirm`'s decision: a payment is submitted only for a value
      above zero, filed as interest only when the interest button is active.
      `None` stands for a field that does not parse as a number. */
  function Submission(loanId: string, payValue: Option<real>, mode: PaymentMode): (r: Option<PaymentRequest>)
    ensures r.Some? <==> payValue.Some? && payValue.value > 0.0
    ensures r.Some? ==> r.value.loanId == loanId && r.value.value == payValue.value
                        && (r.value.isInterestOnly <==> mode == InterestMode)
  {
    match payValue
    case Some(val) => if val > 0.0 then Some(PaymentRequest(loanId, val, mode == InterestMode)) else None
    case None => None
  }

  /** The form's state: the loan shown, the typed value and the active button.
      The screen renders the form only while the loan shown is not settled,
      so a settled loan never receives a payment from it. */
  class PaymentForm {
    var loan: Loan
    var payValue: Option<real>
    var paymentType: PaymentMode

    /** The form is on screen: its loan is still open. */
    predicate IsOpen()
      reads this
    {
      loan.status != Quitado
    }

    /** The form opens on the interest button, pre-filled with its suggestion. */
    constructor (loan: Loan)
      requires loan.status != Quitado
      ensures IsOpen()
      ensures this.loan == loan && paymentType == InterestMode
      ensures payValue == Some(SuggestedAmount(loan, InterestMode))
    {
      this.loan := loan;
      paymentType := InterestMode;
      payValue := Some(SuggestedAmount(loan, InterestMode));
    }

    /** Pressing one of the two buttons.  The suggestion is refilled only when
        the active button changes. */
    method SelectPaymentType(mode: PaymentMode)
      requires IsOpen()
      modifies this
      ensures IsOpen()
      ensures loan == old(loan) && paymentType == mode
      ensures payValue == if mode == old(paymentType) then old(payValue) else Some(SuggestedAmount(loan, mode))
    {
      if mode != paymentType {
        paymentType := mode;
        payValue := Some(SuggestedAmount(loan, mode));
      }
    }

    /** Typing into the value field (already parsed). */
    method EditPayValue(v: Option<real>)
      requires IsOpen()
      modifies this
      ensures IsOpen()
      ensures loan == old(loan) && paymentType == old(paymentType) && payValue == v
    {
      payValue := v;
    }

    /** `handleConfirm`: returns the payment handed to `onPayment`, if any,
        and clears the field after a submission. */
    method Confirm() returns (request: Option<PaymentRequest>)
      requires IsOpen()
      modifies this
      ensures IsOpen()
      ensures request == Submission(loan.id, old(payValue), paymentType)
      ensures request.Some? ==> request.value.value > 0.0 && loan.status != Quitado
      ensures loan == old(loan) && paymentType == old(paymentType)
      ensures payValue == if request.Some? then None else old(payValue)
    {
      request := Submission(loan.id, payValue, paymentType);
      if request.Some? {
        payValue := None;
      }
    }
  }

  // ---------------------------------------------------------------------------
  // Payment history

  /** The payments in non-decreasing date order. */
  predicate SortedByDate(ps: seq<PaymentEntry>) {
    forall i, j :: 0 <= i < j < |ps| ==> NotAfter(ps[i].date, ps[j].date)
  }

  /** Places `e` after every entry whose date is not after its own. */
  function InsertByDate(s: seq<PaymentEntry>, e: PaymentEntry): (r: seq<PaymentEntry>)
    ensures |r| == |s| + 1
  {
    if s == [] || NotAfter(s[|s| - 1].date, e.date) then s + [e]
    else InsertByDate(s[..|s| - 1], e) + [s[|s| - 1]]
  }

  lemma {:induction false} InsertPermutes(s: seq<PaymentEntry>, e: PaymentEntry)
    ensures multiset(InsertByDate(s, e)) == multiset(s) + multiset{e}
  {
    if !(s == [] || NotAfter(s[|s| - 1].date, e.date)) {
      var n := |s| - 1;
      InsertPermutes(s[..n], e);
      assert s == s[..n] + [s[n]];
    }
  }

  lemma {:induction false} InsertKeepsSorted(s: seq<PaymentEntry>, e: PaymentEntry)
    requires SortedByDate(s)
    ensures SortedByDate(InsertByDate(s, e))
  {
    if s == [] || NotAfter(s[|s| - 1].date, e.date) {
      forall i | 0 <= i < |s| ensures NotAfter(s[i].date, e.date) {
        BeforeIsStrictTotalOrder(e.date, s[i].date, s[|s| - 1].date);
      }
      var r := s + [e];
      assert forall i, j :: 0 <= i < j < |r| ==> NotAfter(r[i].date, r[j].date) by {
        forall i, j | 0 <= i < j < |r| ensures NotAfter(r[i].date, r[j].date) {
          if j < |s| { assert r[i] == s[i] && r[j] == s[j]; }
        }
      }
    } else {
      var n := |s| - 1;
      var last := s[n];
      var rest := InsertByDate(s[..n], e);
      assert SortedByDate(s[..n]);
      InsertKeepsSorted(s[..n], e);
      InsertPermutes(s[..n], e);
      forall x | x in rest ensures NotAfter(x.date, last.date) {
        assert x in multiset(rest);
        if x != e {
          assert x in multiset(s[..n]);
          var i :| 0 <= i < n && s[..n][i] == x;
          assert s[i] == x;
        }
      }
      var r := rest + [last];
      assert InsertByDate(s, e) == r;
      forall i, j | 0 <= i < j < |r| ensures NotAfter(r[i].date, r[j].date) {
        if j == |rest| {
          assert r[i] in rest;
        } else {
          assert r[i] == rest[i] && r[j] == rest[j];
        }
      }
    }
  }

  /** `[...payments].sort((a, b) => time(a.date) - time(b.date))`: a stable
      sort by date (an insertion sort over the payments in recorded order). */
  function SortByDate(ps: seq<PaymentEntry>): (r: seq<PaymentEntry>)
    ensures |r| == |ps|
  {
    if ps == [] then []
    else InsertByDate(SortByDate(ps[..|ps| - 1]), ps[|ps| - 1])
  }

  /** The sorted copy holds the same payments, in date order. */
  lemma {:induction false} SortPermutesIntoDateOrder(ps: seq<PaymentEntry>)
    ensures multiset(SortByDate(ps)) == multiset(ps)
    ensures SortedByDate(SortByDate(ps))
  {
    if ps != [] {
      var n := |ps| - 1;
      SortPermutesIntoDateOrder(ps[..n]);
      InsertPermutes(SortByDate(ps[..n]), ps[n]);
      InsertKeepsSorted(SortByDate(ps[..n]), ps[n]);
      assert ps == ps[..n] + [ps[n]];
    }
  }

  /** The payments made on day `d`, in their order. */
  function OnDate(ps: seq<PaymentEntry>, d: Date): seq<PaymentEntry>
  {
    if ps == [] then []
    else OnDate(ps[..|ps| - 1], d) + (if ps[|ps| - 1].date == d then [ps[|ps| - 1]] else [])
  }

  lemma OnDateAppendOne(ps: seq<PaymentEntry>, e: PaymentEntry, d: Date)
    ensures OnDate(ps + [e], d) == OnDate(ps, d) + (if e.date == d then [e] else [])
  {
    assert (ps + [e])[..|ps|] == ps;
  }

  /** Insertion puts `e` after every payment of its own day. */
  lemma {:induction false} InsertKeepsSameDayOrder(s: seq<PaymentEntry>, e: PaymentEntry, d: Date)
    ensures OnDate(InsertByDate(s, e), d) == OnDate(s, d) + (if e.date == d then [e] else [])
  {
    if s == [] || NotAfter(s[|s| - 1].date, e.date) {
      OnDateAppendOne(s, e, d);
    } else {
      var n := |s| - 1;
      var last := s[n];
      var rest := InsertByDate(s[..n], e);
      InsertKeepsSameDayOrder(s[..n], e, d);
      OnDateAppendOne(rest, last, d);
      var E := if e.date == d then [e] else [];
      var L := if last.date == d then [last] else [];
      if e.date == d {
        assert OnDate(s[..n], d) + E + [] == OnDate(s[..n], d) + [] + E;
      } else {
        assert OnDate(s[..n], d) + [] + L == OnDate(s[..n], d) + L + [];
      }
    }
  }

  /** The sort is stable: payments made on the same day keep their recorded
      order. */
  lemma {:induction false} SortIsStable(ps: seq<PaymentEntry>, d: Date)
    ensures OnDate(SortByDate(ps), d) == OnDate(ps, d)
  {
    if ps != [] {
      var n := |ps| - 1;
      SortIsStable(ps[..n], d);
      InsertKeepsSameDayOrder(SortByDate(ps[..n]), ps[n], d);
    }
  }

  lemma {:induction false} InsertKeepsKindTotal(s: seq<PaymentEntry>, e: PaymentEntry, k: PaymentKind)
    ensures KindTotal(InsertByDate(s, e), k) == KindTotal(s, k) + (if e.kind == k then e.value else 0.0)
  {
    if s == [] || NotAfter(s[|s| - 1].date, e.date) {
      KindTotalSnoc(s, e, k);
    } else {
      var n := |s| - 1;
      InsertKeepsKindTotal(s[..n], e, k);
      KindTotalSnoc(InsertByDate(s[..n], e), s[n], k);
    }
  }

  /** Sorting does not change how much was paid of either kind. */
  lemma {:induction false} SortKeepsKindTotal(ps: seq<PaymentEntry>, k: PaymentKind)
    ensures KindTotal(SortByDate(ps), k) == KindTotal(ps, k)
  {
    if ps != [] {
      var n := |ps| - 1;
      SortKeepsKindTotal(ps[..n], k);
      InsertKeepsKindTotal(SortByDate(ps[..n]), ps[n], k);
    }
  }

  /** One line of the history table: the payment and the balance left after it. */
  datatype HistoryRow = HistoryRow(payment: PaymentEntry, saldoApos: real)

  function Reversed<T>(s: seq<T>): (r: seq<T>)
    ensures |r| == |s|
    ensures forall i :: 0 <= i < |s| ==> r[i] == s[|s| - 1 - i]
  {
    if s == [] then [] else [s[|s| - 1]] + Reversed(s[..|s| - 1])
  }

  /** The history in date order, for payments `s` already sorted: after each
      payment the balance is `total` less the principal paid up to and
      including it. */
  function AscendingRows(s: seq<PaymentEntry>, total: real): (r: seq<HistoryRow>)
    ensures |r| == |s|
  {
    if s == [] then []
    else AscendingRows(s[..|s| - 1], total) + [HistoryRow(s[|s| - 1], total - PrincipalPaid(s))]
  }

  /** The rows for sorted payments `s`, most recent first. */
  function HistoryOf(s: seq<PaymentEntry>, total: real): (r: seq<HistoryRow>)
    ensures |r| == |s|
  {
    Reversed(AscendingRows(s, total))
  }

  /** The table as shown: most recent payment first. */
  function History(l: Loan): (r: seq<HistoryRow>)
    ensures |r| == |l.payments|
  {
    HistoryOf(SortByDate(l.payments), l.totalToReceive)
  }

  lemma {:induction false} AscendingRowAt(s: seq<PaymentEntry>, total: real, j: nat)
    requires j < |s|
    ensures AscendingRows(s, total)[j] == HistoryRow(s[j], total - PrincipalPaid(s[..j + 1]))
  {
    var n := |s| - 1;
    if j < n {
      AscendingRowAt(s[..n], total, j);
      assert s[..n][..j + 1] == s[..j + 1];
    } else {
      assert s[..j + 1] == s;
    }
  }

  /** Row `i` from the top is the `i`-th payment from the end, with the
      total less the principal paid up to and including it. */
  lemma HistoryOfAt(s: seq<PaymentEntry>, total: real, i: nat)
    requires i < |s|
    ensures HistoryOf(s, total)[i] == HistoryRow(s[|s| - 1 - i], total - PrincipalPaid(s[..|s| - i]))
  {
    var j := |s| - 1 - i;
    AscendingRowAt(s, total, j);
    assert s[..j + 1] == s[..|s| - i];
  }

  /** The interest payments made on or before `date` (the filter inside the
      balance expression of the table). */
  function InterestUpTo(ps: seq<PaymentEntry>, date: Date): seq<PaymentEntry>
  {
    if ps == [] then []
    else
      var p := ps[|ps| - 1];
      InterestUpTo(ps[..|ps| - 1], date) + (if p.kind == Juros && NotAfter(p.date, date) then [p] else [])
  }

  /** `reduce((sum, curr) => sum + 0, 0)`. */
  function SumOfZeros(ps: seq<PaymentEntry>): real
  {
    if ps == [] then 0.0 else SumOfZeros(ps[..|ps| - 1]) + 0.0
  }

  /** The interest term of the balance expression adds nothing but zeros. */
  lemma {:induction false} SumOfZerosIsZero(ps: seq<PaymentEntry>)
    ensures SumOfZeros(ps) == 0.0
  {
    if ps != [] {
      SumOfZerosIsZero(ps[..|ps| - 1]);
    }
  }

  /** `historyWithSaldo`: walks the sorted payments with a running principal
      total, computing each row's balance, then reverses the rows. */
  method HistoryWithSaldo(l: Loan) returns (rows: seq<HistoryRow>)
    ensures rows == History(l)
  {
    var paymentsSorted := SortByDate(l.payments);
    var runningAmortization := 0.0;
    var ascending: seq<HistoryRow> := [];
    var i := 0;
    while i < |paymentsSorted|
      invariant 0 <= i <= |paymentsSorted|
      invariant runningAmortization == PrincipalPaid(paymentsSorted[..i])
      invariant ascending == AscendingRows(paymentsSorted[..i], l.totalToReceive)
    {
      var p := paymentsSorted[i];
      if p.kind == Amortizacao {
        runningAmortization := runningAmortization + p.value;
      }
      assert paymentsSorted[..i + 1][..i] == paymentsSorted[..i];
      var interestTerm := SumOfZeros(InterestUpTo(l.payments, p.date));
      SumOfZerosIsZero(InterestUpTo(l.payments, p.date));
      ascending := ascending + [HistoryRow(p, (l.totalToReceive - interestTerm) - runningAmortization)];
      i := i + 1;
    }
    assert paymentsSorted[..i] == paymentsSorted;
    rows := Reversed(ascending);
  }

  /** The payments the rows show, from the top. */
  function Shown(rows: seq<HistoryRow>): (r: seq<PaymentEntry>)
    ensures |r| == |rows|
    ensures forall i :: 0 <= i < |rows| ==> r[i] == rows[i].payment
  {
    seq(|rows|, i requires 0 <= i < |rows| => rows[i].payment)
  }

  /** The rows show the payments they are built from, in reverse. */
  lemma ShownOfIsReversed(s: seq<PaymentEntry>, total: real)
    ensures Shown(HistoryOf(s, total)) == Reversed(s)
  {
    forall i | 0 <= i < |s| ensures Shown(HistoryOf(s, total))[i] == Reversed(s)[i] {
      HistoryOfAt(s, total, i);
    }
  }

  lemma {:induction false} ReversedKeepsMultiset<T>(s: seq<T>)
    ensures multiset(Reversed(s)) == multiset(s)
  {
    if s != [] {
      var n := |s| - 1;
      ReversedKeepsMultiset(s[..n]);
      assert s == s[..n] + [s[n]];
      assert Reversed(s) == [s[n]] + Reversed(s[..n]);
    }
  }

  /** The rows show every payment exactly once. */
  lemma HistoryIsPermutation(l: Loan)
    ensures |History(l)| == |l.payments|
    ensures multiset(Shown(History(l))) == multiset(l.payments)
  {
    var s := SortByDate(l.payments);
    ShownOfIsReversed(s, l.totalToReceive);
    SortPermutesIntoDateOrder(l.payments);
    ReversedKeepsMultiset(s);
  }

  /** Over payments in date order, the rows run from the latest day back. */
  lemma HistoryOfNewestFirst(s: seq<PaymentEntry>, total: real)
    requires SortedByDate(s)
    ensures forall i, j :: 0 <= i < j < |s| ==>
      NotAfter(HistoryOf(s, total)[j].payment.date, HistoryOf(s, total)[i].payment.date)
  {
    forall i, j | 0 <= i < j < |s|
      ensures NotAfter(HistoryOf(s, total)[j].payment.date, HistoryOf(s, total)[i].payment.date)
    {
      HistoryOfAt(s, total, i);
      HistoryOfAt(s, total, j);
    }
  }

  /** The rows run from the most recent payment day to the oldest. */
  lemma HistoryNewestFirst(l: Loan)
    ensures forall i, j :: 0 <= i < j < |History(l)| ==>
      NotAfter(History(l)[j].payment.date, History(l)[i].payment.date)
  {
    SortPermutesIntoDateOrder(l.payments);
    HistoryOfNewestFirst(SortByDate(l.payments), l.totalToReceive);
  }

  lemma {:induction false} OnDateOfReversed(s: seq<PaymentEntry>, d: Date)
    ensures OnDate(Reversed(s), d) == Reversed(OnDate(s, d))
    decreases |s|
  {
    if s != [] {
      var n := |s| - 1;
      OnDateOfReversed(s[..n], d);
      OnDateOfFront(s[n], Reversed(s[..n]), d);
      assert Reversed(s) == [s[n]] + Reversed(s[..n]);
      var f := OnDate(s[..n], d);
      if s[n].date == d {
        assert Reversed(f + [s[n]]) == [s[n]] + Reversed(f);
      } else {
        assert f + [] == f;
      }
    }
  }

  lemma {:induction false} OnDateOfFront(e: PaymentEntry, s: seq<PaymentEntry>, d: Date)
    ensures OnDate([e] + s, d) == (if e.date == d then [e] else []) + OnDate(s, d)
    decreases |s|
  {
    if s == [] {
      assert [e] + s == [] + [e];
      assert OnDate([], d) == [];
    } else {
      var n := |s| - 1;
      OnDateOfFront(e, s[..n], d);
      assert ([e] + s)[..|[e] + s| - 1] == [e] + s[..n];
      assert ([e] + s)[|[e] + s| - 1] == s[n];
    }
  }

  /** Payments of one day appear in the reverse of their recorded order. */
  lemma HistorySameDayNewestFirst(l: Loan, d: Date)
    ensures OnDate(Shown(History(l)), d) == Reversed(OnDate(l.payments, d))
  {
    var s := SortByDate(l.payments);
    ShownOfIsReversed(s, l.totalToReceive);
    SortIsStable(l.payments, d);
    OnDateOfReversed(s, d);
  }

  /** An interest row repeats the balance of the row below it, or shows the
      total when it is the bottom row. */
  lemma InterestRowOfKeepsBalance(s: seq<PaymentEntry>, total: real, i: nat)
    requires i < |s| && HistoryOf(s, total)[i].payment.kind == Juros
    ensures i + 1 < |s| ==> HistoryOf(s, total)[i].saldoApos == HistoryOf(s, total)[i + 1].saldoApos
    ensures i + 1 == |s| ==> HistoryOf(s, total)[i].saldoApos == total
  {
    var k := |s| - i;
    HistoryOfAt(s, total, i);
    assert s[..k][..k - 1] == s[..k - 1] && s[..k][k - 1] == s[|s| - 1 - i];
    assert PrincipalPaid(s[..k]) == PrincipalPaid(s[..k - 1]);
    if i + 1 < |s| {
      HistoryOfAt(s, total, i + 1);
      assert s[..|s| - (i + 1)] == s[..k - 1];
    } else {
      assert s[..k - 1] == [];
    }
  }

  /** An interest payment leaves the balance where the previous payment (in
      date order) left it, or at the contract total for the first payment. */
  lemma InterestRowKeepsBalance(l: Loan, i: nat)
    requires i < |History(l)| && History(l)[i].payment.kind == Juros
    ensures i + 1 < |History(l)| ==> History(l)[i].saldoApos == History(l)[i + 1].saldoApos
    ensures i + 1 == |History(l)| ==> History(l)[i].saldoApos == l.totalToReceive
  {
    InterestRowOfKeepsBalance(SortByDate(l.payments), l.totalToReceive, i);
  }

  /** With no negative payment, a longer prefix has paid at least as much
      principal. */
  lemma {:induction false} PrincipalPaidGrows(s: seq<PaymentEntry>, a: nat, b: nat)
    requires a <= b <= |s|
    requires forall k :: 0 <= k < |s| ==> s[k].value >= 0.0
    ensures PrincipalPaid(s[..a]) <= PrincipalPaid(s[..b])
    decreases b - a
  {
    if a < b {
      PrincipalPaidGrows(s, a, b - 1);
      assert s[..b][..b - 1] == s[..b - 1];
    }
  }

  lemma SortKeepsValuesNonNegative(ps: seq<PaymentEntry>)
    requires forall k :: 0 <= k < |ps| ==> ps[k].value >= 0.0
    ensures forall k :: 0 <= k < |SortByDate(ps)| ==> SortByDate(ps)[k].value >= 0.0
  {
    var s := SortByDate(ps);
    SortPermutesIntoDateOrder(ps);
    forall k | 0 <= k < |s| ensures s[k].value >= 0.0 {
      assert s[k] in multiset(s);
      assert s[k] in ps;
    }
  }

  /** With no negative payment, a higher row never shows a larger balance. */
  lemma BalanceOfNeverRises(s: seq<PaymentEntry>, total: real)
    requires forall k :: 0 <= k < |s| ==> s[k].value >= 0.0
    ensures forall i, j :: 0 <= i < j < |s| ==> HistoryOf(s, total)[i].saldoApos <= HistoryOf(s, total)[j].saldoApos
  {
    forall i, j | 0 <= i < j < |s| ensures HistoryOf(s, total)[i].saldoApos <= HistoryOf(s, total)[j].saldoApos {
      HistoryOfAt(s, total, i);
      HistoryOfAt(s, total, j);
      PrincipalPaidGrows(s, |s| - j, |s| - i);
    }
  }

  /** With no negative payment, older rows never show a smaller balance. */
  lemma BalanceNeverRises(l: Loan)
    requires forall k :: 0 <= k < |l.payments| ==> l.payments[k].value >= 0.0
    ensures forall i, j :: 0 <= i < j < |History(l)| ==> History(l)[i].saldoApos <= History(l)[j].saldoApos
  {
    SortKeepsValuesNonNegative(l.payments);
    BalanceOfNeverRises(SortByDate(l.payments), l.totalToReceive);
  }

  /** The top row shows the contract total less all principal recovered. */
  lemma NewestRowShowsTotalAmortized(l: Loan)
    requires l.payments != []
    ensures History(l)[0].saldoApos == l.totalToReceive - PrincipalPaid(l.payments)
  {
    var s := SortByDate(l.payments);
    HistoryOfAt(s, l.totalToReceive, 0);
    assert s[..|s|] == s;
    SortKeepsKindTotal(l.payments, Amortizacao);
  }
}
