/** The records of the loan ledger and the sums over a loan's payments. */
module Ledger {
  import opened Dates

  /** `JUROS` (interest only) or `AMORTIZACAO` (reduces principal). */
  datatype PaymentKind = Juros | Amortizacao

  /** One payment recorded against a loan; never changed once appended. */
  datatype PaymentEntry = PaymentEntry(id: string, date: Date, value: real, kind: PaymentKind)

  /** `ATIVO`, `ATRASADO` (late) or `QUITADO` (settled). */
  datatype LoanStatus = Ativo | Atrasado | Quitado

  /** A loan as the application keeps it.  `clientName` is a copy taken when
      the loan was made; `status` is recomputed from the other fields on
      every read. */
  datatype Loan = Loan(
    id: string,
    clientId: string,
    clientName: string,
    amount: real,
    interestRate: real,
    totalToReceive: real,
    startDate: Date,
    dueDate: Date,
    amountPaid: real,
    payments: seq<PaymentEntry>,
    status: LoanStatus)

  /** `ENTRADA` (money in) or `SAÍDA` (money out). */
  datatype TransactionType = Entrada | Saida

  /** One line of the cash-flow ledger. */
  datatype Transaction = Transaction(
    id: string,
    date: Date,
    description: string,
    category: string,
    kind: TransactionType,
    value: real,
    status: string)

  /** A client's stored identity, before the derived figures are attached. */
  datatype BaseClient = BaseClient(id: string, name: string, document: string, initials: string)

  /** `EM DIA` (up to date) or `ATRASADO`. */
  datatype ClientStatus = EmDia | EmAtraso

  /** A client together with its derived exposure and delinquency flag. */
  datatype Client = Client(
    id: string,
    name: string,
    document: string,
    initials: string,
    totalOpen: real,
    status: ClientStatus)

  datatype Option<T> = None | Some(value: T)

  const Recebimento: string := "Recebimento"
  const Emprestimos: string := "Empréstimos"
  const Liquidado: string := "LIQUIDADO"

  /** `payments.reduce((acc, p) => acc + p.value, 0)`, folded left to right. */
  function Total(ps: seq<PaymentEntry>): real
  {
    if ps == [] then 0.0 else Total(ps[..|ps| - 1]) + ps[|ps| - 1].value
  }

  /** `payments.filter(p => p.type === k)`. */
  function OfKind(ps: seq<PaymentEntry>, k: PaymentKind): (r: seq<PaymentEntry>)
    ensures |r| <= |ps|
  {
    if ps == [] then []
    else OfKind(ps[..|ps| - 1], k) + (if ps[|ps| - 1].kind == k then [ps[|ps| - 1]] else [])
  }

  /** The values of the payments of kind `k`, summed left to right: the
      filter-then-reduce of the source in one pass (`KindTotalIsFilteredSum`). */
  function KindTotal(ps: seq<PaymentEntry>, k: PaymentKind): real
  {
    if ps == [] then 0.0
    else KindTotal(ps[..|ps| - 1], k) + (if ps[|ps| - 1].kind == k then ps[|ps| - 1].value else 0.0)
  }

  /** Interest collected on a loan (`totalInterestPaid`, `interestPaid`). */
  function InterestPaid(ps: seq<PaymentEntry>): real
  {
    KindTotal(ps, Juros)
  }

  /** Principal recovered on a loan (`totalAmortized`, `principalPaid`). */
  function PrincipalPaid(ps: seq<PaymentEntry>): real
  {
    KindTotal(ps, Amortizacao)
  }

  /** The ledger invariant of one loan: the paid-to-date figure is the sum of
      its payments, and its due date is a real calendar day. */
  predicate LoanInvariant(l: Loan) {
    l.amountPaid == Total(l.payments) && ValidDate(l.dueDate)
  }

  lemma TotalSnoc(ps: seq<PaymentEntry>, e: PaymentEntry)
    ensures Total(ps + [e]) == Total(ps) + e.value
  {
    assert (ps + [e])[..|ps|] == ps;
  }

  /** Appending one entry adds its value to the sum of its own kind only. */
  lemma KindTotalSnoc(ps: seq<PaymentEntry>, e: PaymentEntry, k: PaymentKind)
    ensures KindTotal(ps + [e], k) == KindTotal(ps, k) + (if e.kind == k then e.value else 0.0)
  {
    assert (ps + [e])[..|ps|] == ps;
  }

  /** The one-pass sum is the source's `filter(p => p.type === k)` followed by
      `reduce((acc, p) => acc + p.value, 0)`. */
  lemma {:induction false} KindTotalIsFilteredSum(ps: seq<PaymentEntry>, k: PaymentKind)
    ensures KindTotal(ps, k) == Total(OfKind(ps, k))
  {
    if ps != [] {
      var n := |ps| - 1;
      var f := OfKind(ps[..n], k);
      KindTotalIsFilteredSum(ps[..n], k);
      if ps[n].kind == k {
        TotalSnoc(f, ps[n]);
      } else {
        assert f + [] == f;
      }
    }
  }

  /** Appending one entry adds its value to the total and to the sum of its
      kind, and leaves the sum of the other kind alone. */
  lemma KindSumsAfterAppend(ps: seq<PaymentEntry>, e: PaymentEntry)
    ensures Total(ps + [e]) == Total(ps) + e.value
    ensures InterestPaid(ps + [e]) == InterestPaid(ps) + (if e.kind == Juros then e.value else 0.0)
    ensures PrincipalPaid(ps + [e]) == PrincipalPaid(ps) + (if e.kind == Amortizacao then e.value else 0.0)
  {
    assert (ps + [e])[..|ps|] == ps;
  }

  /** Every payment is either interest or principal, so the two sums add up to
      the sum of all payment values. */
  lemma {:induction false} InterestPlusPrincipalIsTotal(ps: seq<PaymentEntry>)
    ensures InterestPaid(ps) + PrincipalPaid(ps) == Total(ps)
  {
    if ps != [] {
      InterestPlusPrincipalIsTotal(ps[..|ps| - 1]);
    }
  }

  /** With no negative payment the kind sums never exceed the total paid. */
  lemma {:induction false} KindSumsNonNegative(ps: seq<PaymentEntry>)
    requires forall i :: 0 <= i < |ps| ==> ps[i].value >= 0.0
    ensures 0.0 <= InterestPaid(ps) <= Total(ps)
    ensures 0.0 <= PrincipalPaid(ps) <= Total(ps)
  {
    if ps != [] {
      var n := |ps| - 1;
      var q := ps[..n];
      assert forall i :: 0 <= i < |q| ==> q[i].value >= 0.0 by {
        forall i | 0 <= i < |q| ensures q[i].value >= 0.0 { assert q[i] == ps[i]; }
      }
      KindSumsNonNegative(q);
      assert ps[n].value >= 0.0;
    }
  }
}
