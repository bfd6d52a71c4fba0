/** The application's two ledger mutators: registering a payment against a loan
    and creating a loan.  Both change the `loans` and `transactions` state of the
    top-level component; everything else is derived from that state. */
module Store {
  import opened Dates
  import opened Ledger
  import opened Portfolio

  /** `isInterestOnly ? 'JUROS' : 'AMORTIZACAO'`. */
  function KindFor(isInterestOnly: bool): (k: PaymentKind)
    ensures k == Juros <==> isInterestOnly
  {
    if isInterestOnly then Juros else Amortizacao
  }

  /** The new state of one loan that receives payment `e`: the entry goes at
      the end of the history, the paid amount grows by its value, and an
      interest-only payment pushes the due date one month on.  No other field
      changes; in particular the update itself does not check that the loan is
      still open (only the details screen, which hides its payment form for a
      settled loan, keeps payments off settled loans). */
  function ApplyPayment(l: Loan, e: PaymentEntry, isInterestOnly: bool): (r: Loan)
    requires ValidDate(l.dueDate)
    ensures r.amountPaid == l.amountPaid + e.value
    ensures r.payments == l.payments + [e]
    ensures r.dueDate != l.dueDate <==> isInterestOnly
    ensures isInterestOnly ==> r.dueDate == AddMonth(l.dueDate) && Before(l.dueDate, r.dueDate)
    ensures r.(dueDate := l.dueDate, amountPaid := l.amountPaid, payments := l.payments) == l
  {
    var newDueDate := if isInterestOnly then AddMonth(l.dueDate) else l.dueDate;
    l.(dueDate := newDueDate, amountPaid := l.amountPaid + e.value, payments := l.payments + [e])
  }

  /** A payment keeps the ledger invariant of the loan it is applied to. */
  lemma PaymentKeepsLoanInvariant(l: Loan, e: PaymentEntry, isInterestOnly: bool)
    requires LoanInvariant(l)
    ensures LoanInvariant(ApplyPayment(l, e, isInterestOnly))
  {
    KindSumsAfterAppend(l.payments, e);
  }

  /** The entry lands in the sum of its own kind: interest for an interest-only
      payment, principal otherwise. */
  lemma PaymentGoesToItsKind(l: Loan, e: PaymentEntry, isInterestOnly: bool)
    requires ValidDate(l.dueDate) && e.kind == KindFor(isInterestOnly)
    ensures isInterestOnly ==> InterestPaid(ApplyPayment(l, e, true).payments) == InterestPaid(l.payments) + e.value
    ensures isInterestOnly ==> PrincipalPaid(ApplyPayment(l, e, true).payments) == PrincipalPaid(l.payments)
    ensures !isInterestOnly ==> PrincipalPaid(ApplyPayment(l, e, false).payments) == PrincipalPaid(l.payments) + e.value
    ensures !isInterestOnly ==> InterestPaid(ApplyPayment(l, e, false).payments) == InterestPaid(l.payments)
  {
    KindSumsAfterAppend(l.payments, e);
  }

  /** A settled loan stays settled after a further payment of any
      non-negative value, on every day. */
  lemma SettledLoanStaysSettled(l: Loan, e: PaymentEntry, isInterestOnly: bool, today: Date, later: Date)
    requires ValidDate(l.dueDate) && Classify(l, today) == Quitado && e.value >= 0.0
    ensures Classify(ApplyPayment(l, e, isInterestOnly), later) == Quitado
  {
    SettlementIsPermanent(l, ApplyPayment(l, e, isInterestOnly), today, later);
  }

  /** `prev.map(loan => loan.id === loanId ? <paid> : loan)`: every loan with
      the given id receives the payment, every other loan is kept as it was. */
  function PayMatching(loans: seq<Loan>, loanId: string, e: PaymentEntry, isInterestOnly: bool): (r: seq<Loan>)
    requires forall i :: 0 <= i < |loans| ==> ValidDate(loans[i].dueDate)
    ensures |r| == |loans|
    ensures forall i :: 0 <= i < |loans| ==>
      r[i] == if loans[i].id == loanId then ApplyPayment(loans[i], e, isInterestOnly) else loans[i]
  {
    if loans == [] then []
    else
      var n := |loans| - 1;
      var l := loans[n];
      PayMatching(loans[..n], loanId, e, isInterestOnly)
        + [if l.id == loanId then ApplyPayment(l, e, isInterestOnly) else l]
  }

  /** A payment to an id no loan has changes no loan. */
  lemma PaymentToUnknownIdChangesNothing(loans: seq<Loan>, loanId: string, e: PaymentEntry, isInterestOnly: bool)
    requires forall i :: 0 <= i < |loans| ==> ValidDate(loans[i].dueDate)
    requires forall i :: 0 <= i < |loans| ==> loans[i].id != loanId
    ensures PayMatching(loans, loanId, e, isInterestOnly) == loans
  {
  }

  /** `loans.find(l => l.id === loanId)`: the first loan with that id. */
  function FindLoan(loans: seq<Loan>, loanId: string): (r: Option<Loan>)
    ensures r.Some? <==> exists i :: 0 <= i < |loans| && loans[i].id == loanId
    ensures r.Some? ==> exists i :: 0 <= i < |loans| && loans[i] == r.value
                                    && r.value.id == loanId
                                    && forall j :: 0 <= j < i ==> loans[j].id != loanId
  {
    if loans == [] then None
    else if loans[0].id == loanId then Some(loans[0])
    else
      var r := FindLoan(loans[1..], loanId);
      assert forall i :: 1 <= i < |loans| ==> loans[1..][i - 1] == loans[i];
      if r.Some? then
        assert exists i :: 1 <= i < |loans| && loans[i] == r.value && (forall j :: 0 <= j < i ==> loans[j].id != loanId) by {
          var k :| 0 <= k < |loans| - 1 && loans[1..][k] == r.value
                   && forall j :: 0 <= j < k ==> loans[1..][j].id != loanId;
          assert loans[k + 1] == r.value;
          forall j | 0 <= j < k + 1 ensures loans[j].id != loanId {
            if j > 0 { assert loans[j] == loans[1..][j - 1]; }
          }
        }
        r
      else r
  }

  /** The cash entry a payment emits. */
  function Receipt(txId: string, date: Date, isInterestOnly: bool, clientName: string, value: real): (t: Transaction)
    ensures t.kind == Entrada && t.category == Recebimento && t.value == value && t.date == date
  {
    Transaction(txId, date, (if isInterestOnly then "Juros" else "Amortização") + ": " + clientName,
                Recebimento, Entrada, value, Liquidado)
  }

  /** What the new-loan form hands over: a loan without id, status or payments. */
  datatype LoanOffer = LoanOffer(
    clientId: string,
    clientName: string,
    amount: real,
    interestRate: real,
    totalToReceive: real,
    startDate: Date,
    dueDate: Date)

  /** The loan created from an offer: active, nothing paid, no payments. */
  function NewLoan(offer: LoanOffer, loanId: string): (l: Loan)
    ensures l.id == loanId && l.status == Ativo && l.amountPaid == 0.0 && l.payments == []
    ensures l.clientId == offer.clientId && l.clientName == offer.clientName
    ensures l.amount == offer.amount && l.interestRate == offer.interestRate
    ensures l.totalToReceive == offer.totalToReceive
    ensures l.startDate == offer.startDate && l.dueDate == offer.dueDate
    ensures ValidDate(offer.dueDate) ==> LoanInvariant(l)
  {
    Loan(loanId, offer.clientId, offer.clientName, offer.amount, offer.interestRate,
         offer.totalToReceive, offer.startDate, offer.dueDate, 0.0, [], Ativo)
  }

  /** The cash entry a new loan emits: the principal leaves on the start date. */
  function Disbursement(txId: string, offer: LoanOffer): (t: Transaction)
    ensures t.kind == Saida && t.category == Emprestimos && t.value == offer.amount
    ensures t.date == offer.startDate
  {
    Transaction(txId, offer.startDate, "Empréstimo Liberado: " + offer.clientName,
                Emprestimos, Saida, offer.amount, Liquidado)
  }

  /** A receipt raises both the received total and the net balance by its value. */
  lemma ReceiptRaisesTotals(ts: seq<Transaction>, txId: string, date: Date, isInterestOnly: bool, name: string, value: real)
    ensures TotalReceived(ts + [Receipt(txId, date, isInterestOnly, name, value)]) == TotalReceived(ts) + value
    ensures TotalBalance(ts + [Receipt(txId, date, isInterestOnly, name, value)]) == TotalBalance(ts) + value
  {
    var t := Receipt(txId, date, isInterestOnly, name, value);
    assert (ts + [t])[..|ts|] == ts;
  }

  /** A disbursement lowers the net balance by the principal and leaves the
      received total alone. */
  lemma DisbursementLowersBalance(ts: seq<Transaction>, txId: string, offer: LoanOffer)
    ensures TotalBalance(ts + [Disbursement(txId, offer)]) == TotalBalance(ts) - offer.amount
    ensures TotalReceived(ts + [Disbursement(txId, offer)]) == TotalReceived(ts)
  {
    var t := Disbursement(txId, offer);
    assert (ts + [t])[..|ts|] == ts;
    assert Emprestimos != Recebimento by {
      assert Emprestimos[0] != Recebimento[0];
    }
  }

  /** The loan and cash-flow state of the application. */
  class LoanBook {
    var loans: seq<Loan>
    var transactions: seq<Transaction>

    /** Every loan satisfies the ledger invariant. */
    ghost predicate Valid()
      reads this
    {
      forall i :: 0 <= i < |loans| ==> LoanInvariant(loans[i])
    }

    constructor ()
      ensures Valid() && loans == [] && transactions == []
    {
      loans := [];
      transactions := [];
    }

    /** `handleRegisterPayment(loanId, value, isInterestOnly)` on day `today`;
        `paymentId` and `txId` are the fresh identifiers the source draws at
        random.  Every loan with the id is paid; one receipt is recorded when
        some loan had the id, and nothing at all changes when none had it. */
    method RegisterPayment(loanId: string, value: real, isInterestOnly: bool, today: Date,
                           paymentId: string, txId: string)
      requires Valid()
      modifies this
      ensures Valid()
      ensures loans == PayMatching(old(loans), loanId,
                                   PaymentEntry(paymentId, today, value, KindFor(isInterestOnly)), isInterestOnly)
      ensures transactions == match FindLoan(old(loans), loanId)
                              case None => old(transactions)
                              case Some(target) =>
                                old(transactions) + [Receipt(txId, today, isInterestOnly, target.clientName, value)]
      ensures FindLoan(old(loans), loanId).None? ==> loans == old(loans) && transactions == old(transactions)
      ensures FindLoan(old(loans), loanId).Some? ==>
                TotalReceived(transactions) == TotalReceived(old(transactions)) + value
                && TotalBalance(transactions) == TotalBalance(old(transactions)) + value
    {
      var entry := PaymentEntry(paymentId, today, value, KindFor(isInterestOnly));
      var target := FindLoan(loans, loanId);
      if target.None? {
        PaymentToUnknownIdChangesNothing(loans, loanId, entry, isInterestOnly);
      }
      var updated := PayMatching(loans, loanId, entry, isInterestOnly);
      forall i | 0 <= i < |updated| ensures LoanInvariant(updated[i]) {
        if loans[i].id == loanId {
          PaymentKeepsLoanInvariant(loans[i], entry, isInterestOnly);
        }
      }
      loans := updated;
      match target {
        case None =>
        case Some(t) =>
          ReceiptRaisesTotals(transactions, txId, today, isInterestOnly, t.clientName, value);
          transactions := transactions + [Receipt(txId, today, isInterestOnly, t.clientName, value)];
      }
    }

    /** `onAddLoan(offer)`: the new loan goes to the front of the list and its
        disbursement to the end of the cash flow. */
    method AddLoan(offer: LoanOffer, loanId: string, txId: string)
      requires Valid()
      requires ValidDate(offer.dueDate)
      modifies this
      ensures Valid()
      ensures loans == [NewLoan(offer, loanId)] + old(loans)
      ensures transactions == old(transactions) + [Disbursement(txId, offer)]
      ensures TotalBalance(transactions) == TotalBalance(old(transactions)) - offer.amount
      ensures TotalReceived(transactions) == TotalReceived(old(transactions))
    {
      DisbursementLowersBalance(transactions, txId, offer);
      loans := [NewLoan(offer, loanId)] + loans;
      transactions := transactions + [Disbursement(txId, offer)];
    }
  }
}
