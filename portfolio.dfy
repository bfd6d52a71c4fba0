/** The state the application derives from its loans and transactions on every
    read: each loan's status, each client's exposure and delinquency flag, and
    the four portfolio figures of the dashboard. */
module Portfolio {
  import opened Dates
  import opened Ledger

  // ---------------------------------------------------------------------------
  // Status classifier

  /** Settled once the paid amount reaches the contract total; otherwise late
      when the due date lies strictly before `today`; otherwise active. */
  function Classify(l: Loan, today: Date): (s: LoanStatus)
    ensures s == Quitado <==> l.amountPaid >= l.totalToReceive
    ensures s == Atrasado <==> l.amountPaid < l.totalToReceive && Before(l.dueDate, today)
    ensures s == Ativo <==> l.amountPaid < l.totalToReceive && !Before(l.dueDate, today)
  {
    var isPaid := l.amountPaid >= l.totalToReceive;
    var isLate := Before(l.dueDate, today) && !isPaid;
    if isPaid then Quitado else if isLate then Atrasado else Ativo
  }

  /** Settlement does not depend on the date and survives any further
      non-negative payment, whatever else the payment changes. */
  lemma SettlementIsPermanent(l: Loan, l': Loan, today: Date, later: Date)
    requires Classify(l, today) == Quitado
    requires l'.totalToReceive == l.totalToReceive && l'.amountPaid >= l.amountPaid
    ensures Classify(l', later) == Quitado
  {
  }

  /** A late loan stays late on every later day until it is paid off. */
  lemma LatenessPersists(l: Loan, today: Date, later: Date)
    requires Classify(l, today) == Atrasado
    requires NotAfter(today, later)
    ensures Classify(l, later) == Atrasado
  {
  }

  /** `loans.map(loan => ({...loan, status: ...}))`. */
  function ProcessLoans(loans: seq<Loan>, today: Date): (r: seq<Loan>)
    ensures |r| == |loans|
    ensures forall i :: 0 <= i < |loans| ==> r[i] == loans[i].(status := Classify(loans[i], today))
  {
    if loans == [] then []
    else
      var n := |loans| - 1;
      ProcessLoans(loans[..n], today) + [loans[n].(status := Classify(loans[n], today))]
  }

  /** Every loan carries the status the classifier gives it on `today`. */
  predicate StatusesCurrent(loans: seq<Loan>, today: Date) {
    forall i :: 0 <= i < |loans| ==> loans[i].status == Classify(loans[i], today)
  }

  lemma ProcessedLoansAreCurrent(loans: seq<Loan>, today: Date)
    ensures StatusesCurrent(ProcessLoans(loans, today), today)
    ensures forall i :: 0 <= i < |loans| ==>
      var p := ProcessLoans(loans, today)[i];
      (p.status == Quitado <==> p.amountPaid >= p.totalToReceive)
  {
  }

  // ---------------------------------------------------------------------------
  // Client aggregator

  /** `processedLoans.filter(l => l.clientId === cid && l.status !== 'QUITADO')`. */
  function OpenLoansOf(cid: string, loans: seq<Loan>): (r: seq<Loan>)
    ensures |r| <= |loans|
    ensures forall l :: l in r <==> l in loans && l.clientId == cid && l.status != Quitado
  {
    if loans == [] then []
    else
      var n := |loans| - 1;
      var l := loans[n];
      assert forall x :: x in loans <==> x in loans[..n] || x == l by {
        assert loans == loans[..n] + [l];
      }
      OpenLoansOf(cid, loans[..n]) + (if l.clientId == cid && l.status != Quitado then [l] else [])
  }

  /** Each open loan of the client is kept as many times as the list holds
      it, and no other loan is kept. */
  lemma {:induction false} OpenLoansOfCounts(cid: string, loans: seq<Loan>)
    ensures forall l :: multiset(OpenLoansOf(cid, loans))[l]
                        == if l.clientId == cid && l.status != Quitado then multiset(loans)[l] else 0
  {
    if loans != [] {
      var n := |loans| - 1;
      OpenLoansOfCounts(cid, loans[..n]);
      assert loans == loans[..n] + [loans[n]];
    }
  }

  /** One more loan at the end of the list is kept at the end exactly when it
      is an open loan of the client. */
  lemma OpenLoansOfSnoc(cid: string, ls: seq<Loan>, l: Loan)
    ensures OpenLoansOf(cid, ls + [l]) == OpenLoansOf(cid, ls) + (if l.clientId == cid && l.status != Quitado then [l] else [])
  {
    assert (ls + [l])[..|ls|] == ls;
  }

  /** The filter of a concatenation is the concatenation of the filters, so
      the filter keeps the order of its input. */
  lemma {:induction false} OpenLoansOfAppend(cid: string, ls: seq<Loan>, ms: seq<Loan>)
    ensures OpenLoansOf(cid, ls + ms) == OpenLoansOf(cid, ls) + OpenLoansOf(cid, ms)
    decreases |ms|
  {
    if ms == [] {
      assert ls + ms == ls;
    } else {
      var n := |ms| - 1;
      var front, m := ms[..n], ms[n];
      assert ms == front + [m];
      assert ls + ms == (ls + front) + [m];
      OpenLoansOfSnoc(cid, ls + front, m);
      OpenLoansOfSnoc(cid, front, m);
      OpenLoansOfAppend(cid, ls, front);
    }
  }

  /** A client's exposure summed over the whole loan list, without building
      the filtered list: the balance of every open loan of the client. */
  function ExposureOf(cid: string, loans: seq<Loan>): real
  {
    if loans == [] then 0.0
    else
      var l := loans[|loans| - 1];
      ExposureOf(cid, loans[..|loans| - 1])
        + (if l.clientId == cid && l.status != Quitado then l.totalToReceive - l.amountPaid else 0.0)
  }

  /** `reduce((sum, l) => sum + (l.totalToReceive - l.amountPaid), 0)`. */
  function Outstanding(ls: seq<Loan>): real
  {
    if ls == [] then 0.0
    else Outstanding(ls[..|ls| - 1]) + (ls[|ls| - 1].totalToReceive - ls[|ls| - 1].amountPaid)
  }

  /** `some(l => l.status === 'ATRASADO')`. */
  function AnyLate(ls: seq<Loan>): (b: bool)
    ensures b <==> exists i :: 0 <= i < |ls| && ls[i].status == Atrasado
  {
    if ls == [] then false
    else
      var n := |ls| - 1;
      assert forall i :: 0 <= i < n ==> ls[..n][i] == ls[i];
      AnyLate(ls[..n]) || ls[n].status == Atrasado
  }

  /** One client with its derived `totalOpen` and `status`. */
  function AggregateClient(c: BaseClient, loans: seq<Loan>): (r: Client)
    ensures r.id == c.id && r.name == c.name && r.document == c.document && r.initials == c.initials
  {
    var open := OpenLoansOf(c.id, loans);
    Client(c.id, c.name, c.document, c.initials, Outstanding(open),
           if AnyLate(open) then EmAtraso else EmDia)
  }

  /** `baseClients.map(...)`: every client, in order, with its figures. */
  function ProcessClients(cs: seq<BaseClient>, loans: seq<Loan>): (r: seq<Client>)
    ensures |r| == |cs|
    ensures forall i :: 0 <= i < |cs| ==> r[i] == AggregateClient(cs[i], loans)
  {
    if cs == [] then []
    else
      var n := |cs| - 1;
      ProcessClients(cs[..n], loans) + [AggregateClient(cs[n], loans)]
  }

  /** `Outstanding` is additive over concatenation. */
  lemma {:induction false} OutstandingAppend(ls: seq<Loan>, ms: seq<Loan>)
    ensures Outstanding(ls + ms) == Outstanding(ls) + Outstanding(ms)
    decreases |ms|
  {
    if ms == [] {
      assert ls + ms == ls;
    } else {
      var n := |ms| - 1;
      assert (ls + ms)[..|ls + ms| - 1] == ls + ms[..n];
      OutstandingAppend(ls, ms[..n]);
    }
  }

  /** The client's `totalOpen` is its exposure over the whole list: the sum of
      the filtered list counts each open loan of the client once per
      occurrence. */
  lemma TotalOpenIsExposure(c: BaseClient, loans: seq<Loan>)
    ensures AggregateClient(c, loans).totalOpen == ExposureOf(c.id, loans)
  {
    OpenBalanceIsExposure(c.id, loans);
  }

  lemma {:induction false} OpenBalanceIsExposure(cid: string, loans: seq<Loan>)
    ensures Outstanding(OpenLoansOf(cid, loans)) == ExposureOf(cid, loans)
  {
    if loans != [] {
      var n := |loans| - 1;
      var l := loans[n];
      var front := OpenLoansOf(cid, loans[..n]);
      var last := if l.clientId == cid && l.status != Quitado then [l] else [];
      OpenBalanceIsExposure(cid, loans[..n]);
      OutstandingAppend(front, last);
      if last != [] {
        assert last[..0] == [];
      }
    }
  }

  /** A client is flagged late exactly when one of its loans is late.  (A late
      loan is never settled, so the settled-loan filter cannot hide one.) */
  lemma ClientLateIffSomeLoanLate(c: BaseClient, loans: seq<Loan>)
    ensures AggregateClient(c, loans).status == EmAtraso
        <==> exists i :: 0 <= i < |loans| && loans[i].clientId == c.id && loans[i].status == Atrasado
  {
    var open := OpenLoansOf(c.id, loans);
    if AggregateClient(c, loans).status == EmAtraso {
      var j :| 0 <= j < |open| && open[j].status == Atrasado;
      assert open[j] in loans;
    }
  }

  /** A sum of balances of loans that are all still owed is positive exactly
      when there is at least one loan. */
  lemma {:induction false} OutstandingOfUnsettled(ls: seq<Loan>)
    requires forall l :: l in ls ==> l.amountPaid < l.totalToReceive
    ensures Outstanding(ls) >= 0.0
    ensures Outstanding(ls) == 0.0 <==> ls == []
  {
    if ls != [] {
      var n := |ls| - 1;
      assert forall l :: l in ls[..n] ==> l in ls;
      OutstandingOfUnsettled(ls[..n]);
      assert ls[n] in ls;
    }
  }

  /** With statuses that are current, a client's exposure is never negative,
      and it is zero exactly when the client has no open loan. */
  lemma TotalOpenNonNegative(c: BaseClient, loans: seq<Loan>, today: Date)
    requires StatusesCurrent(loans, today)
    ensures AggregateClient(c, loans).totalOpen >= 0.0
    ensures AggregateClient(c, loans).totalOpen == 0.0 <==> OpenLoansOf(c.id, loans) == []
  {
    var open := OpenLoansOf(c.id, loans);
    forall l | l in open ensures l.amountPaid < l.totalToReceive {
      var i :| 0 <= i < |loans| && loans[i] == l;
    }
    OutstandingOfUnsettled(open);
  }

  /** A client with no open loan owes nothing and is up to date. */
  lemma NoOpenLoansMeansClear(c: BaseClient, loans: seq<Loan>)
    requires forall l :: l in loans && l.clientId == c.id ==> l.status == Quitado
    ensures AggregateClient(c, loans).totalOpen == 0.0
    ensures AggregateClient(c, loans).status == EmDia
  {
  }

  // ---------------------------------------------------------------------------
  // Portfolio statistics

  /** Capital still out: `amount - principalPaid` of every loan not settled. */
  function PrincipalOut(ls: seq<Loan>): real
  {
    if ls == [] then 0.0
    else
      var l := ls[|ls| - 1];
      PrincipalOut(ls[..|ls| - 1]) + (if l.status != Quitado then l.amount - PrincipalPaid(l.payments) else 0.0)
  }

  /** Interest still to collect on a loan not settled, floored at zero. */
  function PendingInterestOf(l: Loan): (r: real)
    ensures r >= 0.0
    ensures r >= (l.totalToReceive - l.amount) - InterestPaid(l.payments)
    ensures r == 0.0 || r == (l.totalToReceive - l.amount) - InterestPaid(l.payments)
  {
    var totalInterest := l.totalToReceive - l.amount;
    var open := totalInterest - InterestPaid(l.payments);
    if 0.0 >= open then 0.0 else open
  }

  /** `interestPending`: settled loans are skipped. */
  function InterestPending(ls: seq<Loan>): real
  {
    if ls == [] then 0.0
    else
      var l := ls[|ls| - 1];
      InterestPending(ls[..|ls| - 1]) + (if l.status == Quitado then 0.0 else PendingInterestOf(l))
  }

  /** `totalReceived`: the values of the transactions filed as `Recebimento`. */
  function TotalReceived(ts: seq<Transaction>): real
  {
    if ts == [] then 0.0
    else
      var t := ts[|ts| - 1];
      TotalReceived(ts[..|ts| - 1]) + (if t.category == Recebimento then t.value else 0.0)
  }

  /** `totalBalance`: `ENTRADA` values are added, every other value subtracted. */
  function TotalBalance(ts: seq<Transaction>): real
  {
    if ts == [] then 0.0
    else
      var t := ts[|ts| - 1];
      if t.kind == Entrada then TotalBalance(ts[..|ts| - 1]) + t.value
      else TotalBalance(ts[..|ts| - 1]) - t.value
  }

  datatype Stats = Stats(totalBalance: real, principalOut: real, interestPending: real, totalReceived: real)

  /** The dashboard figures, computed over the processed loans. */
  function ComputeStats(loans: seq<Loan>, ts: seq<Transaction>, today: Date): (r: Stats)
    ensures r.interestPending >= 0.0
  {
    var processed := ProcessLoans(loans, today);
    InterestPendingNonNegative(processed);
    Stats(TotalBalance(ts), PrincipalOut(processed), InterestPending(processed), TotalReceived(ts))
  }

  /** Interest pending is a sum of figures floored at zero, so never negative. */
  lemma {:induction false} InterestPendingNonNegative(ls: seq<Loan>)
    ensures InterestPending(ls) >= 0.0
  {
    if ls != [] {
      InterestPendingNonNegative(ls[..|ls| - 1]);
    }
  }

  /** The loans not yet settled, in order. */
  function Unsettled(ls: seq<Loan>): (r: seq<Loan>)
    ensures forall l :: l in r <==> l in ls && l.status != Quitado
  {
    if ls == [] then []
    else
      var n := |ls| - 1;
      var l := ls[n];
      assert forall x :: x in ls <==> x in ls[..n] || x == l by {
        assert ls == ls[..n] + [l];
      }
      Unsettled(ls[..n]) + (if l.status != Quitado then [l] else [])
  }

  /** Settled loans contribute nothing to either pending figure: both are the
      same computed over the unsettled loans alone. */
  lemma {:induction false} SettledLoansContributeNothing(ls: seq<Loan>)
    ensures PrincipalOut(ls) == PrincipalOut(Unsettled(ls))
    ensures InterestPending(ls) == InterestPending(Unsettled(ls))
  {
    if ls != [] {
      var n := |ls| - 1;
      var u := Unsettled(ls[..n]);
      SettledLoansContributeNothing(ls[..n]);
      if ls[n].status != Quitado {
        assert (u + [ls[n]])[..|u|] == u;
      } else {
        assert u + [] == u;
      }
    }
  }

  /** A portfolio whose loans are all settled has nothing pending. */
  lemma AllSettledNothingPending(ls: seq<Loan>)
    requires forall i :: 0 <= i < |ls| ==> ls[i].status == Quitado
    ensures PrincipalOut(ls) == 0.0 && InterestPending(ls) == 0.0
  {
    SettledLoansContributeNothing(ls);
  }
}
