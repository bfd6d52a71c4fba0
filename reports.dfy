/** The delinquency report: the clients flagged late and what they owe. */
module Reports {
  import opened Dates
  import opened Ledger
  import opened Portfolio

  /** `clients.filter(c => c.status === 'ATRASADO')`, order kept. */
  function LateClients(cs: seq<Client>): (r: seq<Client>)
    ensures |r| <= |cs|
  {
    if cs == [] then []
    else
      var c := cs[|cs| - 1];
      LateClients(cs[..|cs| - 1]) + (if c.status == EmAtraso then [c] else [])
  }

  /** `reduce((acc, c) => acc + c.totalOpen, 0)`. */
  function SumOpen(cs: seq<Client>): real
  {
    if cs == [] then 0.0 else SumOpen(cs[..|cs| - 1]) + cs[|cs| - 1].totalOpen
  }

  /** The "Valor Total Vencido" card. */
  function TotalLate(cs: seq<Client>): real
  {
    SumOpen(LateClients(cs))
  }

  /** The report lists exactly the late clients, each as often as in the input. */
  lemma {:induction false} LateClientsAreTheLateOnes(cs: seq<Client>)
    ensures forall c :: c in LateClients(cs) <==> c in cs && c.status == EmAtraso
    ensures forall c: Client :: c.status == EmAtraso ==> multiset(LateClients(cs))[c] == multiset(cs)[c]
    ensures forall c: Client :: c.status != EmAtraso ==> multiset(LateClients(cs))[c] == 0
  {
    if cs != [] {
      var n := |cs| - 1;
      LateClientsAreTheLateOnes(cs[..n]);
      assert cs == cs[..n] + [cs[n]];
    }
  }

  lemma {:induction false} LateClientsAppend(cs: seq<Client>, ds: seq<Client>)
    ensures LateClients(cs + ds) == LateClients(cs) + LateClients(ds)
    decreases |ds|
  {
    if ds == [] {
      assert cs + ds == cs;
    } else {
      var n := |ds| - 1;
      assert (cs + ds)[..|cs + ds| - 1] == cs + ds[..n];
      LateClientsAppend(cs, ds[..n]);
    }
  }

  /** Filtering twice is filtering once. */
  lemma {:induction false} LateClientsIdempotent(cs: seq<Client>)
    ensures LateClients(LateClients(cs)) == LateClients(cs)
  {
    if cs != [] {
      var n := |cs| - 1;
      var f := LateClients(cs[..n]);
      LateClientsIdempotent(cs[..n]);
      if cs[n].status == EmAtraso {
        LateClientsAppend(f, [cs[n]]);
        assert [cs[n]][..0] == [];
      } else {
        assert f + [] == f;
      }
    }
  }

  /** With nobody late the report is empty and shows zero. */
  lemma {:induction false} NoLateClients(cs: seq<Client>)
    requires forall i :: 0 <= i < |cs| ==> cs[i].status == EmDia
    ensures LateClients(cs) == [] && TotalLate(cs) == 0.0
  {
    if cs != [] {
      var n := |cs| - 1;
      assert forall i :: 0 <= i < n ==> cs[..n][i] == cs[i];
      NoLateClients(cs[..n]);
    }
  }

  /** With no negative exposure, the late total lies between zero and the
      exposure of all clients. */
  lemma {:induction false} TotalLateBounds(cs: seq<Client>)
    requires forall i :: 0 <= i < |cs| ==> cs[i].totalOpen >= 0.0
    ensures 0.0 <= TotalLate(cs) <= SumOpen(cs)
  {
    if cs != [] {
      var n := |cs| - 1;
      assert forall i :: 0 <= i < n ==> cs[..n][i] == cs[i];
      TotalLateBounds(cs[..n]);
      var f := LateClients(cs[..n]);
      if cs[n].status == EmAtraso {
        assert (f + [cs[n]])[..|f|] == f;
      } else {
        assert f + [] == f;
      }
    }
  }

  /** On the figures the application derives, every late client owes
      something and the late total is at most the total exposure. */
  lemma DerivedReportIsSound(base: seq<BaseClient>, raw: seq<Loan>, today: Date)
    ensures var cs := ProcessClients(base, ProcessLoans(raw, today));
      0.0 <= TotalLate(cs) <= SumOpen(cs)
      && forall c :: c in LateClients(cs) ==> c.totalOpen > 0.0
  {
    var loans := ProcessLoans(raw, today);
    var cs := ProcessClients(base, loans);
    ProcessedLoansAreCurrent(raw, today);
    forall i | 0 <= i < |cs| ensures cs[i].totalOpen >= 0.0 {
      TotalOpenNonNegative(base[i], loans, today);
    }
    TotalLateBounds(cs);
    LateClientsAreTheLateOnes(cs);
    forall c | c in LateClients(cs) ensures c.totalOpen > 0.0 {
      var i :| 0 <= i < |cs| && cs[i] == c;
      TotalOpenNonNegative(base[i], loans, today);
      var open := OpenLoansOf(base[i].id, loans);
      assert AnyLate(open);
    }
  }
}
