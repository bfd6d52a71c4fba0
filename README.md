# Financier loan ledger in Dafny

A model of the derived-state engine of Financier, a small single-page
application for lending money to clients. It keeps a list of loans and one
cash-flow ledger. Each loan has an append-only list of payments. Everything the
screens show is recomputed from those two lists:

- each loan's status: settled, late or active;
- each client's exposure and late flag;
- the four dashboard figures;
- the loan-details figures and the payment history with its running balance;
- the cash-flow totals;
- the delinquency report.

Two operations change the state: registering a payment and creating a loan.

Modules and files, in dependency order:

- `dates.dfy`, module `Dates`:
  - calendar days;
  - the one-month roll of a due date;
  - the ISO text form, with a proof that string `<` on `YYYY-MM-DD` is calendar order.
- `ledger.dfy`, module `Ledger`: the records (loan, payment entry, transaction, client) and the sums over a loan's payments.
- `portfolio.dfy`, module `Portfolio`: the status classifier, the client aggregator and the dashboard statistics (`processedLoans`, `processedClients`, `stats`).
- `store.dfy`, module `Store`: the two mutators, as the methods of class `LoanBook`, whose fields `loans` and `transactions` are the application's two state lists. Also the pure per-loan update beneath them.
- `loan_details.dfy`, module `LoanDetails`:
  - the loan-details screen's figures;
  - its payment form, as class `PaymentForm`;
  - the history table, built by a loop method proved against a specification function.
- `cash_flow.dfy`, module `CashFlow`: the totals fold, as a loop method, and the net balance.
- `reports.dfy`, module `Reports`: the late-clients filter and its total.
- `initials.dfy`, module `Initials`: the initials given to a new client, with ASCII upper-casing.

Modelling choices:

- Money is `real`. The source uses IEEE doubles; rounding is not modelled.
- A date is a `(year, month, day)` triple. The source keeps `YYYY-MM-DD` strings and compares them with string `<`. `Dates.IsoOrderAgrees` proves that this comparison is `Dates.Before` for years 0 to 9999.
- The reduce folds of the source run left to right. The recursive functions here are defined from the back of the sequence, so they add in the same order.
- The current day and the random identifiers are parameters. The source calls `new Date()` and `Math.random()` for them.
- Due-date roll: the source rolls an interest-only payment's due date with JavaScript's `setMonth(getMonth() + 1)`. An out-of-range day therefore spills over into the following month: 2024-01-31 becomes 2024-03-02. A clamp to the end of the shorter month would give 2024-02-29 instead; the code does not clamp, and the model follows the code (`Dates.AddMonth`, `Dates.AddMonthExamples`).

## Model

| member | source | states |
|---|---|---|
| Dates.Before | App.tsx:121 | the lateness comparison `loan.dueDate < today` on calendar days: year, then month, then day; `IsoOrderAgrees` proves it is string `<` on the ISO forms and `BeforeIsStrictTotalOrder` that it is a strict total order |
| Dates.BeforeIsStrictTotalOrder | App.tsx:121 | the date comparison used for lateness is irreflexive, transitive, total and asymmetric |
| Dates.IsoOrderAgrees | App.tsx:96-121 | for years 0-9999, string `<` on the ISO forms of two valid dates holds exactly when the first is the earlier day, and the ISO form is injective |
| Dates.AddMonth | App.tsx:222-225 | the rolled due date is a valid date strictly later than the old one; a day up to 28 lands on the same day of the next month; it stays in the next month exactly when that month is long enough |
| Dates.AddMonthCountsDaysFromNextFirst | App.tsx:222-225 | the roll lands `day - 1` days after the first of the next month, in that month's year, which is how `Date` normalises an overflowing day |
| Dates.DayOfYearInjective | App.tsx:222-225 | two valid dates of one year with the same day number are equal, so the day count above fixes the rolled date |
| Dates.AddMonthExamples | App.tsx:222-225 | concrete rolls: 2024-01-10 to 02-10, 2024-01-31 to 03-02, 2023-01-31 to 03-03, 2024-03-31 to 05-01, 2024-12-15 to 2025-01-15 |
| Dates.Iso | App.tsx:96 | the ISO day string has ten characters with dashes at positions 4 and 7 |
| Ledger.KindSumsAfterAppend | App.tsx:230-231 | appending a payment adds its value to the total and to the sum of its own kind, and leaves the other kind's sum unchanged |
| Ledger.OfKind | views/LoanDetailsView.tsx:15-21 | `payments.filter(p => p.type === k)`, never longer than its input; summing it gives the one-pass kind sum (`KindTotalIsFilteredSum`) |
| Ledger.LoanInvariant | App.tsx:227-232 | the headline ledger invariant `amountPaid == sum(payments.value)`, with a due date that is a real calendar day; a payment keeps it (`Store.PaymentKeepsLoanInvariant`) and a new loan has it (`Store.NewLoan`) |
| Ledger.Total | views/LoanDetailsView.tsx:15-21 | the left-to-right sum of the payment values; it equals interest paid plus principal paid (`InterestPlusPrincipalIsTotal`) and is the `amountPaid` of every loan under the ledger invariant |
| Ledger.InterestPaid | views/LoanDetailsView.tsx:15-17 | `totalInterestPaid`, the sum of the `JUROS` payments: it is the filter-then-reduce of the source (`KindTotalIsFilteredSum`), grows by exactly an appended interest payment (`KindSumsAfterAppend`) and lies between zero and the total (`KindSumsNonNegative`) |
| Ledger.PrincipalPaid | views/LoanDetailsView.tsx:19-21 | `totalAmortized` and the stats' `principalPaid` (App.tsx:145), the sum of the `AMORTIZACAO` payments, with the same partner lemmas as `InterestPaid` |
| Ledger.KindTotalIsFilteredSum | views/LoanDetailsView.tsx:15-21 | the one-pass kind sum equals filtering the payments by kind and then summing the values |
| Ledger.InterestPlusPrincipalIsTotal | views/LoanDetailsView.tsx:15-21 | interest paid plus principal paid is the sum of all payment values |
| Ledger.KindSumsNonNegative | views/LoanDetailsView.tsx:15-21 | with no negative payment, both kind sums lie between zero and the total paid |
| Portfolio.Classify | App.tsx:120-125 | settled exactly when the paid amount reaches the contract total; late exactly when unsettled and the due date is before today; active exactly when unsettled and not overdue |
| Portfolio.SettlementIsPermanent | App.tsx:120-125 | a settled loan stays settled on any day after any change that keeps its total and does not lower its paid amount |
| Portfolio.LatenessPersists | App.tsx:121 | a late loan is still late on every later day while nothing is paid |
| Portfolio.ProcessLoans | App.tsx:118-127 | every loan is kept in its place with only its status replaced by the classifier's verdict |
| Portfolio.ProcessedLoansAreCurrent | App.tsx:118-127 | after processing, every status is the classifier's, and a processed loan is settled exactly when fully paid |
| Portfolio.OpenLoansOf | App.tsx:131 | a loan is among a client's open loans exactly when it belongs to that client and is not settled |
| Portfolio.OpenLoansOfCounts | App.tsx:131 | the filter keeps each open loan of the client as many times as the loan list holds it, and no other loan |
| Portfolio.OpenLoansOfSnoc | App.tsx:131 | one more loan at the end of the list is added at the end of the client's open loans exactly when it is an open loan of that client |
| Portfolio.OpenLoansOfAppend | App.tsx:131 | the filter distributes over concatenation, so it keeps the input order |
| Portfolio.ExposureOf | App.tsx:131-132 | the reference sum of the balances of a client's open loans, taken over the whole loan list; `TotalOpenIsExposure` equates it with `totalOpen` |
| Portfolio.OpenBalanceIsExposure | App.tsx:131-132 | the sum over the filtered list equals the reference exposure, so each open loan counts once per occurrence |
| Portfolio.TotalOpenIsExposure | App.tsx:129-141 | the aggregated client's `totalOpen` is its exposure over all loans |
| Portfolio.Outstanding | App.tsx:132 | the `totalOpen` sum; over the filtered list it equals the client's exposure over all loans (`TotalOpenIsExposure`), and it is non-negative and zero only for no loans when every loan is unpaid (`OutstandingOfUnsettled`) |
| Portfolio.OutstandingAppend | App.tsx:132 | the sum of two lists put together is the sum of their sums |
| Portfolio.AnyLate | App.tsx:133 | true exactly when some loan in the list is late |
| Portfolio.AggregateClient | App.tsx:129-141 | the aggregated client keeps its id, name, document and initials |
| Portfolio.ProcessClients | App.tsx:129-141 | every client is kept in its place, each with the figures of its own loans |
| Portfolio.ClientLateIffSomeLoanLate | App.tsx:131-139 | a client is flagged late exactly when one of its loans is late |
| Portfolio.OutstandingOfUnsettled | App.tsx:132 | a sum of balances of unpaid loans is non-negative, and zero exactly when there are no loans |
| Portfolio.TotalOpenNonNegative | App.tsx:129-141 | with current statuses, a client's exposure is non-negative, and zero exactly when it has no open loan |
| Portfolio.NoOpenLoansMeansClear | App.tsx:129-141 | a client all of whose loans are settled owes nothing and is up to date |
| Portfolio.PrincipalOut | App.tsx:144-147 | `principalOut`, `amount - principalPaid` summed over unsettled loans: settled loans add nothing (`SettledLoansContributeNothing`) and an all-settled list gives zero (`AllSettledNothingPending`) |
| Portfolio.PendingInterestOf | App.tsx:150-153 | a loan's pending interest is `max(0, contract interest - interest paid)` |
| Portfolio.InterestPending | App.tsx:149-154 | `interestPending` over unsettled loans: never negative (`InterestPendingNonNegative`) and unaffected by settled loans (`SettledLoansContributeNothing`) |
| Portfolio.TotalReceived | App.tsx:156 | `totalReceived`, the sum of the `Recebimento` values: a receipt raises it by its value and a disbursement leaves it (`Store.ReceiptRaisesTotals`, `Store.DisbursementLowersBalance`) |
| Portfolio.TotalBalance | App.tsx:157 | `totalBalance`, `ENTRADA` added and every other value subtracted: it is the cash-flow screen's `in - out` (`CashFlow.NetIsTotalBalance`) |
| Portfolio.ComputeStats | App.tsx:143-160 | the pending-interest figure of the dashboard is never negative |
| Portfolio.InterestPendingNonNegative | App.tsx:148-154 | the sum of pending interest over any loans is non-negative |
| Portfolio.Unsettled | App.tsx:144-154 | the loans not settled, in order: a loan is kept exactly when it is in the list and its status is not `QUITADO` |
| Portfolio.SettledLoansContributeNothing | App.tsx:144-154 | principal out and interest pending equal the same sums over the unsettled loans alone |
| Portfolio.AllSettledNothingPending | App.tsx:144-154 | a portfolio of settled loans has zero principal out and zero interest pending |
| Store.KindFor | App.tsx:216 | a payment is filed as interest exactly when it is interest only |
| Store.ApplyPayment | App.tsx:218-231 | the paid loan gains the payment at the end of its history and its value in the paid amount; its due date changes exactly for an interest-only payment, to the one-month roll; no other field changes |
| Store.PaymentKeepsLoanInvariant | App.tsx:218-231 | a payment keeps "paid amount = sum of payments" and a valid due date |
| Store.PaymentGoesToItsKind | App.tsx:212-231 | an interest-only payment raises interest paid by its value and leaves principal paid; an amortising payment does the opposite |
| Store.SettledLoanStaysSettled | App.tsx:218-231 | a further non-negative payment to a settled loan leaves it settled on every day |
| Store.PayMatching | App.tsx:218-233 | every loan with the id is paid, every other loan is unchanged, the order is kept |
| Store.PaymentToUnknownIdChangesNothing | App.tsx:218-233 | a payment to an id no loan has leaves the loan list unchanged |
| Store.FindLoan | App.tsx:237 | a loan is found exactly when some loan has the id, and it is the first such loan |
| Store.Receipt | App.tsx:238-247 | a payment's cash entry is money in, filed as `Recebimento`, for the paid value on the payment day |
| Store.NewLoan | App.tsx:302-308 | a new loan carries the offer's fields, is active, has nothing paid and no payments, and satisfies the ledger invariant |
| Store.Disbursement | App.tsx:310-318 | a new loan's cash entry is money out, filed as `Empréstimos`, for the principal on the start date |
| Store.ReceiptRaisesTotals | App.tsx:156-157 | recording a receipt raises total received and total balance by its value |
| Store.DisbursementLowersBalance | App.tsx:156-157 | recording a disbursement lowers the total balance by the principal and leaves total received unchanged |
| Store.LoanBook.Valid | App.tsx:92-93 | the headline invariant over the application state: every loan's `amountPaid` is the sum of its payment values (`Ledger.LoanInvariant`); the constructor establishes it and both mutators keep it |
| Store.LoanBook.constructor | App.tsx:92-93 | the initial state: `useState` with no loans and no transactions, which satisfies the invariant |
| Store.LoanBook.RegisterPayment | App.tsx:210-249 | the loans become the paid list, one receipt is appended when a loan with the id existed (naming its client), nothing changes otherwise, and the ledger invariant is kept |
| Store.LoanBook.AddLoan | App.tsx:301-318 | the new loan goes to the front and its disbursement to the end; the balance drops by the principal; the received total is unchanged; the invariant is kept |
| LoanDetails.RemainingBalance | views/LoanDetailsView.tsx:23 | `totalToReceive - amountPaid`; under the ledger invariant it is the total less interest and principal paid, and it is used up exactly when the loan is settled (`RemainingBalanceMeaning`) |
| LoanDetails.RemainingBalanceMeaning | views/LoanDetailsView.tsx:14-23 | the remaining balance is the total less interest and principal paid, and it is used up exactly when the loan is settled |
| LoanDetails.ProgressPercent | views/LoanDetailsView.tsx:24 | for a positive total the bar is a percentage of at most 100; it is 100 exactly when the loan is paid off, below that it is paid/total times 100, and it is non-negative for a non-negative paid amount; a zero total gives NaN exactly when nothing is paid |
| LoanDetails.ProgressNeverDecreases | views/LoanDetailsView.tsx:24 | a non-negative payment never lowers the progress of a loan with a positive total |
| LoanDetails.SuggestedAmount | views/LoanDetailsView.tsx:26-33 | the value the form proposes: for the total button, paying it settles the loan (`SuggestedTotalSettles`); for the interest button, it is `interestRate` percent of the principal (`SuggestedInterestIsRateOfPrincipal`) |
| LoanDetails.SuggestedTotalSettles | views/LoanDetailsView.tsx:26-33 | paying the suggested total leaves nothing owed and settles the loan |
| LoanDetails.SuggestedInterestIsRateOfPrincipal | views/LoanDetailsView.tsx:28 | the suggested interest is `interestRate` percent of the principal, non-negative for non-negative inputs |
| LoanDetails.Submission | views/LoanDetailsView.tsx:35-41 | a payment is submitted exactly when the typed value parses to a number above zero, with that value, for the loan shown, filed as interest exactly when the interest button is active |
| LoanDetails.PaymentForm.IsOpen | views/LoanDetailsView.tsx:137 | the render guard `loan.status !== 'QUITADO'`: the constructor needs it and every method of the form keeps it |
| LoanDetails.PaymentForm.constructor | views/LoanDetailsView.tsx:11-33 | the form opens only for a loan not settled (it is rendered only then, line 137), on the interest button filled with the suggested interest |
| LoanDetails.PaymentForm.SelectPaymentType | views/LoanDetailsView.tsx:26-33 | pressing a button makes it active and refills the suggestion exactly when the active button changes |
| LoanDetails.PaymentForm.EditPayValue | views/LoanDetailsView.tsx:166 | typing replaces the field's value and nothing else |
| LoanDetails.PaymentForm.Confirm | views/LoanDetailsView.tsx:35-41 | returns the submission for the current field, whose value is always positive and whose loan is never settled, and clears the field exactly when a payment was submitted |
| LoanDetails.InsertByDate | views/LoanDetailsView.tsx:44 | one insertion step of the stable sort grows the list by one; it permutes (`InsertPermutes`), keeps sortedness (`InsertKeepsSorted`) and same-day order (`InsertKeepsSameDayOrder`) |
| LoanDetails.SortByDate | views/LoanDetailsView.tsx:44 | the date sort keeps the length; it is a permutation into date order (`SortPermutesIntoDateOrder`), stable (`SortIsStable`) and keeps the kind sums (`SortKeepsKindTotal`) |
| LoanDetails.SortPermutesIntoDateOrder | views/LoanDetailsView.tsx:44 | the sorted copy of the payments is a permutation of them in non-decreasing date order |
| LoanDetails.SortIsStable | views/LoanDetailsView.tsx:44 | payments of one day keep their recorded order in the sorted copy |
| LoanDetails.InsertKeepsSameDayOrder | views/LoanDetailsView.tsx:44 | inserting a payment keeps the relative order of the payments of every day, and puts it after those of its own day |
| LoanDetails.SortKeepsKindTotal | views/LoanDetailsView.tsx:44 | sorting keeps the sum paid of each kind |
| LoanDetails.Reversed | views/LoanDetailsView.tsx:49 | row `i` of the reversed list is row `n-1-i` of the original |
| LoanDetails.AscendingRows | views/LoanDetailsView.tsx:46-48 | the rows in date order, one per payment; row `j` is given by `AscendingRowAt` |
| LoanDetails.HistoryOf | views/LoanDetailsView.tsx:44-49 | the rows newest first, one per payment; row `i` is given by `HistoryOfAt` |
| LoanDetails.History | views/LoanDetailsView.tsx:44-49 | `historyWithSaldo` as a value, one row per payment; the loop `HistoryWithSaldo` computes it and the lemmas below describe it |
| LoanDetails.AscendingRowAt | views/LoanDetailsView.tsx:46-48 | in date order, row `j` shows the `j`-th payment and the total less the principal paid up to and including it |
| LoanDetails.HistoryOfAt | views/LoanDetailsView.tsx:44-49 | row `i` from the top shows the `i`-th payment from the end, and a balance of the total less the principal paid up to and including it |
| LoanDetails.InterestUpTo | views/LoanDetailsView.tsx:48 | the `JUROS` payments dated on or before the row's date, the filter inside the balance expression |
| LoanDetails.SumOfZeros | views/LoanDetailsView.tsx:48 | `reduce((sum, curr) => sum + 0, 0)` over that filter; it is always zero (`SumOfZerosIsZero`) |
| LoanDetails.SumOfZerosIsZero | views/LoanDetailsView.tsx:48 | the interest term inside the balance expression always adds up to zero |
| LoanDetails.HistoryWithSaldo | views/LoanDetailsView.tsx:44-49 | the loop with its running principal total builds exactly the history table |
| LoanDetails.ShownOfIsReversed | views/LoanDetailsView.tsx:44-49 | the payments shown, top to bottom, are the sorted payments reversed |
| LoanDetails.Shown | views/LoanDetailsView.tsx:44-49 | the payment of each row, top to bottom |
| LoanDetails.ReversedKeepsMultiset | views/LoanDetailsView.tsx:49 | `reverse` keeps every element the same number of times |
| LoanDetails.HistoryIsPermutation | views/LoanDetailsView.tsx:44-49 | the table shows every payment of the loan exactly once |
| LoanDetails.HistoryOfNewestFirst | views/LoanDetailsView.tsx:44-49 | for payments in date order, the rows run from the latest payment day to the earliest |
| LoanDetails.HistoryNewestFirst | views/LoanDetailsView.tsx:44-49 | the rows run from the latest payment day to the earliest |
| LoanDetails.HistorySameDayNewestFirst | views/LoanDetailsView.tsx:44-49 | payments of one day appear in the reverse of their recorded order |
| LoanDetails.InterestRowOfKeepsBalance | views/LoanDetailsView.tsx:46-48 | for any payments in table order, an interest row shows the balance of the row below it, or the contract total when it is the oldest |
| LoanDetails.InterestRowKeepsBalance | views/LoanDetailsView.tsx:46-48 | an interest row shows the balance of the row below it, or the contract total when it is the oldest |
| LoanDetails.PrincipalPaidGrows | views/LoanDetailsView.tsx:46-47 | with no negative payment, the running principal total never falls along the sorted payments |
| LoanDetails.BalanceOfNeverRises | views/LoanDetailsView.tsx:46-48 | for any non-negative payments, a newer row never shows a larger balance than an older one |
| LoanDetails.BalanceNeverRises | views/LoanDetailsView.tsx:46-48 | with no negative payment, a newer row never shows a larger balance than an older one |
| LoanDetails.NewestRowShowsTotalAmortized | views/LoanDetailsView.tsx:44-49 | the top row shows the contract total less all principal recovered |
| CashFlow.Share | views/CashFlowView.tsx:11-12 | which of the two totals a transaction's value goes to: `in` for `ENTRADA`, `out` otherwise |
| CashFlow.Flow | views/CashFlowView.tsx:10-14 | the left-to-right reference for each total: the loop computes it (`Totals`), the two add to the volume (`InPlusOutIsVolume`), their difference is the dashboard balance (`NetIsTotalBalance`) and order does not matter (`FlowIgnoresOrder`) |
| CashFlow.Volume | views/CashFlowView.tsx:10-14 | the sum of all values, which the two totals share between them (`InPlusOutIsVolume`) |
| CashFlow.Totals | views/CashFlowView.tsx:10-14 | the fold's `in` is the sum of the `ENTRADA` values and its `out` the sum of all other values, each added in ledger order |
| CashFlow.NetBalance | views/CashFlowView.tsx:36 | the net card is `in - out`, which equals the dashboard's `totalBalance` |
| CashFlow.InPlusOutIsVolume | views/CashFlowView.tsx:10-14 | every transaction lands in exactly one of the two totals |
| CashFlow.NetIsTotalBalance | App.tsx:157 | the cash-flow net and the dashboard balance are the same figure |
| CashFlow.TotalsBounded | views/CashFlowView.tsx:10-14 | with no negative value, both totals lie between zero and the sum of all values |
| CashFlow.FlowAppend | views/CashFlowView.tsx:10-14 | each total of two ledgers put together is the sum of their totals |
| CashFlow.FlowWithout | views/CashFlowView.tsx:10-14 | taking one transaction out of the ledger takes exactly its value out of the total it belongs to |
| CashFlow.FlowIgnoresOrder | views/CashFlowView.tsx:10-14 | any rearrangement of the same transactions gives the same two totals |
| Reports.LateClients | views/ReportsView.tsx:10 | the `ATRASADO` filter, never longer than its input; its contents are given by `LateClientsAreTheLateOnes` |
| Reports.SumOpen | views/ReportsView.tsx:11 | the `totalOpen` sum over a client list; it is bounded in `TotalLateBounds` |
| Reports.TotalLate | views/ReportsView.tsx:11 | the late total, between zero and the total exposure (`TotalLateBounds`), zero with nobody late (`NoLateClients`) |
| Reports.LateClientsAreTheLateOnes | views/ReportsView.tsx:10 | the report holds exactly the late clients, each as many times as in the input |
| Reports.LateClientsAppend | views/ReportsView.tsx:10 | the filter distributes over concatenation, so it keeps the input order |
| Reports.LateClientsIdempotent | views/ReportsView.tsx:10 | filtering the report again changes nothing |
| Reports.NoLateClients | views/ReportsView.tsx:10-11 | with nobody late the report is empty and its total zero |
| Reports.TotalLateBounds | views/ReportsView.tsx:10-11 | with no negative exposure, the late total lies between zero and the total exposure |
| Reports.DerivedReportIsSound | views/ReportsView.tsx:10-11 | on the clients the application derives, every late client owes a positive amount, and the late total lies between zero and the total exposure |
| Initials.Split | App.tsx:294 | `split(' ')` gives one more piece than there are spaces, and no piece contains a space |
| Initials.JoinSplit | App.tsx:294 | joining the pieces with single spaces gives back the name |
| Initials.SplitJoin | App.tsx:294 | splitting words without spaces, joined by single spaces, gives back the words |
| Initials.UpperChar | App.tsx:294 | a lower-case ASCII letter becomes its capital, every other character is kept |
| Initials.Upper | App.tsx:294 | upper-casing keeps the length and maps each character |
| Initials.UpperIdempotent | App.tsx:294 | upper-casing twice is upper-casing once |
| Initials.FirstOrUndefined | App.tsx:294 | `split(' ')[0][0]` in a concatenation: the first character, or the text `undefined` for an empty first piece (`LeadingSpaceGivesUndefined`) |
| Initials.FirstOrEmpty | App.tsx:294 | `pop()?.[0] \|\| ''`: the first character, or nothing for an empty last piece (`TrailingSpaceDropsLastLetter`) |
| Initials.InitialsOf | App.tsx:294 | the initials have between one and ten characters |
| Initials.InitialsOfPieces | App.tsx:294 | a name whose first and last pieces are non-empty gets the capitals of their first letters |
| Initials.NameOfWords | App.tsx:294 | a name of non-empty words gets the capital of the first letter of its first word followed by that of its last word |
| Initials.OneWordRepeatsLetter | App.tsx:294 | a one-word name gets its first letter twice |
| Initials.TwoWordSeedClient | App.tsx:71 | the seed client "Maria Oliveira" gets "MO", the initials stored for it; the rule does not reproduce every stored value: "Tech Solutions LTDA" (App.tsx:72) stores "TS" where the rule gives "TL" |

| Initials.InitialsAreUpper | App.tsx:294 | the initials are already upper case |
| Initials.LeadingSpaceGivesUndefined | App.tsx:294 | an empty name, or one starting with a space, begins its initials with `UNDEFINED` |
| Initials.TrailingSpaceDropsLastLetter | App.tsx:294 | a name ending with a space gets a single letter |

## Left out

- The rendering, navigation, error boundary, login, logout, subscription and license-trial screens are not modelled. They do not touch the ledger.
- The backend routes are not modelled: the core keeps all state in the client.
- Timers, React batching and re-rendering are not modelled.
- The current day and random identifiers are parameters of the operations. The source reads the clock and `Math.random()` for them.
- Time zones are left out: `Dates.AddMonth` computes the roll in universal time. In a zone west of UTC, `new Date("YYYY-MM-DD")` falls on the previous local day, so a due date on the first of a month can roll differently.
- Floating point, `toFixed`, `parseFloat` and `toLocaleString` are not modelled. Money is exact `real`, and a field that does not parse is `None`.
- `LoanDetails.PaymentForm.SelectPaymentType`: the source's effect also re-suggests a value whenever the loan shown or its remaining balance changes. The form models only the button press.
- `LoanDetails.PaymentForm.Confirm`: the field is cleared after a submission, but in the source the payment changes the loan and its balance, so the same effect (views/LoanDetailsView.tsx:26-33) refills the field at once. The model does not capture that refill.
- `LoanDetails.ProgressPercent` models only the values of the divide-by-zero case, not the display of `Infinity` or `NaN`.
- `Initials.UpperChar`: casing is ASCII only. `toUpperCase()` also capitalises accented and other Unicode letters.
- Adding a client (App.tsx:295) is modelled only through its initials: the prepend of the new client to the client list is not modelled.
- `SettingsView` and the default interest rate that pre-fills the new-loan form are not modelled. The created loan takes its rate from the offer.
- `Store.ApplyPayment`, `Store.PayMatching`, `Store.LoanBook.Valid` and `Store.LoanBook.AddLoan` assume that every due date is a real calendar day (`ValidDate`). The new-loan form takes the due date as free text (App.tsx:301-318). With an empty or malformed due date the source marks the loan late at once (`"" < today`), and an interest-only roll throws `RangeError` from `toISOString()` (App.tsx:223-225). The model covers neither.
- `Dates.IsoOrderAgrees`: the agreement is proved for four-digit years only, the range of `Date.toISOString()` without a sign.
