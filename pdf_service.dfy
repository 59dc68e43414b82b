/** The summary box of the PDF statement (opening balance, total credit, total debit,
    closing balance) and the composition the statement endpoint makes of it: the statement's
    rows and the reconstructed opening balance. */
module PdfService {
  import opened Wrappers
  import opened Entities
  import opened Ledger
  import opened AccountService
  import opened TransactionService

  datatype Summary = Summary(opening: int, totalCredit: int, totalDebit: int, closing: int)

  /** The figures `buildStatementPdf` prints: the CREDIT and DEBIT totals of the rows (a null
      amount counting 0, other types in neither), and the closing balance they move the
      opening balance to (a null opening counting 0). */
  function StatementSummary(txs: seq<Txn>, openingBalance: Option<int>): (r: Summary)
    ensures r.opening == openingBalance.GetOr(0)
    ensures r.closing - r.opening == r.totalCredit - r.totalDebit
  {
    var totalCredit := TotalOf(txs, Credits());
    var totalDebit := TotalOf(txs, Debits());
    Summary(openingBalance.GetOr(0), totalCredit, totalDebit, openingBalance.GetOr(0) + totalCredit - totalDebit)
  }

  /** A row of another type than CREDIT or DEBIT changes no figure. */
  lemma {:induction false} OtherTypesIgnored(txs: seq<Txn>, x: Txn, openingBalance: Option<int>)
    requires !IsCredit(x) && !IsDebit(x)
    ensures StatementSummary(txs + [x], openingBalance) == StatementSummary(txs, openingBalance)
  {
    FilterConcat(txs, [x], Credits());
    FilterConcat(txs, [x], Debits());
    assert Filter([x], Credits()) == [] && Filter([x], Debits()) == [];
    assert Filter(txs, Credits()) + [] == Filter(txs, Credits());
    assert Filter(txs, Debits()) + [] == Filter(txs, Debits());
  }

  /** Every figure is a non-negative total when every amount is. */
  lemma {:induction false} TotalsOfPositiveAmounts(txs: seq<Txn>, p: Txn -> bool)
    requires forall t | t in txs :: AmountOrZero(t) >= 0
    ensures TotalOf(txs, p) >= 0
  {
    var f := Filter(txs, p);
    NonNegativeSum(f);
  }

  lemma {:induction false} NonNegativeSum(s: seq<Txn>)
    requires forall t | t in s :: AmountOrZero(t) >= 0
    ensures SumOf(s, AmountOrZero) >= 0
  {
    if s != [] {
      assert s[0] in s;
      assert forall t | t in s[1..] :: t in s;
      NonNegativeSum(s[1..]);
    }
  }

  /** `downloadPdfStatement`: the statement's rows (which check ownership), then the opening
      balance `getBalanceBefore` reconstructs, then the summary of both. */
  function PdfSummary(s: Snapshot, accountId: AccountId, email: string, w: Window): (r: Result<Summary, Error>)
    ensures r.Success? <==> Owns(s, accountId, email)
    ensures r.Failure? ==> r.error == StatementEntries(s, accountId, email, w).error
    ensures r.Success? ==> r.value.opening == GetBalanceBefore(s, accountId, w.from).value
  {
    match StatementEntries(s, accountId, email, w)
    case Failure(e) => Failure(e)
    case Success(rows) =>
      match GetBalanceBefore(s, accountId, w.from)
      case Failure(e) => Failure(e)
      case Success(opening) => Success(StatementSummary(rows, Some(opening)))
  }

  /** The opening balance a statement is meant to start from: the balance before the start
      of `from`, or, with no `from`, the balance before every entry of the account. */
  function CorrectedOpening(s: Snapshot, accountId: AccountId, from: Option<int>): (r: Result<int, Error>)
    ensures accountId !in s.accounts <==> r.Failure?
    ensures from.Some? ==> r == GetBalanceBefore(s, accountId, from)
    ensures from.None? && r.Success? ==> r.value + Net(s.ledger, accountId) == s.accounts[accountId].balance
  {
    if from.Some? then GetBalanceBefore(s, accountId, from)
    else if accountId !in s.accounts then Failure(Internal("Account not found"))
    else Success(s.accounts[accountId].balance - Net(s.ledger, accountId))
  }

  /** The statement summary over the inclusive window, opened at the corrected opening. */
  function CorrectedPdfSummary(s: Snapshot, accountId: AccountId, email: string, w: Window): (r: Result<Summary, Error>)
    ensures r.Success? <==> Owns(s, accountId, email)
    ensures r.Failure? ==> r.error == CorrectedStatementEntries(s, accountId, email, w).error
    ensures r.Success? ==> r.value.opening == CorrectedOpening(s, accountId, w.from).value
  {
    match CorrectedStatementEntries(s, accountId, email, w)
    case Failure(e) => Failure(e)
    case Success(rows) =>
      match CorrectedOpening(s, accountId, w.from)
      case Failure(e) => Failure(e)
      case Success(opening) => Success(StatementSummary(rows, Some(opening)))
  }

  /** The entries of an account are all CREDIT or DEBIT, as the engine writes them. */
  ghost predicate EntriesTyped(ledger: seq<Txn>, accountId: AccountId) {
    forall t | t in ledger && t.accountId == accountId :: IsCredit(t) || IsDebit(t)
  }

  /** The signed sum of a statement's rows is that of the account's entries it keeps. */
  lemma {:induction false} StatementNet(s: Snapshot, accountId: AccountId, email: string, keep: Txn -> bool)
    requires Owns(s, accountId, email) && EntriesTyped(s.ledger, accountId)
    ensures var rows := StatementRows(s, accountId, email, keep).value;
      TotalOf(rows, Credits()) - TotalOf(rows, Debits())
        == SumOf(Filter(Filter(s.ledger, OfAccount(accountId)), keep), Signed)
  {
    var kept := Filter(Filter(s.ledger, OfAccount(accountId)), keep);
    var rows := StatementRows(s, accountId, email, keep).value;
    assert rows == SortNewestFirst(kept);
    TypedNetIsSigned(rows);
    SumOfSorted(kept, Signed);
  }

  /** With the inclusive window and the corrected opening, the closing balance a statement
      from any `from` day (or from none) prints is the account's current balance, provided
      the balance is reconciled with the ledger. */
  lemma {:induction false} ClosingIsCurrentBalance(s: Snapshot, accountId: AccountId, email: string, from: Option<int>)
    requires Owns(s, accountId, email) && EntriesTyped(s.ledger, accountId)
    requires s.accounts[accountId].balance == Net(s.ledger, accountId)
    ensures CorrectedPdfSummary(s, accountId, email, Window(from, None)).Success?
    ensures CorrectedPdfSummary(s, accountId, email, Window(from, None)).value.closing == s.accounts[accountId].balance
  {
    if from.Some? {
      ClosingFromDay(s, accountId, email, from.value);
    } else {
      ClosingWithoutDay(s, accountId, email);
    }
  }

  lemma {:induction false} ClosingFromDay(s: Snapshot, accountId: AccountId, email: string, from: int)
    requires Owns(s, accountId, email) && EntriesTyped(s.ledger, accountId)
    requires s.accounts[accountId].balance == Net(s.ledger, accountId)
    ensures CorrectedPdfSummary(s, accountId, email, Window(Some(from), None)).Success?
    ensures CorrectedPdfSummary(s, accountId, email, Window(Some(from), None)).value.closing == s.accounts[accountId].balance
  {
    var w := Window(Some(from), None);
    var own := Filter(s.ledger, OfAccount(accountId));
    var cutoff := StartOfDay(from);
    OpeningIsNetBeforeCutoff(s, accountId, from);
    NetIsOwnSignedSum(s.ledger, accountId);
    StatementNet(s, accountId, email, Selects(w));
    FilterAgrees(own, Not(Selects(w)), Not(AtOrAfter(cutoff)));
    SumOfPartition(own, Signed, Selects(w));
  }

  lemma {:induction false} ClosingWithoutDay(s: Snapshot, accountId: AccountId, email: string)
    requires Owns(s, accountId, email) && EntriesTyped(s.ledger, accountId)
    requires s.accounts[accountId].balance == Net(s.ledger, accountId)
    ensures CorrectedPdfSummary(s, accountId, email, Window(None, None)).Success?
    ensures CorrectedPdfSummary(s, accountId, email, Window(None, None)).value.closing == s.accounts[accountId].balance
  {
    var own := Filter(s.ledger, OfAccount(accountId));
    NetIsOwnSignedSum(s.ledger, accountId);
    StatementNet(s, accountId, email, Selects(Window(None, None)));
    FilterAll(own, Selects(Window(None, None)));
  }

  /** One credit of 100 stamped at midnight of `day`: the reconstructed opening balance has
      already taken it out, and the strict window leaves it off the statement, so the
      closing balance printed is 0 instead of the balance of 100. */
  lemma MidnightCreditMissingFromClosing(day: int)
    ensures var entry := Txn(1, 1, Credit, Some(100), Some(StartOfDay(day)), None);
      var s := Snapshot(map[1 := Account(1, 7, 100, Active, 0)], [User(7, "owner", true)], [entry]);
      && s.accounts[1].balance == Net(s.ledger, 1)
      && EntriesTyped(s.ledger, 1)
      && PdfSummary(s, 1, "owner", Window(Some(day), None)).value.closing == 0
      && CorrectedPdfSummary(s, 1, "owner", Window(Some(day), None)).value.closing == 100
  {
    var entry := Txn(1, 1, Credit, Some(100), Some(StartOfDay(day)), None);
    var s := Snapshot(map[1 := Account(1, 7, 100, Active, 0)], [User(7, "owner", true)], [entry]);
    assert IsCredit(entry);
    NetOfOne(entry, 1);
    assert EntriesTyped(s.ledger, 1);
    assert Owns(s, 1, "owner");
    ClosingIsCurrentBalance(s, 1, "owner", Some(day));
    var w := Window(Some(day), None);
    var own := Filter(s.ledger, OfAccount(1));
    assert own == [entry];
    assert Filter(own, SelectsAsWritten(w)) == [];
    assert Filter(own, AtOrAfter(StartOfDay(day))) == [entry];
    assert NetSince(s.ledger, 1, StartOfDay(day)) == 100;
  }

  /** Without any day the opening balance `getBalanceBefore` returns is the current balance
      while the rows are the whole history, so a reconciled account's statement closes at
      twice its balance (the corrected summary closes at the balance itself). */
  lemma {:induction false} UnboundedClosingCountsHistoryTwice(s: Snapshot, accountId: AccountId, email: string)
    requires Owns(s, accountId, email) && EntriesTyped(s.ledger, accountId)
    requires s.accounts[accountId].balance == Net(s.ledger, accountId)
    ensures PdfSummary(s, accountId, email, Window(None, None)).value.closing == 2 * s.accounts[accountId].balance
  {
    var own := Filter(s.ledger, OfAccount(accountId));
    StatementNet(s, accountId, email, SelectsAsWritten(Window(None, None)));
    NetIsOwnSignedSum(s.ledger, accountId);
    FilterAll(own, SelectsAsWritten(Window(None, None)));
  }
}
