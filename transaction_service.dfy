/** The read side of one account's ledger: the ownership check every read starts with, the
    newest-first history with its paging and mini statement, the statement date window,
    and the analytics totals over a statement. Reads do not look at the account status. */
module TransactionService {
  import opened Wrappers
  import opened Entities
  import opened Ledger

  /** The messages of one read's ownership check: no account, no user, not the owner. */
  datatype OwnerMessages = OwnerMessages(noAccount: string, noUser: string, notOwner: string)

  /** The messages `getTransactions` uses. */
  const HistoryMessages := OwnerMessages(
    "Account not found for this user.",
    "User not found. Please log in again.",
    "You are not allowed to view transactions for this account.")

  /** The messages `getLastNTransactions` and `getTransactionsForStatement` use. */
  const StatementMessages := OwnerMessages("Account not found", "User not found", "Access denied")

  /** `PageRequest.of` rejects a negative page index, then a page size below one. */
  const PageIndexError := "Page index must not be less than zero"
  const PageSizeError := "Page size must not be less than one"

  /** The caller is a user and owns the account. */
  predicate Owns(s: Snapshot, accountId: AccountId, email: string) {
    && accountId in s.accounts
    && FindUserByEmail(s.users, email).Some?
    && FindUserByEmail(s.users, email).value.id == s.accounts[accountId].userId
  }

  /** The check each read starts with: the account exists, then the caller is a user, then
      the caller owns the account; every failure is a plain runtime error. */
  function CheckOwner(s: Snapshot, accountId: AccountId, email: string, m: OwnerMessages): (r: Result<Account, Error>)
    ensures r.Success? <==> Owns(s, accountId, email)
    ensures r.Success? ==> r.value == s.accounts[accountId]
    ensures accountId !in s.accounts ==> r == Failure(Internal(m.noAccount))
    ensures r.Failure? ==> r.error in {Internal(m.noAccount), Internal(m.noUser), Internal(m.notOwner)}
  {
    if accountId !in s.accounts then Failure(Internal(m.noAccount))
    else match FindUserByEmail(s.users, email)
      case None => Failure(Internal(m.noUser))
      case Some(user) =>
        if s.accounts[accountId].userId != user.id then Failure(Internal(m.notOwner))
        else Success(s.accounts[accountId])
  }

  /** The rows of `s` ordered by timestamp, newest first (`OrderByTimestampDesc`, or a
      `Sort.Direction.DESC` page request). */
  function Newest(s: seq<Txn>): (r: seq<Txn>)
    ensures NewestFirst(r)
    ensures multiset(r) == multiset(s) && |r| == |s|
    ensures forall t :: t in r <==> t in s
  {
    SortIsNewestFirst(s);
    var r := SortNewestFirst(s);
    assert forall t :: t in r <==> t in multiset(r);
    r
  }

  /** `findByAccountId` in newest-first order. */
  function AccountEntries(ledger: seq<Txn>, accountId: AccountId): (r: seq<Txn>)
    ensures NewestFirst(r)
    ensures |r| == |Filter(ledger, OfAccount(accountId))|
    ensures forall t :: t in r <==> t in ledger && t.accountId == accountId
  {
    Newest(Filter(ledger, OfAccount(accountId)))
  }

  /** Page `number` of `size` rows of `s`: the rows from `number * size` on, at most `size`
      of them, and none past the end. */
  function PageSlice(s: seq<Txn>, number: nat, size: nat): (r: seq<Txn>)
    requires size >= 1
    ensures |r| == if number * size >= |s| then 0 else Min(size, |s| - number * size)
    ensures forall k :: 0 <= k < |r| ==> number * size + k < |s| && r[k] == s[number * size + k]
    ensures forall t {:trigger t in r} | t in r :: t in s
  {
    if number * size >= |s| then []
    else
      var start := number * size;
      var r := s[start .. Min(start + size, |s|)];
      assert forall t | t in r :: t in s by {
        forall t | t in r ensures t in s {
          var k :| 0 <= k < |r| && r[k] == t;
          assert s[start + k] == t;
        }
      }
      r
  }

  /** Every row sits on page `i / size`, at position `i % size`. */
  lemma EntryOnItsPage(s: seq<Txn>, size: nat, i: nat)
    requires size >= 1 && i < |s|
    ensures i % size < |PageSlice(s, i / size, size)|
    ensures PageSlice(s, i / size, size)[i % size] == s[i]
  {
    var n := i / size;
    assert n * size + i % size == i;
    assert n * size <= i;
  }

  /** A slice of a newest-first sequence is newest-first. */
  lemma SliceKeepsOrder(s: seq<Txn>, number: nat, size: nat)
    requires size >= 1 && NewestFirst(s)
    ensures NewestFirst(PageSlice(s, number, size))
  {
    var r := PageSlice(s, number, size);
    forall i, j | 0 <= i < j < |r| ensures NotOlder(r[i], r[j]) {
      assert r[i] == s[number * size + i] && r[j] == s[number * size + j];
    }
  }

  /** A result page: its rows, its index, its size, and the number of rows over all pages. */
  datatype Page = Page(content: seq<Txn>, number: nat, size: nat, totalElements: nat)

  /** `getTransactions`: page `page` of `size` rows of the account's history, newest first. */
  function GetTransactions(s: Snapshot, accountId: AccountId, email: string, page: int, size: int): (r: Result<Page, Error>)
    ensures r.Success? <==> Owns(s, accountId, email) && page >= 0 && size >= 1
    ensures Owns(s, accountId, email) && page < 0 ==> r == Failure(Internal(PageIndexError))
    ensures Owns(s, accountId, email) && page >= 0 && size < 1 ==> r == Failure(Internal(PageSizeError))
    ensures r.Success? ==>
      && r.value.content == PageSlice(AccountEntries(s.ledger, accountId), page, size)
      && r.value.number == page && r.value.size == size
      && NewestFirst(r.value.content)
      && |r.value.content| <= size
      && r.value.totalElements == |Filter(s.ledger, OfAccount(accountId))|
      && forall t | t in r.value.content :: t in s.ledger && t.accountId == accountId
  {
    match CheckOwner(s, accountId, email, HistoryMessages)
    case Failure(e) => Failure(e)
    case Success(_) =>
      if page < 0 then Failure(Internal(PageIndexError))
      else if size < 1 then Failure(Internal(PageSizeError))
      else
        var all := AccountEntries(s.ledger, accountId);
        var content := PageSlice(all, page, size);
        SliceKeepsOrder(all, page, size);
        Success(Page(content, page, size, |all|))
  }

  /** `getLastNTransactions`: the first page of `limit` rows of the account's history. */
  function GetLastN(s: Snapshot, accountId: AccountId, email: string, limit: int): (r: Result<seq<Txn>, Error>)
    ensures r.Success? <==> Owns(s, accountId, email) && limit >= 1
    ensures Owns(s, accountId, email) && limit < 1 ==> r == Failure(Internal(PageSizeError))
    ensures r.Success? ==>
      && r.value == PageSlice(AccountEntries(s.ledger, accountId), 0, limit)
      && NewestFirst(r.value)
      && |r.value| == Min(limit, |Filter(s.ledger, OfAccount(accountId))|)
      && forall t | t in r.value :: t in s.ledger && t.accountId == accountId
  {
    match CheckOwner(s, accountId, email, StatementMessages)
    case Failure(e) => Failure(e)
    case Success(_) =>
      if limit < 1 then Failure(Internal(PageSizeError))
      else
        var all := AccountEntries(s.ledger, accountId);
        SliceKeepsOrder(all, 0, limit);
        var rows := PageSlice(all, 0, limit);
        Success(rows)
  }

  /** The mini statement holds the newest rows: none of the account's rows it leaves out is
      newer than a row it shows. */
  lemma {:induction false} LastNAreNewest(s: Snapshot, accountId: AccountId, email: string, limit: int, shown: Txn, left: Txn)
    requires GetLastN(s, accountId, email, limit).Success?
    requires shown in GetLastN(s, accountId, email, limit).value
    requires left in s.ledger && left.accountId == accountId
    requires left !in GetLastN(s, accountId, email, limit).value
    ensures NotOlder(shown, left)
  {
    var all := AccountEntries(s.ledger, accountId);
    var rows := GetLastN(s, accountId, email, limit).value;
    assert rows == PageSlice(all, 0, limit);
    var i :| 0 <= i < |rows| && rows[i] == shown;
    var j :| 0 <= j < |all| && all[j] == left;
    assert all[i] == shown;
    assert j >= |rows|;
  }

  /** The mini statement of `limit` rows is the first history page of that size. */
  lemma LastNIsFirstPage(s: Snapshot, accountId: AccountId, email: string, limit: int)
    requires GetLastN(s, accountId, email, limit).Success?
    ensures GetTransactions(s, accountId, email, 0, limit).Success?
    ensures GetTransactions(s, accountId, email, 0, limit).value.content == GetLastN(s, accountId, email, limit).value
  {
  }

  // ---------------------------------------------------------------------------------------
  // Statement window

  /** The optional `from` and `to` days of a statement (days since 1970-01-01). */
  datatype Window = Window(from: Option<int>, to: Option<int>)

  /** The rows a statement is meant to keep: every row when no day is given; otherwise the
      rows with a timestamp from the start of `from` through the last instant of `to`, each
      bound inclusive. With whole-second timestamps, `Before(toDay.atTime(LocalTime.MAX))`
      keeps exactly the rows up to the last second of `to`. */
  predicate InWindow(w: Window, t: Txn)
    ensures InWindow(w, t) <==>
      || w == Window(None, None)
      || (&& t.timestamp.Some?
          && (w.from.Some? ==> StartOfDay(w.from.value) <= t.timestamp.value)
          && (w.to.Some? ==> t.timestamp.value <= EndOfDay(w.to.value)))
  {
    match (w.from, w.to)
    case (None, None) => true
    case (Some(f), Some(e)) => t.timestamp.Some? && StartOfDay(f) <= t.timestamp.value <= EndOfDay(e)
    case (Some(f), None) => t.timestamp.Some? && StartOfDay(f) <= t.timestamp.value
    case (None, Some(e)) => t.timestamp.Some? && t.timestamp.value <= EndOfDay(e)
  }

  /** The window as the repository queries are written: `Between` and `Before` as above, but
      `After(fromDay 00:00)` is strict, so a row stamped exactly at the start of `from` is
      dropped when only `from` is given. That row is the only difference. */
  predicate InWindowAsWritten(w: Window, t: Txn)
    ensures InWindowAsWritten(w, t) ==> InWindow(w, t)
    ensures InWindow(w, t) && !InWindowAsWritten(w, t) <==>
      w.from.Some? && w.to.None? && t.timestamp == Some(StartOfDay(w.from.value))
  {
    match (w.from, w.to)
    case (Some(f), None) => t.timestamp.Some? && StartOfDay(f) < t.timestamp.value
    case _ => InWindow(w, t)
  }

  function Selects(w: Window): Txn -> bool {
    (t: Txn) => InWindow(w, t)
  }

  function SelectsAsWritten(w: Window): Txn -> bool {
    (t: Txn) => InWindowAsWritten(w, t)
  }

  /** The statement's ownership check, then the account's rows that `keep` selects, newest
      first. */
  function StatementRows(s: Snapshot, accountId: AccountId, email: string, keep: Txn -> bool): (r: Result<seq<Txn>, Error>)
    ensures r.Success? <==> Owns(s, accountId, email)
    ensures r.Failure? ==> r == Failure(CheckOwner(s, accountId, email, StatementMessages).error)
    ensures r.Success? ==> NewestFirst(r.value)
    ensures r.Success? ==> multiset(r.value) == multiset(Filter(Filter(s.ledger, OfAccount(accountId)), keep))
    ensures r.Success? ==> forall t :: t in r.value <==> t in s.ledger && t.accountId == accountId && keep(t)
  {
    match CheckOwner(s, accountId, email, StatementMessages)
    case Failure(e) => Failure(e)
    case Success(_) => Success(Newest(Filter(Filter(s.ledger, OfAccount(accountId)), keep)))
  }

  /** `getTransactionsForStatement`: the owner's rows of the account inside the window as the
      queries are written, newest first. */
  function StatementEntries(s: Snapshot, accountId: AccountId, email: string, w: Window): (r: Result<seq<Txn>, Error>)
    ensures r.Success? <==> Owns(s, accountId, email)
    ensures r.Failure? ==> r == Failure(CheckOwner(s, accountId, email, StatementMessages).error)
    ensures r.Success? ==> NewestFirst(r.value)
    ensures r.Success? ==> multiset(r.value) == multiset(Filter(Filter(s.ledger, OfAccount(accountId)), SelectsAsWritten(w)))
    ensures r.Success? ==> forall t :: t in r.value <==> t in s.ledger && t.accountId == accountId && InWindowAsWritten(w, t)
  {
    StatementRows(s, accountId, email, SelectsAsWritten(w))
  }

  /** The statement with the `from` bound inclusive, as the two-day query and the opening
      balance treat it. */
  function CorrectedStatementEntries(s: Snapshot, accountId: AccountId, email: string, w: Window): (r: Result<seq<Txn>, Error>)
    ensures r.Success? <==> Owns(s, accountId, email)
    ensures r.Failure? ==> r == Failure(CheckOwner(s, accountId, email, StatementMessages).error)
    ensures r.Success? ==> NewestFirst(r.value)
    ensures r.Success? ==> multiset(r.value) == multiset(Filter(Filter(s.ledger, OfAccount(accountId)), Selects(w)))
    ensures r.Success? ==> forall t :: t in r.value <==> t in s.ledger && t.accountId == accountId && InWindow(w, t)
  {
    StatementRows(s, accountId, email, Selects(w))
  }

  /** The corrected statement differs from the statement as written only for a window with
      a `from` day and no `to` day. */
  lemma CorrectedOnlyForFromOnly(s: Snapshot, accountId: AccountId, email: string, w: Window)
    requires w.from.None? || w.to.Some?
    ensures CorrectedStatementEntries(s, accountId, email, w) == StatementEntries(s, accountId, email, w)
  {
    FilterAgrees(Filter(s.ledger, OfAccount(accountId)), Selects(w), SelectsAsWritten(w));
  }

  /** With no bounds the statement is the whole history of the account. */
  lemma UnboundedStatementIsHistory(s: Snapshot, accountId: AccountId, email: string)
    requires Owns(s, accountId, email)
    ensures StatementEntries(s, accountId, email, Window(None, None)).Success?
    ensures multiset(StatementEntries(s, accountId, email, Window(None, None)).value)
         == multiset(AccountEntries(s.ledger, accountId))
  {
    var own := Filter(s.ledger, OfAccount(accountId));
    FilterAll(own, SelectsAsWritten(Window(None, None)));
  }

  lemma {:induction false} FilterAll(s: seq<Txn>, p: Txn -> bool)
    requires forall t :: p(t)
    ensures Filter(s, p) == s
  {
    if s != [] {
      FilterAll(s[1..], p);
      assert [s[0]] + s[1..] == s;
    }
  }

  /** With the inclusive bounds, the rows of a window with both days given are the rows of
      the `from`-only window that also fall on or before the last instant of `to`. */
  lemma {:induction false} BoundedIsNarrowed(ledger: seq<Txn>, from: int, to: int)
    ensures Filter(Filter(ledger, Selects(Window(Some(from), None))), Selects(Window(None, Some(to))))
         == Filter(ledger, Selects(Window(Some(from), Some(to))))
  {
    FilterTwice(ledger, Selects(Window(Some(from), None)), Selects(Window(None, Some(to))), Selects(Window(Some(from), Some(to))));
  }

  /** As written, the `from`-only window drops a row stamped exactly at midnight of `from`,
      while the window from that day to any later day keeps it; so the two-day window is not
      the `from` window narrowed. */
  lemma MidnightRowDropped(day: int, to: int, t: Txn)
    requires t.timestamp == Some(StartOfDay(day)) && day <= to
    ensures InWindow(Window(Some(day), None), t)
    ensures !InWindowAsWritten(Window(Some(day), None), t)
    ensures InWindowAsWritten(Window(Some(day), Some(to)), t)
  {
    assert StartOfDay(day) <= StartOfDay(to) < EndOfDay(to);
  }

  // ---------------------------------------------------------------------------------------
  // Analytics

  /** `AccountAnalyticsResponse`. */
  datatype Analytics = Analytics(
    accountId: AccountId,
    totalCredits: int,
    totalDebits: int,
    netChange: int,
    creditCount: nat,
    debitCount: nat)

  /** The four running values of the `getAnalytics` loop. */
  datatype Totals = Totals(credits: int, debits: int, creditCount: nat, debitCount: nat)

  /** One pass of the loop body: a CREDIT row adds its amount (zero when null) to the
      credits and one to their count, a DEBIT row likewise for debits, any other row nothing. */
  function AddRow(acc: Totals, t: Txn): Totals {
    if IsCredit(t) then acc.(credits := acc.credits + AmountOrZero(t), creditCount := acc.creditCount + 1)
    else if IsDebit(t) then acc.(debits := acc.debits + AmountOrZero(t), debitCount := acc.debitCount + 1)
    else acc
  }

  /** The running values after the loop has visited the rows of `s` in order. */
  function Running(s: seq<Txn>): Totals {
    if s == [] then Totals(0, 0, 0, 0) else AddRow(Running(s[..|s| - 1]), s[|s| - 1])
  }

  /** The loop computes the per-type sums and counts: the credits are the amounts of the
      CREDIT rows, the debits those of the DEBIT rows, and each count is the number of rows
      of its type, whatever their amounts. */
  lemma {:induction false} RunningIsTotals(s: seq<Txn>)
    ensures Running(s) == Totals(TotalOf(s, Credits()), TotalOf(s, Debits()), |Filter(s, Credits())|, |Filter(s, Debits())|)
  {
    if s != [] {
      var init, x := s[..|s| - 1], s[|s| - 1];
      assert s == init + [x];
      RunningIsTotals(init);
      CreditIsNotDebit(x);
      TypeSnoc(init, x, Credits());
      TypeSnoc(init, x, Debits());
    }
  }

  /** How the total and the count of the rows `p` selects grow by one row. */
  lemma TypeSnoc(init: seq<Txn>, x: Txn, p: Txn -> bool)
    ensures TotalOf(init + [x], p) == TotalOf(init, p) + (if p(x) then AmountOrZero(x) else 0)
    ensures |Filter(init + [x], p)| == |Filter(init, p)| + (if p(x) then 1 else 0)
  {
    FilterConcat(init, [x], p);
    assert [x][1..] == [];
    SumOfConcat(Filter(init, p), Filter([x], p), AmountOrZero);
  }

  /** The loop of `getAnalytics` over the statement rows. */
  method Tally(accountId: AccountId, txs: seq<Txn>) returns (a: Analytics)
    ensures a.accountId == accountId
    ensures a.totalCredits == TotalOf(txs, Credits()) && a.creditCount == |Filter(txs, Credits())|
    ensures a.totalDebits == TotalOf(txs, Debits()) && a.debitCount == |Filter(txs, Debits())|
    ensures a.netChange == a.totalCredits - a.totalDebits
  {
    var totalCredits, totalDebits := 0, 0;
    var creditCount: nat, debitCount: nat := 0, 0;
    for i := 0 to |txs|
      invariant Totals(totalCredits, totalDebits, creditCount, debitCount) == Running(txs[..i])
    {
      var t := txs[i];
      var amt := AmountOrZero(t);
      assert txs[..i + 1][..i] == txs[..i];
      if IsCredit(t) {
        totalCredits := totalCredits + amt;
        creditCount := creditCount + 1;
      } else if IsDebit(t) {
        totalDebits := totalDebits + amt;
        debitCount := debitCount + 1;
      }
    }
    assert txs[..|txs|] == txs;
    RunningIsTotals(txs);
    a := Analytics(accountId, totalCredits, totalDebits, totalCredits - totalDebits, creditCount, debitCount);
  }

  /** `getAnalytics`: the tally of the statement rows, after the statement's own checks. */
  method GetAnalytics(s: Snapshot, accountId: AccountId, email: string, w: Window) returns (r: Result<Analytics, Error>)
    ensures r.Success? <==> Owns(s, accountId, email)
    ensures r.Failure? ==> r.error == StatementEntries(s, accountId, email, w).error
    ensures r.Success? ==>
      var rows := StatementEntries(s, accountId, email, w).value;
      && r.value.accountId == accountId
      && r.value.totalCredits == TotalOf(rows, Credits()) && r.value.creditCount == |Filter(rows, Credits())|
      && r.value.totalDebits == TotalOf(rows, Debits()) && r.value.debitCount == |Filter(rows, Debits())|
      && r.value.netChange == r.value.totalCredits - r.value.totalDebits
  {
    var rows := StatementEntries(s, accountId, email, w);
    if rows.Failure? {
      return Failure(rows.error);
    }
    var a := Tally(accountId, rows.value);
    r := Success(a);
  }

  /** The two counts together are the number of rows that are CREDIT or DEBIT. */
  lemma {:induction false} CountsCoverTypedRows(txs: seq<Txn>)
    ensures |Filter(txs, Credits())| + |Filter(txs, Debits())| == |Filter(txs, Typed())|
  {
    if txs != [] {
      CountsCoverTypedRows(txs[1..]);
      CreditIsNotDebit(txs[0]);
    }
  }

  function Typed(): Txn -> bool {
    (t: Txn) => IsCredit(t) || IsDebit(t)
  }
}
