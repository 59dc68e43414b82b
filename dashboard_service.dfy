/** The dashboard over all of one user's accounts: the overview totals, the trailing monthly
    summaries and the trailing daily series. The clock readings (`now`, the current
    year-month and today's day number) are parameters. */
module DashboardService {
  import opened Wrappers
  import opened Entities
  import opened Ledger
  import opened Calendar

  /** The ids `findByUserId` returns for user `userId`. */
  function OwnedIds(accounts: map<AccountId, Account>, userId: UserId): (ids: set<AccountId>)
    ensures ids <= accounts.Keys
    ensures forall id :: id in ids <==> id in accounts && accounts[id].userId == userId
  {
    set id | id in accounts && accounts[id].userId == userId
  }

  /** `m` is the smallest of `ids`. */
  predicate IsLeast(m: AccountId, ids: set<AccountId>) {
    m in ids && forall k | k in ids :: m <= k
  }

  lemma {:induction false} HasLeast(ids: set<AccountId>)
    requires ids != {}
    ensures exists m :: IsLeast(m, ids)
    decreases ids
  {
    var x :| x in ids;
    if ids == {x} {
      assert IsLeast(x, ids);
    } else {
      HasLeast(ids - {x});
      var m :| IsLeast(m, ids - {x});
      forall k | k in ids ensures k == x || k in ids - {x} {
      }
      if x < m {
        assert IsLeast(x, ids);
      } else {
        assert IsLeast(m, ids);
      }
    }
  }

  /** The smallest id of a non-empty set. */
  function Least(ids: set<AccountId>): (m: AccountId)
    requires ids != {}
    ensures IsLeast(m, ids)
  {
    HasLeast(ids);
    var m :| IsLeast(m, ids);
    m
  }

  /** The sum of the balances of the accounts `ids`, taken in ascending id order. */
  function SumBalances(accounts: map<AccountId, Account>, ids: set<AccountId>): (r: int)
    requires ids <= accounts.Keys
    ensures ids == {} ==> r == 0
    ensures (forall id | id in ids :: accounts[id].balance >= 0) ==> r >= 0
    ensures (forall id | id in ids :: accounts[id].balance <= 0) ==> r <= 0
    decreases ids
  {
    if ids == {} then 0
    else
      var m := Least(ids);
      accounts[m].balance + SumBalances(accounts, ids - {m})
  }

  /** The total does not depend on the order of the accounts: any one of them can be taken
      out first. */
  lemma {:induction false} SumBalancesWithout(accounts: map<AccountId, Account>, ids: set<AccountId>, x: AccountId)
    requires ids <= accounts.Keys && x in ids
    ensures SumBalances(accounts, ids) == accounts[x].balance + SumBalances(accounts, ids - {x})
    decreases ids
  {
    var m := Least(ids);
    if m != x {
      var rest := ids - {m};
      assert x in rest;
      SumBalancesWithout(accounts, rest, x);
      assert rest - {x} == ids - {x} - {m};
      assert IsLeast(m, ids - {x});
      assert Least(ids - {x}) == m;
    }
  }

  /** Moving money between two of the user's accounts leaves the total balance unchanged. */
  lemma TotalBalanceConserved(accounts: map<AccountId, Account>, ids: set<AccountId>, a: AccountId, b: AccountId, amount: int)
    requires ids <= accounts.Keys && a in ids && b in ids && a != b
    ensures SumBalances(accounts[a := accounts[a].(balance := accounts[a].balance - amount)]
                                [b := accounts[b].(balance := accounts[b].balance + amount)], ids)
         == SumBalances(accounts, ids)
  {
    var moved := accounts[a := accounts[a].(balance := accounts[a].balance - amount)]
                         [b := accounts[b].(balance := accounts[b].balance + amount)];
    SumBalancesWithout(accounts, ids, a);
    SumBalancesWithout(accounts, ids - {a}, b);
    SumBalancesWithout(moved, ids, a);
    SumBalancesWithout(moved, ids - {a}, b);
    SumBalancesSame(accounts, moved, ids - {a} - {b});
  }

  /** Two account maps that agree on the balances of `ids` give the same total. */
  lemma {:induction false} SumBalancesSame(x: map<AccountId, Account>, y: map<AccountId, Account>, ids: set<AccountId>)
    requires ids <= x.Keys && ids <= y.Keys
    requires forall id | id in ids :: x[id].balance == y[id].balance
    ensures SumBalances(x, ids) == SumBalances(y, ids)
    decreases ids
  {
    if ids != {} {
      SumBalancesSame(x, y, ids - {Least(ids)});
    }
  }

  function InAccounts(ids: set<AccountId>): Txn -> bool {
    (t: Txn) => t.accountId in ids
  }

  /** `TimestampBetween(lo, hi)`: both bounds inclusive; a row without a timestamp never
      matches. */
  function Between(lo: Timestamp, hi: Timestamp): Txn -> bool {
    (t: Txn) => t.timestamp.Some? && lo <= t.timestamp.value <= hi
  }

  /** `findByAccountIdInAndTimestampBetween(ids, lo, hi)`; no query at all for an empty id
      list. */
  function RowsBetween(ledger: seq<Txn>, ids: set<AccountId>, lo: Timestamp, hi: Timestamp): (r: seq<Txn>)
    ensures forall t {:trigger t in r} :: t in r <==>
      t in ledger && t.accountId in ids && t.timestamp.Some? && lo <= t.timestamp.value <= hi
  {
    if ids == {} then [] else Filter(Filter(ledger, InAccounts(ids)), Between(lo, hi))
  }

  /** `MonthlySummaryDto`. */
  datatype MonthlySummary = MonthlySummary(year: int, month: int, totalCredit: int, totalDebit: int)

  /** `DailyPointDto`; `date` is a day number. */
  datatype DailyPoint = DailyPoint(date: int, totalCredit: int, totalDebit: int)

  /** `DashboardOverviewDto`. */
  datatype Overview = Overview(
    totalBalance: int,
    totalTransactions: nat,
    totalCreditLastNDays: int,
    totalDebitLastNDays: int,
    lastMonths: seq<MonthlySummary>)

  /** The CREDIT and DEBIT totals of the user's rows in the month `ym`. */
  function MonthSummary(ledger: seq<Txn>, ids: set<AccountId>, ym: YearMonth): (r: MonthlySummary)
    requires ValidMonth(ym)
    ensures r.year == ym.year && r.month == ym.month
  {
    var rows := RowsBetween(ledger, ids, MonthStart(ym), MonthEnd(ym));
    MonthlySummary(ym.year, ym.month, TotalOf(rows, Credits()), TotalOf(rows, Debits()))
  }

  /** The CREDIT and DEBIT totals of the user's rows on day `day`. */
  function DayPoint(ledger: seq<Txn>, ids: set<AccountId>, day: int): (r: DailyPoint)
    ensures r.date == day
  {
    var rows := RowsBetween(ledger, ids, StartOfDay(day), EndOfDay(day));
    DailyPoint(day, TotalOf(rows, Credits()), TotalOf(rows, Debits()))
  }

  /** A user without accounts has nothing to total: every month summary and every daily
      point is zero, since no query is made for an empty id list. */
  lemma NoAccountsNoTotals(ledger: seq<Txn>, ym: YearMonth, day: int)
    requires ValidMonth(ym)
    ensures MonthSummary(ledger, {}, ym).totalCredit == 0 && MonthSummary(ledger, {}, ym).totalDebit == 0
    ensures DayPoint(ledger, {}, day).totalCredit == 0 && DayPoint(ledger, {}, day).totalDebit == 0
  {
  }

  /** The summaries of the `n` months up to and including `current`, newest first. */
  function Summaries(ledger: seq<Txn>, ids: set<AccountId>, current: YearMonth, n: nat): (r: seq<MonthlySummary>)
    ensures |r| == n
  {
    seq(n, i => MonthSummary(ledger, ids, MinusMonths(current, i)))
  }

  /** `buildMonthlySummaries`: entry `i` summarises the month `i` months before the current
      one, so the list runs newest first and holds one entry per requested month. */
  method BuildMonthlySummaries(ledger: seq<Txn>, ids: set<AccountId>, months: int, current: YearMonth)
    returns (out: seq<MonthlySummary>)
    ensures |out| == if months <= 0 then 0 else months
    ensures forall i | 0 <= i < |out| :: out[i] == MonthSummary(ledger, ids, MinusMonths(current, i))
  {
    out := [];
    var i := 0;
    while i < months
      invariant 0 <= i && (months <= 0 ==> i == 0) && (months > 0 ==> i <= months)
      invariant out == Summaries(ledger, ids, current, i)
    {
      SummariesSnoc(ledger, ids, current, i);
      out := out + [MonthSummary(ledger, ids, MinusMonths(current, i))];
      i := i + 1;
    }
  }

  lemma SummariesSnoc(ledger: seq<Txn>, ids: set<AccountId>, current: YearMonth, n: nat)
    ensures Summaries(ledger, ids, current, n + 1)
         == Summaries(ledger, ids, current, n) + [MonthSummary(ledger, ids, MinusMonths(current, n))]
  {
  }

  /** Entry `i` of the monthly summaries is labelled with a real month, `i` months before the
      current one. */
  lemma SummaryIsMonthsBack(ledger: seq<Txn>, ids: set<AccountId>, current: YearMonth, i: int)
    ensures var m := MonthSummary(ledger, ids, MinusMonths(current, i));
      && 1 <= m.month <= 12
      && MonthCount(YearMonth(m.year, m.month)) == MonthCount(current) - i
  {
    var ym := MinusMonths(current, i);
    assert YearMonth(MonthSummary(ledger, ids, ym).year, MonthSummary(ledger, ids, ym).month) == ym;
  }

  /** No row is counted in two monthly summaries: the windows of distinct entries are
      disjoint. */
  lemma MonthRowsDisjoint(ledger: seq<Txn>, ids: set<AccountId>, current: YearMonth, i: nat, j: nat, t: Txn)
    requires i < j
    requires t in RowsBetween(ledger, ids, MonthStart(MinusMonths(current, i)), MonthEnd(MinusMonths(current, i)))
    ensures t !in RowsBetween(ledger, ids, MonthStart(MinusMonths(current, j)), MonthEnd(MinusMonths(current, j)))
  {
    EarlierMonthEndsBefore(MinusMonths(current, j), MinusMonths(current, i));
  }

  /** `getOverview`, after the user lookup: the total balance of the user's accounts, the
      number of their rows stamped between 1970-01-01T00:00 and `now`, the CREDIT and DEBIT
      totals of the last `lastNDays` days, and the monthly summaries. */
  method GetOverview(s: Snapshot, email: string, lastNDays: int, lastNMonths: int, now: Timestamp, current: YearMonth)
    returns (r: Result<Overview, Error>)
    ensures FindUserByEmail(s.users, email).None? <==> r == Failure(Internal("User not found"))
    ensures r.Success? ==>
      var ids := OwnedIds(s.accounts, FindUserByEmail(s.users, email).value.id);
      var recent := RowsBetween(s.ledger, ids, now - lastNDays * SecondsPerDay, now);
      && r.value.totalBalance == SumBalances(s.accounts, ids)
      && r.value.totalTransactions == |RowsBetween(s.ledger, ids, 0, now)|
      && r.value.totalCreditLastNDays == TotalOf(recent, Credits())
      && r.value.totalDebitLastNDays == TotalOf(recent, Debits())
      && |r.value.lastMonths| == (if lastNMonths <= 0 then 0 else lastNMonths)
      && (forall i | 0 <= i < |r.value.lastMonths| ::
            r.value.lastMonths[i] == MonthSummary(s.ledger, ids, MinusMonths(current, i)))
      && (ids == {} ==> r.value.totalCreditLastNDays == 0 && r.value.totalDebitLastNDays == 0
                        && r.value.totalTransactions == 0 && r.value.totalBalance == 0)
  {
    var user := FindUserByEmail(s.users, email);
    if user.None? {
      return Failure(Internal("User not found"));
    }
    var ids := OwnedIds(s.accounts, user.value.id);
    var totalBalance := SumBalances(s.accounts, ids);
    var start := now - lastNDays * SecondsPerDay;
    var recent := RowsBetween(s.ledger, ids, start, now);
    var totalCredit := TotalOf(recent, Credits());
    var totalDebit := TotalOf(recent, Debits());
    var months := BuildMonthlySummaries(s.ledger, ids, lastNMonths, current);
    var count := if ids == {} then 0 else |RowsBetween(s.ledger, ids, 0, now)|;
    r := Success(Overview(totalBalance, count, totalCredit, totalDebit, months));
  }

  /** A row on an account the user does not own changes none of the user's windows. */
  lemma {:induction false} ForeignRowIgnored(ledger: seq<Txn>, ids: set<AccountId>, lo: Timestamp, hi: Timestamp, e: Txn)
    requires e.accountId !in ids
    ensures RowsBetween(ledger + [e], ids, lo, hi) == RowsBetween(ledger, ids, lo, hi)
  {
    if ids != {} {
      FilterConcat(ledger, [e], InAccounts(ids));
      assert [e][1..] == [];
      assert Filter([e], InAccounts(ids)) == [];
      assert Filter(ledger, InAccounts(ids)) + [] == Filter(ledger, InAccounts(ids));
    }
  }

  /** The points of the `n` days up to and including `today`, newest first. */
  function Series(ledger: seq<Txn>, ids: set<AccountId>, today: int, n: nat): (r: seq<DailyPoint>)
    ensures |r| == n
  {
    seq(n, i => DayPoint(ledger, ids, today - i))
  }

  /** `getDailySeries`, after the user lookup: point `i` totals the user's rows on the day
      `i` days before today, so the series runs newest first with one point per day. */
  method GetDailySeries(s: Snapshot, email: string, lastNDays: int, today: int)
    returns (r: Result<seq<DailyPoint>, Error>)
    ensures FindUserByEmail(s.users, email).None? <==> r == Failure(Internal("User not found"))
    ensures r.Success? ==>
      var ids := OwnedIds(s.accounts, FindUserByEmail(s.users, email).value.id);
      && |r.value| == (if lastNDays <= 0 then 0 else lastNDays)
      && forall i | 0 <= i < |r.value| :: r.value[i] == DayPoint(s.ledger, ids, today - i)
  {
    var user := FindUserByEmail(s.users, email);
    if user.None? {
      return Failure(Internal("User not found"));
    }
    var ids := OwnedIds(s.accounts, user.value.id);
    var series: seq<DailyPoint> := [];
    var i := 0;
    while i < lastNDays
      invariant 0 <= i && (lastNDays <= 0 ==> i == 0) && (lastNDays > 0 ==> i <= lastNDays)
      invariant series == Series(s.ledger, ids, today, i)
    {
      series := series + [DayPoint(s.ledger, ids, today - i)];
      i := i + 1;
    }
    r := Success(series);
  }

  /** The credits of all the points of a series. */
  function SeriesCredit(series: seq<DailyPoint>): int {
    if series == [] then 0 else series[0].totalCredit + SeriesCredit(series[1..])
  }

  /** The user's rows of a window split at `mid` into the rows before `mid` and those from
      `mid` on, for any per-type total. */
  lemma SplitWindow(ledger: seq<Txn>, ids: set<AccountId>, lo: Timestamp, mid: Timestamp, hi: Timestamp, p: Txn -> bool)
    requires lo <= mid <= hi + 1
    ensures TotalOf(RowsBetween(ledger, ids, lo, hi), p)
         == TotalOf(RowsBetween(ledger, ids, lo, mid - 1), p) + TotalOf(RowsBetween(ledger, ids, mid, hi), p)
  {
    if ids != {} {
      var own := Filter(ledger, InAccounts(ids));
      var rows := Filter(own, Between(lo, hi));
      TotalOfSplit(rows, p, Between(mid, hi));
      FilterTwice(own, Between(lo, hi), Between(mid, hi), Between(mid, hi));
      FilterTwice(own, Between(lo, hi), Not(Between(mid, hi)), Between(lo, mid - 1));
    }
  }

  /** Splitting rows by `q` splits the total of the rows `p` selects. */
  lemma {:induction false} TotalOfSplit(s: seq<Txn>, p: Txn -> bool, q: Txn -> bool)
    ensures TotalOf(s, p) == TotalOf(Filter(s, q), p) + TotalOf(Filter(s, Not(q)), p)
  {
    if s != [] {
      TotalOfSplit(s[1..], p, q);
      var x := s[0];
      var hp := if p(x) then [x] else [];
      var hq := if q(x) then [x] else [];
      var hn := if !q(x) then [x] else [];
      assert Filter(s, p) == hp + Filter(s[1..], p);
      assert Filter(s, q) == hq + Filter(s[1..], q);
      assert Filter(s, Not(q)) == hn + Filter(s[1..], Not(q));
      SumOfConcat(hp, Filter(s[1..], p), AmountOrZero);
      FilterConcat(hq, Filter(s[1..], q), p);
      FilterConcat(hn, Filter(s[1..], Not(q)), p);
      SumOfConcat(Filter(hq, p), Filter(Filter(s[1..], q), p), AmountOrZero);
      SumOfConcat(Filter(hn, p), Filter(Filter(s[1..], Not(q)), p), AmountOrZero);
    }
  }

  /** The daily credits of a series of `getDailySeries` add up to the credits of the whole
      span from the start of its oldest day, `first`, to the end of today: the days tile
      the span, with no row counted twice and none left out. */
  lemma {:induction false} SeriesCoversSpan(ledger: seq<Txn>, ids: set<AccountId>, today: int, series: seq<DailyPoint>, first: int)
    requires |series| >= 1 && first == today - |series| + 1
    requires forall i | 0 <= i < |series| :: series[i] == DayPoint(ledger, ids, today - i)
    ensures SeriesCredit(series) == TotalOf(RowsBetween(ledger, ids, StartOfDay(first), EndOfDay(today)), Credits())
  {
    var n := |series|;
    var newer, oldest := series[..n - 1], series[n - 1];
    assert series == newer + [oldest];
    assert oldest == DayPoint(ledger, ids, first);
    var lo, mid, hi := StartOfDay(first), StartOfDay(first + 1), EndOfDay(today);
    assert oldest.totalCredit == TotalOf(RowsBetween(ledger, ids, lo, mid - 1), Credits());
    SeriesCreditSnoc(newer, oldest);
    if n > 1 {
      SeriesCoversSpan(ledger, ids, today, newer, first + 1);
      SplitWindow(ledger, ids, lo, mid, hi, Credits());
    } else {
      assert mid - 1 == hi;
    }
  }

  lemma {:induction false} SeriesCreditSnoc(series: seq<DailyPoint>, p: DailyPoint)
    ensures SeriesCredit(series + [p]) == SeriesCredit(series) + p.totalCredit
  {
    if series != [] {
      assert (series + [p])[1..] == series[1..] + [p];
      SeriesCreditSnoc(series[1..], p);
    } else {
      assert [p][1..] == [];
    }
  }
}
