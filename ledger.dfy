/** Folds over a sequence of ledger entries: selection by a predicate, sums of a per-entry
    measure, the signed and per-type measures the services sum, and the newest-first order
    the repository's `OrderByTimestampDesc` queries return. */
module Ledger {
  import opened Wrappers
  import opened Entities

  /** The entries of `s` that satisfy `p`, in their order in `s`. */
  function Filter(s: seq<Txn>, p: Txn -> bool): (r: seq<Txn>)
    ensures |r| <= |s|
    ensures forall t {:trigger t in r} :: t in r <==> t in s && p(t)
    ensures forall i {:trigger r[i]} :: 0 <= i < |r| ==> p(r[i])
  {
    if s == [] then []
    else (if p(s[0]) then [s[0]] else []) + Filter(s[1..], p)
  }

  /** The sum of `f` over the entries of `s` (a `mapToDouble(..).sum()`). */
  function SumOf(s: seq<Txn>, f: Txn -> int): int {
    if s == [] then 0 else f(s[0]) + SumOf(s[1..], f)
  }

  /** Credits count positive and every other type negative, as the opening-balance
      reconstruction counts them. */
  function Signed(t: Txn): int {
    if IsCredit(t) then AmountOrZero(t) else -AmountOrZero(t)
  }

  /** The rows `"CREDIT".equalsIgnoreCase(type)` selects. */
  function Credits(): Txn -> bool {
    (t: Txn) => IsCredit(t)
  }

  /** The rows `"DEBIT".equalsIgnoreCase(type)` selects. */
  function Debits(): Txn -> bool {
    (t: Txn) => IsDebit(t)
  }

  /** `filter(p).mapToDouble(amount == null ? 0.0 : amount).sum()`: the amounts of the rows
      `p` selects, a null amount counting as zero. */
  function TotalOf(s: seq<Txn>, p: Txn -> bool): int {
    SumOf(Filter(s, p), AmountOrZero)
  }

  function OfAccount(id: AccountId): Txn -> bool {
    (t: Txn) => t.accountId == id
  }

  function Not(p: Txn -> bool): Txn -> bool {
    (t: Txn) => !p(t)
  }

  /** The signed sum of the entries the ledger holds for account `id`, accumulated in append
      order. */
  function Net(ledger: seq<Txn>, id: AccountId): int {
    if ledger == [] then 0
    else
      var last := ledger[|ledger| - 1];
      Net(ledger[..|ledger| - 1], id) + (if last.accountId == id then Signed(last) else 0)
  }

  lemma {:induction false} FilterConcat(a: seq<Txn>, b: seq<Txn>, p: Txn -> bool)
    ensures Filter(a + b, p) == Filter(a, p) + Filter(b, p)
  {
    if a == [] {
      assert a + b == b;
    } else {
      assert (a + b)[1..] == a[1..] + b;
      FilterConcat(a[1..], b, p);
    }
  }

  lemma {:induction false} SumOfConcat(a: seq<Txn>, b: seq<Txn>, f: Txn -> int)
    ensures SumOf(a + b, f) == SumOf(a, f) + SumOf(b, f)
  {
    if a == [] {
      assert a + b == b;
    } else {
      assert (a + b)[1..] == a[1..] + b;
      SumOfConcat(a[1..], b, f);
    }
  }

  /** Adding one entry at the end adds its measure (the step of a running total). */
  lemma SumOfSnoc(s: seq<Txn>, x: Txn, f: Txn -> int)
    ensures SumOf(s + [x], f) == SumOf(s, f) + f(x)
  {
    SumOfConcat(s, [x], f);
    assert [x][1..] == [];
  }

  /** Selecting by `p` and then by `q` is selecting by `r` when `r` holds exactly where both do. */
  lemma {:induction false} FilterTwice(s: seq<Txn>, p: Txn -> bool, q: Txn -> bool, r: Txn -> bool)
    requires forall t :: r(t) <==> p(t) && q(t)
    ensures Filter(Filter(s, p), q) == Filter(s, r)
  {
    if s != [] {
      FilterTwice(s[1..], p, q, r);
      var tail := Filter(s[1..], p);
      if p(s[0]) {
        assert Filter(s, p) == [s[0]] + tail;
        assert ([s[0]] + tail)[1..] == tail;
      } else {
        assert Filter(s, p) == tail;
      }
    }
  }

  /** Two predicates that agree on every entry select the same entries. */
  lemma {:induction false} FilterAgrees(s: seq<Txn>, p: Txn -> bool, q: Txn -> bool)
    requires forall t :: p(t) == q(t)
    ensures Filter(s, p) == Filter(s, q)
  {
    if s != [] {
      FilterAgrees(s[1..], p, q);
    }
  }

  /** Summing over the entries that satisfy `p` and over those that do not covers every entry once. */
  lemma {:induction false} SumOfPartition(s: seq<Txn>, f: Txn -> int, p: Txn -> bool)
    ensures SumOf(s, f) == SumOf(Filter(s, p), f) + SumOf(Filter(s, Not(p)), f)
  {
    if s != [] {
      SumOfPartition(s[1..], f, p);
      var x := s[0];
      var hd, hn := if p(x) then [x] else [], if !p(x) then [x] else [];
      assert Filter(s, p) == hd + Filter(s[1..], p);
      assert Filter(s, Not(p)) == hn + Filter(s[1..], Not(p));
      SumOfConcat(hd, Filter(s[1..], p), f);
      SumOfConcat(hn, Filter(s[1..], Not(p)), f);
    }
  }

  /** Appending one entry moves the net of its own account by its signed amount and leaves
      every other account's net alone. */
  lemma NetAppend(ledger: seq<Txn>, e: Txn, id: AccountId)
    ensures Net(ledger + [e], id) == Net(ledger, id) + (if e.accountId == id then Signed(e) else 0)
  {
    assert (ledger + [e])[..|ledger|] == ledger;
  }

  /** The net is the signed sum of the account's own entries, as the services select them. */
  lemma {:induction false} NetIsOwnSignedSum(ledger: seq<Txn>, id: AccountId)
    ensures Net(ledger, id) == SumOf(Filter(ledger, OfAccount(id)), Signed)
    decreases |ledger|
  {
    if ledger != [] {
      var n := |ledger| - 1;
      var init, last := ledger[..n], ledger[n];
      assert ledger == init + [last];
      NetIsOwnSignedSum(init, id);
      FilterConcat(init, [last], OfAccount(id));
      SumOfConcat(Filter(init, OfAccount(id)), Filter([last], OfAccount(id)), Signed);
      assert Filter([last], OfAccount(id)) == if last.accountId == id then [last] else [];
    }
  }

  lemma NetOfOne(e: Txn, id: AccountId)
    ensures Net([e], id) == if e.accountId == id then Signed(e) else 0
  {
    assert [e][..0] == [];
  }

  /** The net of a ledger grown by `more` is the old net plus the net of `more`. */
  lemma {:induction false} NetConcat(ledger: seq<Txn>, more: seq<Txn>, id: AccountId)
    ensures Net(ledger + more, id) == Net(ledger, id) + Net(more, id)
    decreases |more|
  {
    if more == [] {
      assert ledger + more == ledger;
    } else {
      var n := |more| - 1;
      assert (ledger + more)[..|ledger + more| - 1] == ledger + more[..n];
      assert (ledger + more)[|ledger + more| - 1] == more[n];
      NetConcat(ledger, more[..n], id);
    }
  }

  /** An account that no entry mentions has net zero. */
  lemma {:induction false} NetOfUnmentioned(ledger: seq<Txn>, id: AccountId)
    requires forall t | t in ledger :: t.accountId != id
    ensures Filter(ledger, OfAccount(id)) == []
    ensures Net(ledger, id) == 0
  {
    if ledger != [] {
      assert ledger[0] in ledger;
      NetOfUnmentioned(ledger[1..], id);
    }
    NetIsOwnSignedSum(ledger, id);
  }

  /** No type is both CREDIT and DEBIT, whatever its case. */
  lemma CreditIsNotDebit(t: Txn)
    ensures !(IsCredit(t) && IsDebit(t))
  {
  }

  /** On rows that are all CREDIT or DEBIT, credits less debits is the signed sum the
      opening-balance reconstruction uses. */
  lemma {:induction false} TypedNetIsSigned(s: seq<Txn>)
    requires forall t | t in s :: IsCredit(t) || IsDebit(t)
    ensures TotalOf(s, Credits()) - TotalOf(s, Debits()) == SumOf(s, Signed)
  {
    if s != [] {
      var x := s[0];
      TypedNetIsSigned(s[1..]);
      CreditIsNotDebit(x);
      var cs, ds := Filter(s[1..], Credits()), Filter(s[1..], Debits());
      if IsCredit(x) {
        assert Filter(s, Credits()) == [x] + cs;
        assert Filter(s, Debits()) == ds;
        SumOfConcat([x], cs, AmountOrZero);
      } else {
        assert Filter(s, Credits()) == cs;
        assert Filter(s, Debits()) == [x] + ds;
        SumOfConcat([x], ds, AmountOrZero);
      }
    }
  }

  // ---------------------------------------------------------------------------------------
  // Newest-first order

  /** `a` is not older than `b`; a null timestamp sorts after every real one. */
  predicate NotOlder(a: Txn, b: Txn) {
    match (a.timestamp, b.timestamp)
    case (Some(x), Some(y)) => x >= y
    case (Some(_), None) => true
    case (None, None) => true
    case (None, Some(_)) => false
  }

  predicate NewestFirst(s: seq<Txn>) {
    forall i, j :: 0 <= i < j < |s| ==> NotOlder(s[i], s[j])
  }

  function Insert(x: Txn, s: seq<Txn>): (r: seq<Txn>)
    ensures multiset(r) == multiset(s) + multiset{x}
    ensures |r| == |s| + 1
  {
    if s == [] || NotOlder(x, s[0]) then [x] + s
    else
      assert s == [s[0]] + s[1..];
      [s[0]] + Insert(x, s[1..])
  }

  /** The entries of `s` ordered by timestamp, newest first (insertion sort). */
  function SortNewestFirst(s: seq<Txn>): (r: seq<Txn>)
    ensures multiset(r) == multiset(s)
    ensures |r| == |s|
  {
    if s == [] then []
    else
      assert s == [s[0]] + s[1..];
      Insert(s[0], SortNewestFirst(s[1..]))
  }

  lemma {:induction false} InsertKeepsOrder(x: Txn, s: seq<Txn>)
    requires NewestFirst(s)
    ensures NewestFirst(Insert(x, s))
  {
    if s != [] && !NotOlder(x, s[0]) {
      InsertKeepsOrder(x, s[1..]);
      var r := Insert(x, s);
      var tail := Insert(x, s[1..]);
      assert r == [s[0]] + tail;
      forall k | 0 <= k < |tail| ensures NotOlder(s[0], tail[k]) {
        assert tail[k] in multiset(tail);
        assert tail[k] in multiset(s[1..]) + multiset{x};
        if tail[k] != x {
          assert tail[k] in multiset(s[1..]);
          var m :| 0 <= m < |s[1..]| && s[1..][m] == tail[k];
          assert s[1 + m] == tail[k];
        }
      }
    }
  }

  lemma {:induction false} SortIsNewestFirst(s: seq<Txn>)
    ensures NewestFirst(SortNewestFirst(s))
  {
    if s != [] {
      SortIsNewestFirst(s[1..]);
      InsertKeepsOrder(s[0], SortNewestFirst(s[1..]));
    }
  }

  lemma {:induction false} SumOfInsert(x: Txn, s: seq<Txn>, f: Txn -> int)
    ensures SumOf(Insert(x, s), f) == f(x) + SumOf(s, f)
  {
    if s != [] && !NotOlder(x, s[0]) {
      SumOfInsert(x, s[1..], f);
      assert Insert(x, s)[1..] == Insert(x, s[1..]);
    }
  }

  /** Sorting does not change any sum. */
  lemma {:induction false} SumOfSorted(s: seq<Txn>, f: Txn -> int)
    ensures SumOf(SortNewestFirst(s), f) == SumOf(s, f)
  {
    if s != [] {
      SumOfSorted(s[1..], f);
      SumOfInsert(s[0], SortNewestFirst(s[1..]), f);
    }
  }
}
