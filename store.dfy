/** The state the repositories persist: accounts by id, users, and the append-only ledger,
    with the identity counters the database uses to assign new ids. */
module Persistence {
  import opened Entities
  import opened Ledger

  ghost predicate AccountsKeyed(accounts: map<AccountId, Account>, nextAccountId: AccountId) {
    forall id | id in accounts :: id < nextAccountId && accounts[id].accountId == id
  }

  ghost predicate LedgerOrdered(ledger: seq<Txn>, nextAccountId: AccountId, nextTxnId: TxnId) {
    && (forall i | 0 <= i < |ledger| :: ledger[i].accountId < nextAccountId && ledger[i].transactionId < nextTxnId)
    && (forall i | 0 < i < |ledger| :: ledger[i - 1].transactionId < ledger[i].transactionId)
  }

  ghost predicate UsersUnique(users: seq<User>) {
    forall i, j | 0 <= i < j < |users| :: users[i].id != users[j].id && users[i].email != users[j].email
  }

  /** Appending entries numbered on from the counter, for known accounts, keeps the ledger
      ordered. */
  lemma AppendKeepsOrdered(ledger: seq<Txn>, entries: seq<Txn>, nextAccountId: AccountId, nextTxnId: TxnId)
    requires LedgerOrdered(ledger, nextAccountId, nextTxnId)
    requires forall i | 0 <= i < |entries| ::
      entries[i].transactionId == nextTxnId + i && entries[i].accountId < nextAccountId
    ensures LedgerOrdered(ledger + entries, nextAccountId, nextTxnId + |entries|)
    ensures forall t | t in ledger :: t.accountId < nextAccountId
  {
    var grown := ledger + entries;
    forall i | 0 < i < |grown| ensures grown[i - 1].transactionId < grown[i].transactionId {
      if i < |ledger| {
        assert grown[i - 1] == ledger[i - 1] && grown[i] == ledger[i];
      } else if i == |ledger| {
        assert grown[i - 1] == ledger[i - 1] && grown[i] == entries[0];
      } else {
        assert grown[i - 1] == entries[i - 1 - |ledger|] && grown[i] == entries[i - |ledger|];
      }
    }
  }

  /** Every balance equals the signed sum of its account's ledger entries. */
  ghost predicate ReconciledWith(accounts: map<AccountId, Account>, ledger: seq<Txn>) {
    forall id | id in accounts :: accounts[id].balance == Net(ledger, id)
  }

  /** Posting one entry to an account whose balance moves by that entry's signed amount keeps
      every balance reconciled. */
  lemma PostingKeepsReconciled(accounts: map<AccountId, Account>, ledger: seq<Txn>, updated: Account, entry: Txn)
    requires ReconciledWith(accounts, ledger)
    requires entry.accountId in accounts
    requires updated.balance == accounts[entry.accountId].balance + Signed(entry)
    ensures ReconciledWith(accounts[entry.accountId := updated], ledger + [entry])
  {
    forall k | k in accounts[entry.accountId := updated]
      ensures accounts[entry.accountId := updated][k].balance == Net(ledger + [entry], k)
    {
      NetAppend(ledger, entry, k);
    }
  }

  /** Posting entry `entry`, numbered by the counter, to a known account and saving that
      account as `updated` keeps the account map keyed and the ledger ordered. */
  lemma PostingKeepsShape(accounts: map<AccountId, Account>, ledger: seq<Txn>, nextAccountId: AccountId, nextTxnId: TxnId,
                          updated: Account, entry: Txn)
    requires AccountsKeyed(accounts, nextAccountId) && LedgerOrdered(ledger, nextAccountId, nextTxnId)
    requires entry.accountId in accounts && updated.accountId == entry.accountId
    requires entry.transactionId == nextTxnId
    ensures AccountsKeyed(accounts[entry.accountId := updated], nextAccountId)
    ensures LedgerOrdered(ledger + [entry], nextAccountId, nextTxnId + 1)
  {
    AppendKeepsOrdered(ledger, [entry], nextAccountId, nextTxnId);
  }

  /** Opening account `nextAccountId` with entries numbered on from the counter keeps the
      account map keyed and the ledger ordered under the advanced counters. */
  lemma OpeningKeepsShape(accounts: map<AccountId, Account>, ledger: seq<Txn>, nextAccountId: AccountId, nextTxnId: TxnId,
                          newAccount: Account, entries: seq<Txn>)
    requires AccountsKeyed(accounts, nextAccountId) && LedgerOrdered(ledger, nextAccountId, nextTxnId)
    requires newAccount.accountId == nextAccountId
    requires forall i | 0 <= i < |entries| ::
      entries[i].transactionId == nextTxnId + i && entries[i].accountId == nextAccountId
    ensures nextAccountId !in accounts
    ensures forall t | t in ledger :: t.accountId != nextAccountId
    ensures AccountsKeyed(accounts[nextAccountId := newAccount], nextAccountId + 1)
    ensures LedgerOrdered(ledger + entries, nextAccountId + 1, nextTxnId + |entries|)
  {
    AppendKeepsOrdered(ledger, entries, nextAccountId + 1, nextTxnId);
  }

  /** Opening an account that no entry mentions yet, together with entries of its own, keeps
      the balances reconciled exactly when its balance equals the net of those entries. */
  lemma OpeningKeepsReconciled(accounts: map<AccountId, Account>, ledger: seq<Txn>, newAccount: Account, entries: seq<Txn>)
    requires ReconciledWith(accounts, ledger)
    requires newAccount.accountId !in accounts
    requires forall t | t in ledger :: t.accountId != newAccount.accountId
    requires forall t | t in entries :: t.accountId == newAccount.accountId
    ensures ReconciledWith(accounts[newAccount.accountId := newAccount], ledger + entries) <==>
      newAccount.balance == Net(entries, newAccount.accountId)
  {
    var id := newAccount.accountId;
    var grown := accounts[id := newAccount];
    NetConcat(ledger, entries, id);
    NetOfUnmentioned(ledger, id);
    if newAccount.balance == Net(entries, id) {
      forall k | k in grown ensures grown[k].balance == Net(ledger + entries, k) {
        NetConcat(ledger, entries, k);
        if k != id {
          NetOfUnmentioned(entries, k);
        }
      }
    }
  }

  class Store {
    var accounts: map<AccountId, Account>
    var users: seq<User>
    var ledger: seq<Txn>
    var nextAccountId: AccountId
    var nextTxnId: TxnId

    /** Structural invariant: each account row under its own id below the id counter,
        ledger rows naming such ids with transaction ids increasing in append order and below
        their counter, user ids and e-mails unique. */
    ghost predicate Valid()
      reads this
    {
      && AccountsKeyed(accounts, nextAccountId)
      && LedgerOrdered(ledger, nextAccountId, nextTxnId)
      && UsersUnique(users)
    }

    /** Every balance equals the signed sum of its account's ledger entries. */
    ghost predicate Reconciled()
      reads this
    {
      ReconciledWith(accounts, ledger)
    }

    /** A consistent read of the three repositories. */
    function View(): Snapshot
      reads this
    {
      Snapshot(accounts, users, ledger)
    }

    /** An empty bank whose registered users are `users`. */
    constructor (users: seq<User>)
      requires forall i, j | 0 <= i < j < |users| :: users[i].id != users[j].id && users[i].email != users[j].email
      ensures Valid() && Reconciled()
      ensures accounts == map[] && this.users == users && ledger == []
    {
      accounts := map[];
      this.users := users;
      ledger := [];
      nextAccountId := 1;
      nextTxnId := 1;
    }
  }
}
