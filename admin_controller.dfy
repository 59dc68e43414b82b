/** The administrator's status switches: freezing and unfreezing an account and enabling or
    disabling a user. Each loads one row, overwrites one status field and saves it. */
module AdminController {
  import opened Wrappers
  import opened Entities
  import opened Ledger
  import opened Persistence
  import opened AccountService

  const AccountMissing := "Account not found"
  const UserMissing := "User not found"

  /** The accounts with account `id`'s status replaced by `status`. */
  function WithStatus(accounts: map<AccountId, Account>, id: AccountId, status: string): (r: map<AccountId, Account>)
    requires id in accounts
    ensures r.Keys == accounts.Keys
    ensures r[id].status == status
    ensures forall k | k in r :: r[k] == accounts[k].(status := r[k].status)
    ensures forall k | k in r && k != id :: r[k] == accounts[k]
  {
    accounts[id := accounts[id].(status := status)]
  }

  /** Setting a status a second time changes nothing. */
  lemma WithStatusIdempotent(accounts: map<AccountId, Account>, id: AccountId, status: string)
    requires id in accounts
    ensures WithStatus(WithStatus(accounts, id, status), id, status) == WithStatus(accounts, id, status)
  {
  }

  /** Freezing and then unfreezing restores an ACTIVE account exactly. */
  lemma UnfreezeUndoesFreeze(accounts: map<AccountId, Account>, id: AccountId)
    requires id in accounts && accounts[id].status == Active
    ensures WithStatus(WithStatus(accounts, id, Frozen), id, Active) == accounts
  {
    assert accounts[id].(status := Active) == accounts[id];
  }

  /** A status change moves no balance, so the balances stay reconciled with the ledger. */
  lemma {:induction false} StatusKeepsReconciled(accounts: map<AccountId, Account>, ledger: seq<Txn>, id: AccountId, status: string)
    requires id in accounts
    ensures ReconciledWith(WithStatus(accounts, id, status), ledger) <==> ReconciledWith(accounts, ledger)
  {
    var r := WithStatus(accounts, id, status);
    assert forall k | k in r :: r[k].balance == accounts[k].balance;
  }

  /** Overwrites the status of one account and saves it. */
  method SetAccountStatus(store: Store, id: AccountId, status: string, done: string)
    returns (r: Result<string, Error>)
    requires store.Valid()
    modifies store
    ensures store.Valid()
    ensures old(store.Reconciled()) ==> store.Reconciled()
    ensures id !in old(store.accounts) ==> r == Failure(NotFound(AccountMissing)) && unchanged(store)
    ensures id in old(store.accounts) ==>
      && r == Success(done)
      && store.accounts == WithStatus(old(store.accounts), id, status)
      && store.ledger == old(store.ledger)
      && store.users == old(store.users)
      && store.nextAccountId == old(store.nextAccountId)
      && store.nextTxnId == old(store.nextTxnId)
  {
    if id !in store.accounts {
      return Failure(NotFound(AccountMissing));
    }
    StatusKeepsReconciled(store.accounts, store.ledger, id, status);
    store.accounts := WithStatus(store.accounts, id, status);
    r := Success(done);
  }

  /** `freezeAccount`: the account's status becomes FROZEN; nothing else changes. */
  method FreezeAccount(store: Store, id: AccountId) returns (r: Result<string, Error>)
    requires store.Valid()
    modifies store
    ensures store.Valid()
    ensures old(store.Reconciled()) ==> store.Reconciled()
    ensures id !in old(store.accounts) ==> r == Failure(NotFound(AccountMissing)) && unchanged(store)
    ensures id in old(store.accounts) ==>
      && r == Success("Account frozen successfully")
      && store.accounts == WithStatus(old(store.accounts), id, Frozen)
      && store.ledger == old(store.ledger)
      && store.users == old(store.users)
      && store.nextAccountId == old(store.nextAccountId)
      && store.nextTxnId == old(store.nextTxnId)
  {
    r := SetAccountStatus(store, id, Frozen, "Account frozen successfully");
  }

  /** `unfreezeAccount`: the account's status becomes ACTIVE; nothing else changes. */
  method UnfreezeAccount(store: Store, id: AccountId) returns (r: Result<string, Error>)
    requires store.Valid()
    modifies store
    ensures store.Valid()
    ensures old(store.Reconciled()) ==> store.Reconciled()
    ensures id !in old(store.accounts) ==> r == Failure(NotFound(AccountMissing)) && unchanged(store)
    ensures id in old(store.accounts) ==>
      && r == Success("Account unfrozen successfully")
      && store.accounts == WithStatus(old(store.accounts), id, Active)
      && store.ledger == old(store.ledger)
      && store.users == old(store.users)
      && store.nextAccountId == old(store.nextAccountId)
      && store.nextTxnId == old(store.nextTxnId)
  {
    r := SetAccountStatus(store, id, Active, "Account unfrozen successfully");
  }

  /** A frozen account refuses deposits, withdrawals, and transfers from or to it, for every
      caller and positive amount: the status gate is what freezing changes. */
  lemma {:induction false} FrozenAccountRefusesMutation(s: Snapshot, id: AccountId, other: AccountId, amount: Option<int>, email: string)
    requires id in s.accounts && s.accounts[id].status == Frozen
    requires PositiveAmount(amount)
    ensures CheckDeposit(s, id, amount, email) == Failure(Forbidden("Account is not active"))
    ensures CheckWithdraw(s, id, amount, email) == Failure(Forbidden("Account is not active"))
    ensures GetBalance(s, id, email) == Failure(Forbidden("Account is not active"))
    ensures id != other && other in s.accounts ==>
      CheckTransfer(s, email, id, other, amount) == Failure(Forbidden("Sender account is not active"))
    ensures id != other && other in s.accounts && IsActive(s.accounts[other].status) ==>
      CheckTransfer(s, email, other, id, amount) == Failure(Forbidden("Receiver account is not active"))
  {
    FrozenIsInactive();
  }

  /** A thawed account passes the status gate again: deposits by its owner succeed. */
  lemma {:induction false} UnfrozenAccountAcceptsDeposit(s: Snapshot, id: AccountId, amount: Option<int>, email: string)
    requires id in s.accounts
    requires PositiveAmount(amount)
    requires FindUserByEmail(s.users, email).Some? && FindUserByEmail(s.users, email).value.id == s.accounts[id].userId
    ensures CheckDeposit(s.(accounts := WithStatus(s.accounts, id, Active)), id, amount, email).Success?
  {
    FrozenIsInactive();
  }

  // ---------------------------------------------------------------------------------------
  // Users

  /** The users with every row of id `id` enabled or disabled as `active` says. */
  function WithActive(users: seq<User>, id: UserId, active: bool): (r: seq<User>)
    ensures |r| == |users|
    ensures forall i | 0 <= i < |r| ::
      r[i] == if users[i].id == id then users[i].(active := active) else users[i]
  {
    if users == [] then []
    else [if users[0].id == id then users[0].(active := active) else users[0]] + WithActive(users[1..], id, active)
  }

  /** `updateUserStatus`: the user's enabled flag becomes `active`; a missing user is
      NotFound. */
  method UpdateUserStatus(store: Store, id: UserId, active: bool) returns (r: Result<string, Error>)
    requires store.Valid()
    modifies store
    ensures store.Valid()
    ensures old(store.Reconciled()) ==> store.Reconciled()
    ensures FindUserById(old(store.users), id).None? ==> r == Failure(NotFound(UserMissing)) && unchanged(store)
    ensures FindUserById(old(store.users), id).Some? ==>
      && r == Success(if active then "User activated successfully" else "User deactivated successfully")
      && store.users == WithActive(old(store.users), id, active)
      && store.accounts == old(store.accounts)
      && store.ledger == old(store.ledger)
      && store.nextAccountId == old(store.nextAccountId)
      && store.nextTxnId == old(store.nextTxnId)
  {
    if FindUserById(store.users, id).None? {
      return Failure(NotFound(UserMissing));
    }
    WithActiveKeepsUnique(store.users, id, active);
    store.users := WithActive(store.users, id, active);
    r := Success(if active then "User activated successfully" else "User deactivated successfully");
  }

  /** Enabling or disabling changes exactly one user's flag: the user found under `id` now
      has flag `active` and otherwise its old fields, every e-mail is where it was, and every
      other user is unchanged. */
  lemma {:induction false} WithActiveChangesOneUser(users: seq<User>, id: UserId, active: bool)
    requires UsersUnique(users)
    requires FindUserById(users, id).Some?
    ensures UsersUnique(WithActive(users, id, active))
    ensures FindUserById(WithActive(users, id, active), id) == Some(FindUserById(users, id).value.(active := active))
    ensures forall e :: FindUserByEmail(WithActive(users, id, active), e).Some? <==> FindUserByEmail(users, e).Some?
  {
    WithActiveKeepsUnique(users, id, active);
    FindAfterWithActive(users, id, active);
    forall e ensures FindUserByEmail(WithActive(users, id, active), e).Some? <==> FindUserByEmail(users, e).Some? {
      FindByEmailKeepsPresence(users, id, active, e);
    }
  }

  lemma WithActiveKeepsUnique(users: seq<User>, id: UserId, active: bool)
    requires UsersUnique(users)
    ensures UsersUnique(WithActive(users, id, active))
  {
    var r := WithActive(users, id, active);
    forall i, j | 0 <= i < j < |r| ensures r[i].id != r[j].id && r[i].email != r[j].email {
      assert r[i].id == users[i].id && r[i].email == users[i].email;
      assert r[j].id == users[j].id && r[j].email == users[j].email;
    }
  }

  lemma {:induction false} FindAfterWithActive(users: seq<User>, id: UserId, active: bool)
    requires FindUserById(users, id).Some?
    ensures FindUserById(WithActive(users, id, active), id) == Some(FindUserById(users, id).value.(active := active))
  {
    var r := WithActive(users, id, active);
    if users[0].id != id {
      assert r[1..] == WithActive(users[1..], id, active);
      FindAfterWithActive(users[1..], id, active);
    }
  }

  lemma {:induction false} FindByEmailKeepsPresence(users: seq<User>, id: UserId, active: bool, e: string)
    ensures FindUserByEmail(WithActive(users, id, active), e).Some? <==> FindUserByEmail(users, e).Some?
  {
    if users != [] {
      assert WithActive(users, id, active)[1..] == WithActive(users[1..], id, active);
      FindByEmailKeepsPresence(users[1..], id, active, e);
    }
  }
}
