/** The transfer engine: opening accounts, balance reads, deposits, withdrawals and
    transfers over the store, and the opening-balance reconstruction of statements.
    Every mutating operation runs all of its checks against one snapshot of the store first
    (the `Check…` functions, in the order the service performs them) and mutates only when
    all of them pass, so a failed operation leaves the store exactly as it was. */
module AccountService {
  import opened Wrappers
  import opened Text
  import opened Entities
  import opened Ledger
  import opened Persistence
  import opened NotificationService

  const AmountRequired := "Amount must be greater than 0"

  /** `amount != null && amount > 0`. */
  predicate PositiveAmount(amount: Option<int>) {
    amount.Some? && amount.value > 0
  }

  /** The entries `createAccount` writes for a newly opened account: one "Initial deposit"
      credit exactly when the opening balance is positive. */
  function InitialEntries(txnId: TxnId, newAccount: Account, now: Timestamp): (r: seq<Txn>)
    ensures |r| == if newAccount.balance > 0 then 1 else 0
    ensures forall t | t in r :: t.accountId == newAccount.accountId && IsCredit(t) && t.amount == Some(newAccount.balance)
  {
    if newAccount.balance > 0
    then [Txn(txnId, newAccount.accountId, Credit, Some(newAccount.balance), Some(now), Some("Initial deposit"))]
    else []
  }

  /** An amount as the notification texts show it: the rupee sign, then two decimals. */
  function Rupees(amount: int): string {
    "\U{20B9}" + FormatCents(amount)
  }

  const Credited := " credited to account "
  const Deposited := " deposited to account "
  const Withdrawn := " withdrawn from account "
  const Transferred := " transferred to account "
  const Received := " received from account "

  /** The text `"₹%.2f <phrase> %d"` of the money notifications. */
  function AmountNotice(amount: int, phrase: string, accountId: AccountId): (r: string)
    ensures |r| > |phrase| && r[0] == '\U{20B9}'
  {
    Rupees(amount) + phrase + NatToString(accountId)
  }

  /** A money notification opens with the rupee sign and the amount, which reads back as
      exactly `amount`, then the phrase, and closes with the digits of the account number. */
  lemma AmountNoticeReadsBack(amount: int, phrase: string, accountId: AccountId)
    ensures var r, shown, digits := AmountNotice(amount, phrase, accountId), FormatCents(amount), NatToString(accountId);
      && |r| == 1 + |shown| + |phrase| + |digits|
      && CentsValue(r[1..1 + |shown|]) == amount
      && r[1 + |shown|..1 + |shown| + |phrase|] == phrase
      && DecimalValue(r[|r| - |digits|..]) == accountId
  {
    AmountNoticeParts(amount, phrase, accountId);
    FormatCentsRoundTrip(amount);
    NatToStringRoundTrip(accountId);
  }

  /** A money notification is the rupee sign, the rendered amount, the phrase and the digits
      of the account number, in that order. */
  lemma AmountNoticeParts(amount: int, phrase: string, accountId: AccountId)
    ensures var r, shown, digits := AmountNotice(amount, phrase, accountId), FormatCents(amount), NatToString(accountId);
      && |r| == 1 + |shown| + |phrase| + |digits|
      && r[1..1 + |shown|] == shown
      && r[1 + |shown|..1 + |shown| + |phrase|] == phrase
      && r[|r| - |digits|..] == digits
  {
    Parts("\U{20B9}", FormatCents(amount), phrase, NatToString(accountId));
  }

  lemma Parts(a: string, b: string, c: string, d: string)
    ensures var r := a + b + c + d;
      && r[|a|..|a| + |b|] == b
      && r[|a| + |b|..|a| + |b| + |c|] == c
      && r[|r| - |d|..] == d
  {
  }

  /** The notification `createAccount` sends its owner, numbered `id`: one "Initial Deposit"
      notice exactly when an initial deposit was credited. */
  function InitialNotices(id: nat, email: string, newAccount: Account): (r: seq<Notification>)
    ensures |r| == if newAccount.balance > 0 then 1 else 0
    ensures forall n | n in r :: n.id == id && IsUnreadOf(n, email) && n.kind == "DEPOSIT" && n.createdAt.None?
  {
    if newAccount.balance > 0
    then [NewNotification(id, email, "Initial Deposit", AmountNotice(newAccount.balance, Credited, newAccount.accountId), "DEPOSIT", None)]
    else []
  }

  /** `createAccount`: the caller's account, ACTIVE, holding the initial deposit (0 when
      absent; a negative deposit is accepted as it is). */
  method CreateAccount(store: Store, inbox: NotificationStore, email: string, initialDeposit: Option<int>, now: Timestamp)
    returns (r: Result<Account, Error>)
    requires store.Valid() && inbox.Valid()
    modifies store, inbox
    ensures store.Valid() && inbox.Valid()
    ensures FindUserByEmail(old(store.users), email).None? ==>
      r == Failure(NotFound("User not found")) && unchanged(store) && unchanged(inbox)
    ensures FindUserByEmail(old(store.users), email).Some? ==>
      var owner := FindUserByEmail(old(store.users), email).value;
      var id := old(store.nextAccountId);
      var newAccount := Account(id, owner.id, initialDeposit.GetOr(0), Active, now);
      && id !in old(store.accounts)
      && r == Success(newAccount)
      && store.accounts == old(store.accounts)[id := newAccount]
      && store.ledger == old(store.ledger) + InitialEntries(old(store.nextTxnId), newAccount, now)
      && store.users == old(store.users)
      && inbox.items == InitialNotices(old(inbox.nextId), email, newAccount) + old(inbox.items)
      && store.nextAccountId == id + 1
      && store.nextTxnId == old(store.nextTxnId) + |InitialEntries(old(store.nextTxnId), newAccount, now)|
      && inbox.nextId == old(inbox.nextId) + |InitialNotices(old(inbox.nextId), email, newAccount)|
    ensures r.Success? && old(store.Reconciled()) ==>
      (store.Reconciled() <==> initialDeposit.GetOr(0) >= 0)
  {
    var owner := FindUserByEmail(store.users, email);
    if owner.None? {
      return Failure(NotFound("User not found"));
    }
    var newAccount := OpenAccount(store, owner.value.id, initialDeposit.GetOr(0), now);
    if newAccount.balance > 0 {
      var notice := CreateNotification(inbox, owner.value.email, "Initial Deposit", AmountNotice(newAccount.balance, Credited, newAccount.accountId), "DEPOSIT", None);
    }
    r := Success(newAccount);
  }

  /** The saving half of `createAccount`: the new account under the next id, and its opening
      credit when the balance is positive. */
  method OpenAccount(store: Store, ownerId: UserId, balance: int, now: Timestamp) returns (newAccount: Account)
    requires store.Valid()
    modifies store
    ensures store.Valid()
    ensures newAccount == Account(old(store.nextAccountId), ownerId, balance, Active, now)
    ensures newAccount.accountId !in old(store.accounts)
    ensures store.accounts == old(store.accounts)[newAccount.accountId := newAccount]
    ensures store.ledger == old(store.ledger) + InitialEntries(old(store.nextTxnId), newAccount, now)
    ensures store.users == old(store.users)
    ensures store.nextAccountId == old(store.nextAccountId) + 1
    ensures store.nextTxnId == old(store.nextTxnId) + |InitialEntries(old(store.nextTxnId), newAccount, now)|
    ensures old(store.Reconciled()) ==> (store.Reconciled() <==> balance >= 0)
  {
    ghost var before := store.ledger;
    ghost var accountsBefore := store.accounts;
    var id := store.nextAccountId;
    newAccount := Account(id, ownerId, balance, Active, now);
    var entries := InitialEntries(store.nextTxnId, newAccount, now);
    OpeningKeepsShape(store.accounts, store.ledger, id, store.nextTxnId, newAccount, entries);
    store.nextAccountId, store.accounts, store.ledger, store.nextTxnId :=
      id + 1, store.accounts[id := newAccount], store.ledger + entries, store.nextTxnId + |entries|;
    if ReconciledWith(accountsBefore, before) {
      OpeningKeepsReconciled(accountsBefore, before, newAccount, entries);
      if newAccount.balance > 0 {
        NetOfOne(entries[0], id);
        assert IsCredit(entries[0]);
      } else {
        NetOfUnmentioned(entries, id);
      }
    }
  }

  /** The checks `getBalance` and `deposit` share, in order: the account exists, it is
      ACTIVE, the caller is a user, and the caller owns it. */
  function CheckOwnedActive(s: Snapshot, accountId: AccountId, email: string): (r: Result<Account, Error>)
    ensures r.Success? <==>
      && accountId in s.accounts
      && IsActive(s.accounts[accountId].status)
      && FindUserByEmail(s.users, email).Some?
      && FindUserByEmail(s.users, email).value.id == s.accounts[accountId].userId
    ensures r.Success? ==> r.value == s.accounts[accountId]
    ensures accountId in s.accounts && !IsActive(s.accounts[accountId].status) ==>
      r == Failure(Forbidden("Account is not active"))
  {
    if accountId !in s.accounts then Failure(NotFound("Account not found"))
    else
      var account := s.accounts[accountId];
      if !IsActive(account.status) then Failure(Forbidden("Account is not active"))
      else match FindUserByEmail(s.users, email)
        case None => Failure(NotFound("User not found"))
        case Some(user) =>
          if account.userId != user.id then Failure(Forbidden("Access denied"))
          else Success(account)
  }

  /** `getBalance`: the stored balance, for the owner of an ACTIVE account only. */
  function GetBalance(s: Snapshot, accountId: AccountId, email: string): (r: Result<int, Error>)
    ensures r.Success? <==> CheckOwnedActive(s, accountId, email).Success?
    ensures r.Success? ==> r.value == s.accounts[accountId].balance
    ensures accountId !in s.accounts ==> r == Failure(NotFound("Account not found"))
    ensures accountId in s.accounts && !IsActive(s.accounts[accountId].status) ==>
      r == Failure(Forbidden("Account is not active"))
  {
    match CheckOwnedActive(s, accountId, email)
    case Failure(e) => Failure(e)
    case Success(account) => Success(account.balance)
  }

  /** Saves one account row with its balance moved by `entry`'s signed amount and appends
      `entry`, numbered by the counter, to the ledger: the `applyDelta` plus `append` step
      every balance change is made of. */
  method Post(store: Store, updated: Account, entry: Txn)
    requires store.Valid()
    requires entry.accountId in store.accounts && updated.accountId == entry.accountId
    requires entry.transactionId == store.nextTxnId
    requires updated.balance == store.accounts[entry.accountId].balance + Signed(entry)
    modifies store
    ensures store.Valid()
    ensures old(store.Reconciled()) ==> store.Reconciled()
    ensures store.accounts == old(store.accounts)[entry.accountId := updated]
    ensures store.ledger == old(store.ledger) + [entry]
    ensures store.nextTxnId == old(store.nextTxnId) + 1
    ensures store.users == old(store.users) && store.nextAccountId == old(store.nextAccountId)
  {
    if ReconciledWith(store.accounts, store.ledger) {
      PostingKeepsReconciled(store.accounts, store.ledger, updated, entry);
    }
    PostingKeepsShape(store.accounts, store.ledger, store.nextAccountId, store.nextTxnId, updated, entry);
    store.accounts, store.ledger, store.nextTxnId :=
      store.accounts[entry.accountId := updated], store.ledger + [entry], store.nextTxnId + 1;
  }

  /** The checks of `deposit`, in order: a positive amount, then those of `getBalance`. */
  function CheckDeposit(s: Snapshot, accountId: AccountId, amount: Option<int>, email: string): (r: Result<Account, Error>)
    ensures r.Success? <==> PositiveAmount(amount) && CheckOwnedActive(s, accountId, email).Success?
    ensures !PositiveAmount(amount) ==> r == Failure(BadRequest(AmountRequired))
    ensures r.Success? ==> r.value == s.accounts[accountId]
  {
    if !PositiveAmount(amount) then Failure(BadRequest(AmountRequired))
    else CheckOwnedActive(s, accountId, email)
  }

  /** `deposit`: adds the amount to the balance and records one "Deposit" credit. */
  method Deposit(store: Store, inbox: NotificationStore, accountId: AccountId, amount: Option<int>, email: string, now: Timestamp)
    returns (r: Result<Account, Error>)
    requires store.Valid() && inbox.Valid()
    modifies store, inbox
    ensures store.Valid() && inbox.Valid()
    ensures old(store.Reconciled()) ==> store.Reconciled()
    ensures CheckDeposit(old(store.View()), accountId, amount, email).Failure? ==>
      r == Failure(CheckDeposit(old(store.View()), accountId, amount, email).error) && unchanged(store) && unchanged(inbox)
    ensures CheckDeposit(old(store.View()), accountId, amount, email).Success? ==>
      var before := old(store.accounts[accountId]);
      var updated := before.(balance := before.balance + amount.value);
      && r == Success(updated)
      && store.accounts == old(store.accounts)[accountId := updated]
      && store.ledger == old(store.ledger) + [Txn(old(store.nextTxnId), accountId, Credit, amount, Some(now), Some("Deposit"))]
      && store.users == old(store.users)
      && inbox.items == [NewNotification(old(inbox.nextId), email, "Deposit Successful",
                           AmountNotice(amount.value, Deposited, accountId), "DEPOSIT", None)] + old(inbox.items)
      && store.nextTxnId == old(store.nextTxnId) + 1 && store.nextAccountId == old(store.nextAccountId)
      && inbox.nextId == old(inbox.nextId) + 1
  {
    var check := CheckDeposit(store.View(), accountId, amount, email);
    if check.Failure? {
      return Failure(check.error);
    }
    var updated := check.value.(balance := check.value.balance + amount.value);
    var entry := Txn(store.nextTxnId, accountId, Credit, amount, Some(now), Some("Deposit"));
    Post(store, updated, entry);
    var notice := CreateNotification(inbox, email, "Deposit Successful", AmountNotice(amount.value, Deposited, accountId), "DEPOSIT", None);
    r := Success(updated);
  }

  /** The checks of `withdraw`, in order: a positive amount, the account exists and is
      ACTIVE, the caller's e-mail is not blank, the caller is a user who owns the account,
      and the balance covers the amount. */
  function CheckWithdraw(s: Snapshot, accountId: AccountId, amount: Option<int>, email: string): (r: Result<Account, Error>)
    ensures r.Success? <==>
      && PositiveAmount(amount)
      && CheckOwnedActive(s, accountId, email).Success?
      && !IsBlank(email)
      && s.accounts[accountId].balance >= amount.value
    ensures r.Success? ==> r.value == s.accounts[accountId]
    ensures PositiveAmount(amount) && CheckOwnedActive(s, accountId, email).Success? && !IsBlank(email) ==>
      (r == Failure(BadRequest("Insufficient balance")) <==> s.accounts[accountId].balance < amount.value)
  {
    if !PositiveAmount(amount) then Failure(BadRequest(AmountRequired))
    else if accountId !in s.accounts then Failure(NotFound("Account not found"))
    else
      var account := s.accounts[accountId];
      if !IsActive(account.status) then Failure(Forbidden("Account is not active"))
      else if IsBlank(email) then Failure(BadRequest("User email is required"))
      else match FindUserByEmail(s.users, email)
        case None => Failure(NotFound("User not found"))
        case Some(user) =>
          if account.userId != user.id then Failure(Forbidden("Access denied"))
          else if account.balance < amount.value then Failure(BadRequest("Insufficient balance"))
          else Success(account)
  }

  /** `withdraw`: subtracts the amount and records one "Withdraw" debit; the balance left is
      never negative. */
  method Withdraw(store: Store, inbox: NotificationStore, accountId: AccountId, amount: Option<int>, email: string, now: Timestamp)
    returns (r: Result<Account, Error>)
    requires store.Valid() && inbox.Valid()
    modifies store, inbox
    ensures store.Valid() && inbox.Valid()
    ensures old(store.Reconciled()) ==> store.Reconciled()
    ensures CheckWithdraw(old(store.View()), accountId, amount, email).Failure? ==>
      r == Failure(CheckWithdraw(old(store.View()), accountId, amount, email).error) && unchanged(store) && unchanged(inbox)
    ensures CheckWithdraw(old(store.View()), accountId, amount, email).Success? ==>
      var before := old(store.accounts[accountId]);
      var updated := before.(balance := before.balance - amount.value);
      && r == Success(updated)
      && updated.balance >= 0
      && store.accounts == old(store.accounts)[accountId := updated]
      && store.ledger == old(store.ledger) + [Txn(old(store.nextTxnId), accountId, Debit, amount, Some(now), Some("Withdraw"))]
      && store.users == old(store.users)
      && inbox.items == [NewNotification(old(inbox.nextId), email, "Withdrawal Successful",
                           AmountNotice(amount.value, Withdrawn, accountId), "WITHDRAW", None)] + old(inbox.items)
      && store.nextTxnId == old(store.nextTxnId) + 1 && store.nextAccountId == old(store.nextAccountId)
      && inbox.nextId == old(inbox.nextId) + 1
  {
    var check := CheckWithdraw(store.View(), accountId, amount, email);
    if check.Failure? {
      return Failure(check.error);
    }
    var updated := check.value.(balance := check.value.balance - amount.value);
    var entry := Txn(store.nextTxnId, accountId, Debit, amount, Some(now), Some("Withdraw"));
    assert !IsCredit(entry) by {
      assert Fold(Credit[0]) != Fold(entry.kind[0]);
    }
    Post(store, updated, entry);
    var notice := CreateNotification(inbox, email, "Withdrawal Successful", AmountNotice(amount.value, Withdrawn, accountId), "WITHDRAW", None);
    r := Success(updated);
  }

  /** The checks of `transfer`, in order: a positive amount, two different accounts, the
      sender's then the receiver's account exists, the sender's then the receiver's is ACTIVE,
      the caller is a user who owns the sender's account, the sender's balance covers the
      amount, and both account owners exist. */
  function CheckTransfer(s: Snapshot, email: string, fromId: AccountId, toId: AccountId, amount: Option<int>): (r: Result<(Account, Account), Error>)
    ensures r.Success? <==>
      && PositiveAmount(amount)
      && fromId != toId
      && fromId in s.accounts && toId in s.accounts
      && IsActive(s.accounts[fromId].status) && IsActive(s.accounts[toId].status)
      && FindUserByEmail(s.users, email).Some?
      && FindUserByEmail(s.users, email).value.id == s.accounts[fromId].userId
      && s.accounts[fromId].balance >= amount.value
      && FindUserById(s.users, s.accounts[fromId].userId).Some?
      && FindUserById(s.users, s.accounts[toId].userId).Some?
    ensures r.Success? ==> r.value == (s.accounts[fromId], s.accounts[toId])
    ensures PositiveAmount(amount) && fromId != toId && fromId in s.accounts && toId in s.accounts ==>
      (!IsActive(s.accounts[fromId].status) ==> r == Failure(Forbidden("Sender account is not active"))) &&
      (IsActive(s.accounts[fromId].status) && !IsActive(s.accounts[toId].status) ==>
         r == Failure(Forbidden("Receiver account is not active")))
  {
    if !PositiveAmount(amount) then Failure(BadRequest(AmountRequired))
    else if fromId == toId then Failure(BadRequest("From and To account must be different"))
    else if fromId !in s.accounts then Failure(NotFound("Sender account not found"))
    else if toId !in s.accounts then Failure(NotFound("Receiver account not found"))
    else
      var source := s.accounts[fromId];
      var target := s.accounts[toId];
      if !IsActive(source.status) then Failure(Forbidden("Sender account is not active"))
      else if !IsActive(target.status) then Failure(Forbidden("Receiver account is not active"))
      else match FindUserByEmail(s.users, email)
        case None => Failure(NotFound("Caller user not found"))
        case Some(caller) =>
          if source.userId != caller.id then Failure(Forbidden("Access denied - not owner of source account"))
          else if source.balance < amount.value then Failure(BadRequest("Insufficient balance"))
          else if FindUserById(s.users, source.userId).None? then Failure(NotFound("Sender not found"))
          else if FindUserById(s.users, target.userId).None? then Failure(NotFound("Receiver not found"))
          else Success((source, target))
  }

  /** The reference texts of a transfer's two entries: the note, or the default naming the
      other account. */
  function DebitReference(note: Option<string>, toId: AccountId): string {
    note.GetOr("Transfer to account " + NatToString(toId))
  }

  function CreditReference(note: Option<string>, fromId: AccountId): string {
    note.GetOr("Transfer from account " + NatToString(fromId))
  }

  /** The two notices of a transfer as the inbox lists them, newest first: the receiver's
      (numbered `id + 1`) above the sender's (numbered `id`). */
  function TransferNotices(id: nat, senderEmail: string, receiverEmail: string, amount: int, fromId: AccountId, toId: AccountId): (r: seq<Notification>)
    ensures |r| == 2
    ensures r[0].id == id + 1 && IsUnreadOf(r[0], receiverEmail)
    ensures r[1].id == id && IsUnreadOf(r[1], senderEmail)
    ensures forall n | n in r :: n.kind == "TRANSFER" && n.createdAt.None?
  {
    [ NewNotification(id + 1, receiverEmail, "Transfer Received", AmountNotice(amount, Received, fromId), "TRANSFER", None),
      NewNotification(id, senderEmail, "Transfer Sent", AmountNotice(amount, Transferred, toId), "TRANSFER", None) ]
  }

  /** Sends the sender's notice, then the receiver's. */
  method NotifyTransfer(inbox: NotificationStore, senderEmail: string, receiverEmail: string, amount: int, fromId: AccountId, toId: AccountId)
    requires inbox.Valid()
    modifies inbox
    ensures inbox.Valid()
    ensures inbox.items == TransferNotices(old(inbox.nextId), senderEmail, receiverEmail, amount, fromId, toId) + old(inbox.items)
    ensures inbox.nextId == old(inbox.nextId) + 2
  {
    var sent := CreateNotification(inbox, senderEmail, "Transfer Sent", AmountNotice(amount, Transferred, toId), "TRANSFER", None);
    var received := CreateNotification(inbox, receiverEmail, "Transfer Received", AmountNotice(amount, Received, fromId), "TRANSFER", None);
  }

  /** `transfer`: moves the amount from one account to another in one step, recording one
      debit on the sender and one credit on the receiver. */
  method Transfer(store: Store, inbox: NotificationStore, email: string, fromId: AccountId, toId: AccountId, amount: Option<int>, note: Option<string>, now: Timestamp)
    returns (r: Result<string, Error>)
    requires store.Valid() && inbox.Valid()
    modifies store, inbox
    ensures store.Valid() && inbox.Valid()
    ensures old(store.Reconciled()) ==> store.Reconciled()
    ensures CheckTransfer(old(store.View()), email, fromId, toId, amount).Failure? ==>
      r == Failure(CheckTransfer(old(store.View()), email, fromId, toId, amount).error) && unchanged(store) && unchanged(inbox)
    ensures CheckTransfer(old(store.View()), email, fromId, toId, amount).Success? ==>
      var source := old(store.accounts[fromId]);
      var target := old(store.accounts[toId]);
      && r == Success("Transfer Successful")
      && store.accounts == old(store.accounts)[fromId := source.(balance := source.balance - amount.value)]
                                              [toId := target.(balance := target.balance + amount.value)]
      && store.accounts[fromId].balance + store.accounts[toId].balance == source.balance + target.balance
      && store.accounts[fromId].balance >= 0
      && store.ledger == old(store.ledger) + [
           Txn(old(store.nextTxnId), fromId, Debit, amount, Some(now), Some(DebitReference(note, toId))),
           Txn(old(store.nextTxnId) + 1, toId, Credit, amount, Some(now), Some(CreditReference(note, fromId)))]
      && store.users == old(store.users)
      && inbox.items == TransferNotices(old(inbox.nextId),
           FindUserById(old(store.users), source.userId).value.email,
           FindUserById(old(store.users), target.userId).value.email, amount.value, fromId, toId)
         + old(inbox.items)
      && store.nextTxnId == old(store.nextTxnId) + 2 && store.nextAccountId == old(store.nextAccountId)
      && inbox.nextId == old(inbox.nextId) + 2
  {
    var check := CheckTransfer(store.View(), email, fromId, toId, amount);
    if check.Failure? {
      return Failure(check.error);
    }
    var (source, target) := check.value;
    var senderEmail := FindUserById(store.users, source.userId).value.email;
    var receiverEmail := FindUserById(store.users, target.userId).value.email;
    ApplyTransfer(store, fromId, toId, amount, DebitReference(note, toId), CreditReference(note, fromId), now);
    NotifyTransfer(inbox, senderEmail, receiverEmail, amount.value, fromId, toId);
    r := Success("Transfer Successful");
  }

  /** The saving half of `transfer`: the sender's balance goes down and the receiver's up by
      the amount, and the debit and then the credit are appended. */
  method ApplyTransfer(store: Store, fromId: AccountId, toId: AccountId, amount: Option<int>, debitRef: string, creditRef: string, now: Timestamp)
    requires store.Valid()
    requires amount.Some? && fromId != toId && fromId in store.accounts && toId in store.accounts
    modifies store
    ensures store.Valid()
    ensures old(store.Reconciled()) ==> store.Reconciled()
    ensures var source, target := old(store.accounts[fromId]), old(store.accounts[toId]);
      store.accounts == old(store.accounts)[fromId := source.(balance := source.balance - amount.value)]
                                           [toId := target.(balance := target.balance + amount.value)]
    ensures store.ledger == old(store.ledger) + [
      Txn(old(store.nextTxnId), fromId, Debit, amount, Some(now), Some(debitRef)),
      Txn(old(store.nextTxnId) + 1, toId, Credit, amount, Some(now), Some(creditRef))]
    ensures store.users == old(store.users)
    ensures store.nextTxnId == old(store.nextTxnId) + 2 && store.nextAccountId == old(store.nextAccountId)
  {
    var source, target := store.accounts[fromId], store.accounts[toId];
    var debit := Txn(store.nextTxnId, fromId, Debit, amount, Some(now), Some(debitRef));
    var credit := Txn(store.nextTxnId + 1, toId, Credit, amount, Some(now), Some(creditRef));
    assert !IsCredit(debit) by {
      assert Fold(Credit[0]) != Fold(debit.kind[0]);
    }
    Post(store, source.(balance := source.balance - amount.value), debit);
    Post(store, target.(balance := target.balance + amount.value), credit);
    assert store.ledger == old(store.ledger) + [debit, credit];
  }

  // ---------------------------------------------------------------------------------------
  // Opening balance

  function AtOrAfter(cutoff: Timestamp): Txn -> bool {
    (t: Txn) => t.timestamp.Some? && t.timestamp.value >= cutoff
  }

  /** The signed sum of account `id`'s entries stamped at or after `cutoff`. */
  function NetSince(ledger: seq<Txn>, id: AccountId, cutoff: Timestamp): int {
    SumOf(Filter(Filter(ledger, OfAccount(id)), AtOrAfter(cutoff)), Signed)
  }

  /** `getBalanceBefore`: the current balance, less the signed sum of the entries from the
      start of `fromDay` on when a day is given. */
  function GetBalanceBefore(s: Snapshot, accountId: AccountId, fromDay: Option<int>): (r: Result<int, Error>)
    ensures accountId !in s.accounts <==> r == Failure(Internal("Account not found"))
    ensures fromDay.None? && accountId in s.accounts ==> r == Success(s.accounts[accountId].balance)
    ensures fromDay.Some? && accountId in s.accounts ==>
      r.Success? && r.value + NetSince(s.ledger, accountId, StartOfDay(fromDay.value)) == s.accounts[accountId].balance
  {
    if accountId !in s.accounts then Failure(Internal("Account not found"))
    else
      var current := s.accounts[accountId].balance;
      match fromDay
      case None => Success(current)
      case Some(day) => Success(current - NetSince(s.ledger, accountId, StartOfDay(day)))
  }

  /** When the balance is reconciled with the ledger, the reconstructed opening balance is
      the signed sum of the account's entries before the cutoff (or without a timestamp). */
  lemma {:induction false} OpeningIsNetBeforeCutoff(s: Snapshot, accountId: AccountId, day: int)
    requires accountId in s.accounts
    requires s.accounts[accountId].balance == Net(s.ledger, accountId)
    ensures GetBalanceBefore(s, accountId, Some(day)) ==
      Success(SumOf(Filter(Filter(s.ledger, OfAccount(accountId)), Not(AtOrAfter(StartOfDay(day)))), Signed))
  {
    var own := Filter(s.ledger, OfAccount(accountId));
    var cutoff := StartOfDay(day);
    var since := SumOf(Filter(own, AtOrAfter(cutoff)), Signed);
    var earlier := SumOf(Filter(own, Not(AtOrAfter(cutoff))), Signed);
    NetIsOwnSignedSum(s.ledger, accountId);
    assert SumOf(own, Signed) == since + earlier by {
      SumOfPartition(own, Signed, AtOrAfter(cutoff));
    }
    assert GetBalanceBefore(s, accountId, Some(day)) == Success(s.accounts[accountId].balance - since);
  }
}
