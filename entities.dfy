/** The persistent entities of the banking backend (accounts, ledger entries, users,
    notifications), the service error kinds, and the time units the queries use. */
module Entities {
  import opened Wrappers
  import opened Text

  type AccountId = nat
  type UserId = nat
  type TxnId = nat

  /** A point in time: whole seconds since 1970-01-01T00:00 (a `LocalDateTime`). */
  type Timestamp = int

  const SecondsPerDay: int := 86400

  /** `day.atStartOfDay()` for the day numbered `day` (days since 1970-01-01). */
  function StartOfDay(day: int): Timestamp {
    day * SecondsPerDay
  }

  /** `day.atTime(LocalTime.MAX)`: the last instant of the day numbered `day`. */
  function EndOfDay(day: int): Timestamp {
    day * SecondsPerDay + SecondsPerDay - 1
  }

  const Active := "ACTIVE"
  const Frozen := "FROZEN"
  const Credit := "CREDIT"
  const Debit := "DEBIT"

  /** An account row: owner, balance in minor units, lifecycle status text. */
  datatype Account = Account(
    accountId: AccountId,
    userId: UserId,
    balance: int,
    status: string,
    createdAt: Timestamp)

  /** A ledger row. The columns the engine always fills are nullable in the table, and the
      read side handles nulls, so those columns are optional here. */
  datatype Txn = Txn(
    transactionId: TxnId,
    accountId: AccountId,
    kind: string,
    amount: Option<int>,
    timestamp: Option<Timestamp>,
    referenceText: Option<string>)

  /** A user row; `active` is the enabled flag the administrator toggles. */
  datatype User = User(id: UserId, email: string, active: bool)

  /** A notification row. `createdAt` stays null when the service builds one. */
  datatype Notification = Notification(
    id: nat,
    userEmail: string,
    title: string,
    message: string,
    kind: string,
    readFlag: bool,
    createdAt: Option<Timestamp>,
    meta: Option<string>)

  /** The exceptions the services throw, by the HTTP status the exception handler gives them. */
  datatype Error =
    | BadRequest(message: string)
    | NotFound(message: string)
    | Forbidden(message: string)
    | Internal(message: string)

  /** One consistent read of the three repositories the read-only services query. */
  datatype Snapshot = Snapshot(
    accounts: map<AccountId, Account>,
    users: seq<User>,
    ledger: seq<Txn>)

  /** `"ACTIVE".equalsIgnoreCase(status)`: the gate every mutation and balance read passes. */
  predicate IsActive(status: string) {
    EqualsIgnoreCase(Active, status)
  }

  predicate IsCredit(t: Txn) {
    EqualsIgnoreCase(Credit, t.kind)
  }

  predicate IsDebit(t: Txn) {
    EqualsIgnoreCase(Debit, t.kind)
  }

  /** `Math.min`. */
  function Min(a: int, b: int): int {
    if a <= b then a else b
  }

  /** `amount == null ? 0.0 : amount`. */
  function AmountOrZero(t: Txn): int {
    t.amount.GetOr(0)
  }

  /** `userRepository.findByEmail`: the first user with that e-mail (the column is unique). */
  function FindUserByEmail(users: seq<User>, email: string): (r: Option<User>)
    ensures r.Some? ==> r.value in users && r.value.email == email
    ensures r.None? ==> forall u :: u in users ==> u.email != email
  {
    if users == [] then None
    else if users[0].email == email then Some(users[0])
    else FindUserByEmail(users[1..], email)
  }

  /** `userRepository.findById`: the first user with that id. */
  function FindUserById(users: seq<User>, id: UserId): (r: Option<User>)
    ensures r.Some? ==> r.value in users && r.value.id == id
    ensures r.None? ==> forall u :: u in users ==> u.id != id
  {
    if users == [] then None
    else if users[0].id == id then Some(users[0])
    else FindUserById(users[1..], id)
  }

  lemma {:induction false} FrozenIsInactive()
    ensures !IsActive(Frozen) && IsActive(Active)
  {
    assert Fold(Active[0]) != Fold(Frozen[0]);
  }
}
