/** The per-user inbox: creating a notification, listing a user's notifications with the
    unread filter and the size limit, counting the unread ones, and marking one or all of
    them read. The store keeps the rows in the order the repository's
    `OrderByCreatedAtDesc` queries return them, newest first. */
module NotificationService {
  import opened Wrappers
  import opened Entities

  /** The notification table: rows newest first, and the identity counter. */
  class NotificationStore {
    var items: seq<Notification>
    var nextId: nat

    /** Every row has its own id, below the counter. */
    ghost predicate Valid()
      reads this
    {
      IdsValid(items, nextId)
    }

    constructor ()
      ensures Valid() && items == []
    {
      items := [];
      nextId := 1;
    }
  }

  ghost predicate IdsValid(items: seq<Notification>, nextId: nat) {
    && (forall i | 0 <= i < |items| :: items[i].id < nextId)
    && (forall i, j | 0 <= i < j < |items| :: items[i].id != items[j].id)
  }

  /** The fields the service hands back for one notification. */
  datatype NotificationDto = NotificationDto(
    id: nat,
    title: string,
    message: string,
    kind: string,
    readFlag: bool,
    createdAt: Option<Timestamp>)

  function ToDto(n: Notification): (r: NotificationDto)
    ensures r.id == n.id && r.readFlag == n.readFlag && r.createdAt == n.createdAt
    ensures r.title == n.title && r.message == n.message && r.kind == n.kind
  {
    NotificationDto(n.id, n.title, n.message, n.kind, n.readFlag, n.createdAt)
  }

  predicate IsUnreadOf(n: Notification, email: string) {
    n.userEmail == email && !n.readFlag
  }

  /** `findByUserEmail…OrderByCreatedAtDesc`, with `AndReadFlagFalse` when `unreadOnly`:
      the user's rows in store order, only the unread ones when asked. */
  function Listed(items: seq<Notification>, email: string, unreadOnly: bool): (r: seq<Notification>)
    ensures |r| <= |items|
    ensures forall n {:trigger n in r} :: n in r <==> n in items && n.userEmail == email && (unreadOnly ==> !n.readFlag)
  {
    if items == [] then []
    else
      var n := items[0];
      (if n.userEmail == email && (unreadOnly ==> !n.readFlag) then [n] else []) + Listed(items[1..], email, unreadOnly)
  }

  /** Listing keeps store order: the rows of a longer store are those of its front part
      followed by those of its back part. */
  lemma {:induction false} ListedConcat(a: seq<Notification>, b: seq<Notification>, email: string, unreadOnly: bool)
    ensures Listed(a + b, email, unreadOnly) == Listed(a, email, unreadOnly) + Listed(b, email, unreadOnly)
  {
    if a == [] {
      assert a + b == b;
    } else {
      assert (a + b)[1..] == a[1..] + b;
      ListedConcat(a[1..], b, email, unreadOnly);
    }
  }

  /** `countByUserEmailAndReadFlagFalse`: how many of the user's rows are unread. */
  function CountUnread(items: seq<Notification>, email: string): (c: nat)
    ensures c <= |items|
    ensures c == 0 <==> forall n | n in items :: !IsUnreadOf(n, email)
  {
    if items == [] then 0
    else (if IsUnreadOf(items[0], email) then 1 else 0) + CountUnread(items[1..], email)
  }

  /** The unread count is the length of the unread listing. */
  lemma {:induction false} CountIsUnreadListLength(items: seq<Notification>, email: string)
    ensures CountUnread(items, email) == |Listed(items, email, true)|
  {
    if items != [] {
      CountIsUnreadListLength(items[1..], email);
    }
  }

  /** `getNotificationsForUser`: the user's rows (unread only when `unreadOnly` is TRUE; a
      null flag lists all), cut to the first `limit` when a positive limit is given. */
  function GetNotificationsForUser(items: seq<Notification>, email: string, unreadOnly: Option<bool>, limit: Option<int>)
    : (r: seq<NotificationDto>)
    ensures var list := Listed(items, email, unreadOnly == Some(true));
      && |r| == (if limit.Some? && limit.value > 0 then Min(limit.value, |list|) else |list|)
      && forall i | 0 <= i < |r| :: r[i] == ToDto(list[i])
  {
    var list := Listed(items, email, unreadOnly == Some(true));
    var kept := if limit.Some? && limit.value > 0 && |list| > limit.value then list[..limit.value] else list;
    seq(|kept|, i requires 0 <= i < |kept| => ToDto(kept[i]))
  }

  /** Every row listed belongs to the caller, and is unread when only unread rows are asked
      for. */
  lemma ListedRowsAreTheCallers(items: seq<Notification>, email: string, unreadOnly: Option<bool>, limit: Option<int>, i: nat)
    requires i < |GetNotificationsForUser(items, email, unreadOnly, limit)|
    ensures exists n :: (
      && n in items && n.userEmail == email && (unreadOnly == Some(true) ==> !n.readFlag)
      && GetNotificationsForUser(items, email, unreadOnly, limit)[i] == ToDto(n))
  {
    var list := Listed(items, email, unreadOnly == Some(true));
    assert list[i] in list;
  }

  // ---------------------------------------------------------------------------------------
  // Creating

  /** The row `createNotification` builds and saves under id `id`: unread, and without a
      creation time, which the builder leaves null. */
  function NewNotification(id: nat, email: string, title: string, message: string, kind: string, meta: Option<string>): (r: Notification)
    ensures r.id == id && IsUnreadOf(r, email) && r.createdAt.None?
    ensures ToDto(r) == NotificationDto(id, title, message, kind, false, None)
  {
    Notification(id, email, title, message, kind, false, None, meta)
  }

  /** `createNotification`: saves one unread row with the given fields and a fresh id. The
      e-mail the service then tries to send is best-effort and cannot change the outcome. */
  method CreateNotification(store: NotificationStore, email: string, title: string, message: string, kind: string, meta: Option<string>)
    returns (r: NotificationDto)
    requires store.Valid()
    modifies store
    ensures store.Valid()
    ensures var n := NewNotification(old(store.nextId), email, title, message, kind, meta);
      && store.items == [n] + old(store.items)
      && store.nextId == old(store.nextId) + 1
      && r == ToDto(n)
  {
    var n := NewNotification(store.nextId, email, title, message, kind, meta);
    store.items, store.nextId := [n] + store.items, store.nextId + 1;
    r := ToDto(n);
  }

  /** A new notification is one more unread row for its addressee, listed first, and
      changes no one else's count. */
  lemma NewNotificationIsUnread(items: seq<Notification>, n: Notification, e: string)
    requires !n.readFlag
    ensures CountUnread([n] + items, e) == CountUnread(items, e) + (if n.userEmail == e then 1 else 0)
    ensures n.userEmail == e ==> Listed([n] + items, e, true)[0] == n
  {
    assert ([n] + items)[1..] == items;
  }

  // ---------------------------------------------------------------------------------------
  // Marking read

  /** The position of the row with id `id`, if any. */
  function IndexOf(items: seq<Notification>, id: nat): (r: Option<nat>)
    ensures r.Some? ==> r.value < |items| && items[r.value].id == id
    ensures r.None? ==> forall i | 0 <= i < |items| :: items[i].id != id
  {
    if items == [] then None
    else if items[0].id == id then Some(0)
    else match IndexOf(items[1..], id)
      case None => None
      case Some(k) => Some(k + 1)
  }

  /** The store with row `i` marked read. */
  function MarkedRead(items: seq<Notification>, i: nat): (r: seq<Notification>)
    requires i < |items|
    ensures |r| == |items| && r[i].readFlag
    ensures r[i].(readFlag := items[i].readFlag) == items[i]
    ensures forall j | 0 <= j < |items| && j != i :: r[j] == items[j]
  {
    items[i := items[i].(readFlag := true)]
  }

  /** `markAsRead`: a missing id is NotFound, another user's row is Forbidden; otherwise the
      row is read afterwards and nothing else changes. */
  method MarkAsRead(store: NotificationStore, id: nat, email: string) returns (r: Result<(), Error>)
    requires store.Valid()
    modifies store
    ensures store.Valid()
    ensures IndexOf(old(store.items), id).None? ==>
      r == Failure(NotFound("Notification not found")) && unchanged(store)
    ensures IndexOf(old(store.items), id).Some? ==>
      var i := IndexOf(old(store.items), id).value;
      if old(store.items)[i].userEmail != email then
        r == Failure(Forbidden("Cannot modify another user's notification")) && unchanged(store)
      else
        r == Success(()) && store.items == MarkedRead(old(store.items), i) && store.nextId == old(store.nextId)
  {
    var found := IndexOf(store.items, id);
    if found.None? {
      return Failure(NotFound("Notification not found"));
    }
    var i := found.value;
    if store.items[i].userEmail != email {
      return Failure(Forbidden("Cannot modify another user's notification"));
    }
    if !store.items[i].readFlag {
      store.items := store.items[i := store.items[i].(readFlag := true)];
    } else {
      assert store.items[i].(readFlag := true) == store.items[i];
    }
    r := Success(());
  }

  /** Marking a row read twice is marking it once. */
  lemma MarkedReadIdempotent(items: seq<Notification>, i: nat)
    requires i < |items|
    ensures MarkedRead(MarkedRead(items, i), i) == MarkedRead(items, i)
  {
  }

  /** Marking one row read lowers its owner's unread count by one when it was unread and
      leaves every count alone otherwise. */
  lemma {:induction false} MarkedReadCount(items: seq<Notification>, i: nat, e: string)
    requires i < |items|
    ensures CountUnread(MarkedRead(items, i), e) == CountUnread(items, e) - (if IsUnreadOf(items[i], e) then 1 else 0)
  {
    var m := MarkedRead(items, i);
    if i == 0 {
      assert m[1..] == items[1..];
    } else {
      assert m[1..] == MarkedRead(items[1..], i - 1);
      MarkedReadCount(items[1..], i - 1, e);
    }
  }

  /** Every row of `email` read, the rest as they were: the state `markAllAsRead` leaves. */
  function AllRead(items: seq<Notification>, email: string): (r: seq<Notification>)
    ensures |r| == |items|
    ensures forall i | 0 <= i < |r| :: r[i] == if items[i].userEmail == email then items[i].(readFlag := true) else items[i]
  {
    if items == [] then []
    else [if items[0].userEmail == email then items[0].(readFlag := true) else items[0]] + AllRead(items[1..], email)
  }

  /** The positions, from `from` on, of the rows of `email` that are unread: the rows
      `findByUserEmailAndReadFlagFalse` loads. */
  function UnreadPositions(items: seq<Notification>, email: string, from: nat): (r: seq<nat>)
    requires from <= |items|
    ensures forall k | 0 <= k < |r| :: r[k] < |items|
    ensures forall j {:trigger j in r} :: j in r <==> from <= j < |items| && IsUnreadOf(items[j], email)
    decreases |items| - from
  {
    if from == |items| then []
    else (if IsUnreadOf(items[from], email) then [from] else []) + UnreadPositions(items, email, from + 1)
  }

  /** `markAllAsRead`: loads the caller's unread rows and, when there are any, sets each one's
      read flag. */
  method MarkAllAsRead(store: NotificationStore, email: string)
    requires store.Valid()
    modifies store
    ensures store.Valid()
    ensures store.items == AllRead(old(store.items), email)
    ensures store.nextId == old(store.nextId)
  {
    var list := UnreadPositions(store.items, email, 0);
    if |list| == 0 {
      forall j | 0 <= j < |store.items| ensures AllRead(store.items, email)[j] == store.items[j] {
        assert j !in list;
      }
      return;
    }
    ghost var before := store.items;
    for k := 0 to |list|
      invariant |store.items| == |before|
      invariant store.nextId == old(store.nextId)
      invariant forall j | 0 <= j < |before| ::
        store.items[j] == if j in list[..k] then before[j].(readFlag := true) else before[j]
    {
      var j := list[k];
      store.items := store.items[j := store.items[j].(readFlag := true)];
      assert list[..k + 1] == list[..k] + [j];
    }
    assert list[..|list|] == list;
    forall j | 0 <= j < |before| ensures store.items[j] == AllRead(before, email)[j] {
      if before[j].userEmail == email && before[j].readFlag {
        assert before[j].(readFlag := true) == before[j];
      }
    }
    AllReadKeepsIds(before, email, store.nextId);
  }

  lemma AllReadKeepsIds(items: seq<Notification>, email: string, nextId: nat)
    requires IdsValid(items, nextId)
    ensures IdsValid(AllRead(items, email), nextId)
  {
    var r := AllRead(items, email);
    assert forall i | 0 <= i < |r| :: r[i].id == items[i].id;
  }

  /** After marking all read the caller has nothing unread. */
  lemma {:induction false} AllReadClearsUnread(items: seq<Notification>, email: string)
    ensures CountUnread(AllRead(items, email), email) == 0
    ensures Listed(AllRead(items, email), email, true) == []
  {
    CountIsUnreadListLength(AllRead(items, email), email);
    var r := AllRead(items, email);
    forall n | n in r ensures !IsUnreadOf(n, email) {
      var i :| 0 <= i < |r| && r[i] == n;
    }
  }

  /** Marking all of one user's rows read changes no other user's listing or count. */
  lemma {:induction false} AllReadKeepsOthers(items: seq<Notification>, email: string, e: string, unreadOnly: bool)
    requires e != email
    ensures Listed(AllRead(items, email), e, unreadOnly) == Listed(items, e, unreadOnly)
    ensures CountUnread(AllRead(items, email), e) == CountUnread(items, e)
  {
    if items != [] {
      var r := AllRead(items, email);
      assert r[1..] == AllRead(items[1..], email);
      AllReadKeepsOthers(items[1..], email, e, unreadOnly);
    }
  }

  /** With nothing unread, marking all read leaves the store as it was. */
  lemma AllReadNoUnreadIsNoop(items: seq<Notification>, email: string)
    requires CountUnread(items, email) == 0
    ensures AllRead(items, email) == items
  {
    forall i | 0 <= i < |items| ensures AllRead(items, email)[i] == items[i] {
      assert items[i] in items;
    }
  }
}
