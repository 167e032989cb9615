/**
 The notification centre: a list of notifications that can be marked read one
 at a time or all at once and deleted, the count of unread ones shown on the
 bell, and the "how long ago" label of each timestamp.
 */
module Notifications {
  import opened Seqs
  import opened Time

  datatype NoticeType = Critical | Warning | Success | Info

  datatype Notification = Notification(
    id: string,
    kind: NoticeType,
    title: string,
    message: string,
    timestamp: int,
    read: bool,
    category: string)

  predicate Unread(n: Notification)
  {
    !n.read
  }

  /**
   `markAsRead`: every notification with the id is read afterwards; nothing
   else about it, and nothing about the others, changes.
   */
  function MarkAsRead(ns: seq<Notification>, id: string): (r: seq<Notification>)
    ensures |r| == |ns|
    ensures forall i :: 0 <= i < |ns| ==> r[i] == if ns[i].id == id then ns[i].(read := true) else ns[i]
  {
    Map(ns, (n: Notification) => if n.id == id then n.(read := true) else n)
  }

  /** `markAllAsRead`: every notification is read, and nothing else changes. */
  function MarkAllAsRead(ns: seq<Notification>): (r: seq<Notification>)
    ensures |r| == |ns|
    ensures forall i :: 0 <= i < |ns| ==> r[i] == ns[i].(read := true)
  {
    Map(ns, (n: Notification) => n.(read := true))
  }

  /** `deleteNotification`: every notification with the id is removed, the rest keep their order. */
  function DeleteNotification(ns: seq<Notification>, id: string): (r: seq<Notification>)
    ensures forall n :: n in r <==> n in ns && n.id != id
    ensures forall n :: multiset(r)[n] == if n.id != id then multiset(ns)[n] else 0
    ensures IsSubsequence(r, ns)
  {
    FilterIsSubsequence(ns, (n: Notification) => n.id != id);
    FilterMultiplicity(ns, (n: Notification) => n.id != id);
    Filter(ns, (n: Notification) => n.id != id)
  }

  /** `unreadCount`: how many notifications are not read. */
  function UnreadCount(ns: seq<Notification>): (c: nat)
    ensures c <= |ns|
    ensures c == 0 <==> forall i :: 0 <= i < |ns| ==> ns[i].read
  {
    var unread := Filter(ns, Unread);
    assert forall i :: 0 <= i < |ns| && !ns[i].read ==> ns[i] in unread;
    if |unread| == 0 then
      0
    else
      assert unread[0] in ns;
      |unread|
  }

  /** The unread notifications carrying the id. */
  function UnreadWithId(ns: seq<Notification>, id: string): nat
  {
    Count(ns, (n: Notification) => !n.read && n.id == id)
  }

  /** Marking one id read lowers the unread count by exactly the unread notifications with that id. */
  lemma MarkAsReadUnreadCount(ns: seq<Notification>, id: string)
    ensures UnreadCount(MarkAsRead(ns, id)) == UnreadCount(ns) - UnreadWithId(ns, id)
  {
    var other := (n: Notification) => !n.read && n.id != id;
    var same := (n: Notification) => !n.read && n.id == id;
    CountMap(ns, (n: Notification) => if n.id == id then n.(read := true) else n, Unread, other);
    CountUnion(ns, Unread, other, same);
  }

  /** Marking read is idempotent. */
  lemma MarkAsReadIdempotent(ns: seq<Notification>, id: string)
    ensures MarkAsRead(MarkAsRead(ns, id), id) == MarkAsRead(ns, id)
  {
  }

  /** After marking everything read nothing is unread, and marking any one read changes nothing more. */
  lemma MarkAllAsReadClears(ns: seq<Notification>, id: string)
    ensures UnreadCount(MarkAllAsRead(ns)) == 0
    ensures MarkAsRead(MarkAllAsRead(ns), id) == MarkAllAsRead(ns)
  {
  }

  /** Deleting an id lowers the unread count by exactly the unread notifications with that id. */
  lemma DeleteUnreadCount(ns: seq<Notification>, id: string)
    ensures UnreadCount(DeleteNotification(ns, id)) == UnreadCount(ns) - UnreadWithId(ns, id)
  {
    var keep := (n: Notification) => n.id != id;
    var other := (n: Notification) => !n.read && n.id != id;
    var same := (n: Notification) => !n.read && n.id == id;
    FilterOfFilter(ns, keep, Unread, other);
    CountUnion(ns, Unread, other, same);
  }

  lemma {:induction false} FilterOfFilter(s: seq<Notification>, p: Notification -> bool, q: Notification -> bool, pq: Notification -> bool)
    requires forall i :: 0 <= i < |s| ==> pq(s[i]) == (p(s[i]) && q(s[i]))
    ensures Count(Filter(s, p), q) == Count(s, pq)
  {
    if |s| > 0 {
      FilterOfFilter(s[1..], p, q, pq);
    }
  }

  /** The label of a timestamp: whole minutes, hours or days ago. */
  datatype Ago = MinutesAgo(n: int) | HoursAgo(n: int) | DaysAgo(n: int)

  /**
   `formatTimestamp`: less than an hour ago (including the future) is shown in
   whole minutes, less than a day in whole hours, and anything older in whole
   days; each count is rounded down.
   */
  function FormatTimestamp(timestamp: int, now: int): (r: Ago)
    ensures r.MinutesAgo? <==> now - timestamp < MsPerHour
    ensures r.HoursAgo? <==> MsPerHour <= now - timestamp < 24 * MsPerHour
    ensures r.MinutesAgo? ==> r.n * MsPerMinute <= now - timestamp < (r.n + 1) * MsPerMinute
    ensures r.HoursAgo? ==> 1 <= r.n < 24 && r.n * MsPerHour <= now - timestamp < (r.n + 1) * MsPerHour
    ensures r.DaysAgo? ==> 1 <= r.n && r.n * MsPerDay <= now - timestamp < (r.n + 1) * MsPerDay
  {
    var diff := now - timestamp;
    var hours := FloorDiv(diff, MsPerHour);
    if hours < 1 then
      MinutesAgo(FloorDiv(diff, MsPerMinute))
    else if hours < 24 then
      HoursAgo(hours)
    else
      NestedFloorDays(diff);
      DaysAgo(FloorDiv(hours, 24))
  }

  /** Rounding to whole hours and then to whole days is rounding to whole days. */
  lemma NestedFloorDays(diff: int)
    ensures FloorDiv(FloorDiv(diff, MsPerHour), 24) == FloorDiv(diff, MsPerDay)
  {
    var h := FloorDiv(diff, MsPerHour);
    var q := FloorDiv(h, 24);
    assert q * 24 <= h < (q + 1) * 24;
    assert q * MsPerDay <= h * MsPerHour by {
      assert q * MsPerDay == (q * 24) * MsPerHour;
    }
    assert (h + 1) * MsPerHour <= (q + 1) * MsPerDay by {
      assert (q + 1) * MsPerDay == ((q + 1) * 24) * MsPerHour;
    }
    FloorDivUnique(diff, MsPerDay, q);
  }
}
