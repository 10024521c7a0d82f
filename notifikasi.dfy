/** The notification list: loading, marking one or all as read, and the
    unread count the header shows. */
module Notifikasi {
  import opened Optional
  import AuthContext

  /** One notification as the backend sends it; `readAt` is `read_at`,
      `None` for `null`. */
  datatype Notification = Notification(
    id: string, message: string, pengajuanId: Option<int>, createdAt: string, readAt: Option<string>)

  /** The body of `GET /notifications`; either list may be missing. */
  datatype ApiResponse = ApiResponse(unread: Option<seq<Notification>>, read: Option<seq<Notification>>)

  /** `!notif.read_at`: no read time, or an empty one. */
  predicate Unread(n: Notification)
  {
    !Filled(n.readAt)
  }

  /** `list || []`. */
  function OrEmpty(l: Option<seq<Notification>>): seq<Notification>
  {
    if l.Some? then l.value else []
  }

  /** The displayed list: the unread list followed by the read list. */
  function Merge(res: ApiResponse): (r: seq<Notification>)
    ensures |r| == |OrEmpty(res.unread)| + |OrEmpty(res.read)|
    ensures r[..|OrEmpty(res.unread)|] == OrEmpty(res.unread)
    ensures r[|OrEmpty(res.unread)|..] == OrEmpty(res.read)
  {
    OrEmpty(res.unread) + OrEmpty(res.read)
  }

  /** `fetchNotifications`: without a token, or when the request fails
      (`response` is `None`), the list stays as it was; otherwise it is
      replaced by the merged lists. */
  function Fetch(current: seq<Notification>, token: Option<string>, response: Option<ApiResponse>): (r: seq<Notification>)
    ensures !AuthContext.HasToken(token) || response.None? ==> r == current
    ensures AuthContext.HasToken(token) && response.Some? ==> r == Merge(response.value)
  {
    if AuthContext.HasToken(token) && response.Some? then Merge(response.value) else current
  }

  /** The unread entries, in list order (`filter(notif => !notif.read_at)`). */
  function UnreadOf(l: seq<Notification>): (r: seq<Notification>)
    ensures |r| <= |l|
    decreases |l|
  {
    if l == [] then []
    else (if Unread(l[0]) then [l[0]] else []) + UnreadOf(l[1..])
  }

  /** `UnreadOf` keeps exactly the unread entries. */
  lemma {:induction false} UnreadOfMembers(l: seq<Notification>)
    ensures forall n :: n in UnreadOf(l) <==> n in l && Unread(n)
    decreases |l|
  {
    if l != [] {
      assert l == [l[0]] + l[1..];
      UnreadOfMembers(l[1..]);
    }
  }

  /** `getUnreadCount`: the number of unread entries, at most the length
      of the list. */
  function UnreadCount(l: seq<Notification>): (r: nat)
    ensures r <= |l|
  {
    |UnreadOf(l)|
  }

  /** The unread count is zero exactly when no entry is unread. */
  lemma UnreadCountZeroIff(l: seq<Notification>)
    ensures UnreadCount(l) == 0 <==> forall i :: 0 <= i < |l| ==> !Unread(l[i])
  {
    UnreadOfMembers(l);
    if UnreadOf(l) != [] {
      assert UnreadOf(l)[0] in UnreadOf(l);
    }
    forall i | 0 <= i < |l| && Unread(l[i])
      ensures UnreadOf(l) != []
    {
      assert l[i] in UnreadOf(l);
    }
  }

  /** The "mark all as read" button is shown exactly while some entry is
      unread. */
  predicate ShowMarkAll(l: seq<Notification>)
    ensures ShowMarkAll(l) <==> exists i :: 0 <= i < |l| && Unread(l[i])
  {
    UnreadCountZeroIff(l);
    UnreadCount(l) > 0
  }

  /** The unread count of the merged list is the sum of the counts of the
      two lists it is made of. */
  lemma {:induction false} UnreadCountOfConcat(u: seq<Notification>, v: seq<Notification>)
    ensures UnreadOf(u + v) == UnreadOf(u) + UnreadOf(v)
    ensures UnreadCount(u + v) == UnreadCount(u) + UnreadCount(v)
    decreases |u|
  {
    if u == [] {
      assert u + v == v;
    } else {
      var head := if Unread(u[0]) then [u[0]] else [];
      assert u + v == [u[0]] + (u[1..] + v);
      assert UnreadOf(u + v) == head + UnreadOf(u[1..] + v);
      assert UnreadOf(u) == head + UnreadOf(u[1..]);
      UnreadCountOfConcat(u[1..], v);
      assert head + (UnreadOf(u[1..]) + UnreadOf(v)) == (head + UnreadOf(u[1..])) + UnreadOf(v);
    }
  }

  /** The local update after a successful PATCH: entries with id `id` get
      read time `now`; every other entry, the order and the length stay. */
  function MarkRead(l: seq<Notification>, id: string, now: string): (r: seq<Notification>)
    ensures |r| == |l|
    ensures forall i :: 0 <= i < |l| ==>
      r[i] == if l[i].id == id then l[i].(readAt := Some(now)) else l[i]
    decreases |l|
  {
    if l == [] then []
    else [if l[0].id == id then l[0].(readAt := Some(now)) else l[0]] + MarkRead(l[1..], id, now)
  }

  /** `markAsRead`: without a token, or when the PATCH fails, the list is
      unchanged. */
  function MarkAsRead(l: seq<Notification>, id: string, token: Option<string>, patchOk: bool, now: string)
    : (r: seq<Notification>)
    ensures !AuthContext.HasToken(token) || !patchOk ==> r == l
    ensures AuthContext.HasToken(token) && patchOk ==> r == MarkRead(l, id, now)
  {
    if AuthContext.HasToken(token) && patchOk then MarkRead(l, id, now) else l
  }

  /** Tapping a card calls `markAsRead` only when that card is unread. */
  function TapCard(l: seq<Notification>, card: Notification, token: Option<string>, patchOk: bool, now: string)
    : (r: seq<Notification>)
    ensures !Unread(card) ==> r == l
    ensures Unread(card) ==> r == MarkAsRead(l, card.id, token, patchOk, now)
  {
    if Unread(card) then MarkAsRead(l, card.id, token, patchOk, now) else l
  }

  /** No two entries share an id. */
  ghost predicate DistinctIds(l: seq<Notification>)
  {
    forall a, b :: 0 <= a < b < |l| ==> l[a].id != l[b].id
  }

  /** Some entry with id `id` is unread. */
  ghost predicate HasUnreadId(l: seq<Notification>, id: string)
  {
    exists i :: 0 <= i < |l| && l[i].id == id && Unread(l[i])
  }

  /** The unread count of a non-empty list, read off its first entry. */
  lemma UnreadCountUnfold(l: seq<Notification>)
    requires l != []
    ensures UnreadCount(l) == (if Unread(l[0]) then 1 else 0) + UnreadCount(l[1..])
  {
  }

  /** Dropping the first entry keeps the ids distinct. */
  lemma DistinctTail(l: seq<Notification>)
    requires l != [] && DistinctIds(l)
    ensures DistinctIds(l[1..])
  {
    var t := l[1..];
    forall a, b | 0 <= a < b < |t| ensures t[a].id != t[b].id {
      assert t[a] == l[a + 1] && t[b] == l[b + 1];
    }
  }

  /** `MarkRead` on a non-empty list: the first entry, then the rest marked. */
  lemma MarkReadCons(l: seq<Notification>, id: string, now: string)
    requires l != []
    ensures MarkRead(l, id, now) != []
    ensures MarkRead(l, id, now)[0] == if l[0].id == id then l[0].(readAt := Some(now)) else l[0]
    ensures MarkRead(l, id, now)[1..] == MarkRead(l[1..], id, now)
  {
    var m := MarkRead(l, id, now);
    assert m == [m[0]] + MarkRead(l[1..], id, now);
    assert m[1..] == MarkRead(l[1..], id, now);
  }

  /** Whether a non-empty list has an unread entry with id `id`, read off
      its first entry and the rest. */
  lemma HasUnreadIdCons(l: seq<Notification>, id: string)
    requires l != []
    ensures HasUnreadId(l, id) <==> (l[0].id == id && Unread(l[0])) || HasUnreadId(l[1..], id)
  {
    if HasUnreadId(l, id) {
      var i :| 0 <= i < |l| && l[i].id == id && Unread(l[i]);
      if i > 0 {
        assert l[1..][i - 1] == l[i];
      }
    }
    if HasUnreadId(l[1..], id) {
      var i :| 0 <= i < |l[1..]| && l[1..][i].id == id && Unread(l[1..][i]);
      assert l[i + 1] == l[1..][i];
    }
  }

  /** With distinct ids, the id of the first entry occurs nowhere after it. */
  lemma FirstIdNotInTail(l: seq<Notification>)
    requires l != [] && DistinctIds(l)
    ensures !HasUnreadId(l[1..], l[0].id)
  {
    var t := l[1..];
    forall i | 0 <= i < |t| ensures t[i].id != l[0].id {
      assert t[i] == l[i + 1];
    }
  }

  /** With distinct ids and a non-empty read time, marking one entry as read
      lowers the unread count by one exactly when that entry was unread. */
  lemma {:induction false} MarkReadCount(l: seq<Notification>, id: string, now: string)
    requires now != ""
    requires DistinctIds(l)
    ensures UnreadCount(MarkRead(l, id, now)) == UnreadCount(l) - (if HasUnreadId(l, id) then 1 else 0)
    decreases |l|
  {
    if l != [] {
      var t := l[1..];
      DistinctTail(l);
      MarkReadCount(t, id, now);
      var x := l[0];
      var y := if x.id == id then x.(readAt := Some(now)) else x;
      MarkReadCons(l, id, now);
      UnreadCountUnfold(MarkRead(l, id, now));
      UnreadCountUnfold(l);
      HasUnreadIdCons(l, id);
      if x.id == id {
        FirstIdNotInTail(l);
      }
    }
  }

  /** The local update after "mark all as read": every entry gets a read
      time, and entries already read keep their own (`read_at || now`). */
  function MarkAll(l: seq<Notification>, now: string): (r: seq<Notification>)
    ensures |r| == |l|
    ensures forall i :: 0 <= i < |l| ==>
      r[i] == l[i].(readAt := if Unread(l[i]) then Some(now) else l[i].readAt)
    decreases |l|
  {
    if l == [] then []
    else [l[0].(readAt := if Unread(l[0]) then Some(now) else l[0].readAt)] + MarkAll(l[1..], now)
  }

  /** After marking all as read with a non-empty read time nothing is
      unread, so the button disappears. */
  lemma {:induction false} MarkAllLeavesNothingUnread(l: seq<Notification>, now: string)
    requires now != ""
    ensures UnreadCount(MarkAll(l, now)) == 0 && !ShowMarkAll(MarkAll(l, now))
    decreases |l|
  {
    if l != [] {
      MarkAllLeavesNothingUnread(l[1..], now);
      var m := MarkAll(l, now);
      assert m[1..] == MarkAll(l[1..], now);
      UnreadCountUnfold(m);
    }
  }

  /** `markAllAsRead`: one PATCH per unread entry, in list order, each
      awaited before the next; `failing` holds the positions, among those
      requests, of the ones that fail. Without a token nothing is sent. A
      failure stops the walk and leaves the list unchanged; otherwise the
      list becomes `MarkAll(l, now)`. */
  method MarkAllAsRead(l: seq<Notification>, token: Option<string>, failing: set<nat>, now: string)
    returns (requests: seq<string>, r: seq<Notification>, done: bool)
    ensures !AuthContext.HasToken(token) ==> requests == [] && r == l && !done
    ensures AuthContext.HasToken(token) ==>
      && |requests| <= UnreadCount(l)
      && (forall j :: 0 <= j < |requests| ==> requests[j] == UnreadOf(l)[j].id)
      && (done <==> forall j: nat :: j < UnreadCount(l) ==> j !in failing)
    ensures done ==> |requests| == UnreadCount(l) && r == MarkAll(l, now)
    ensures !done ==> r == l
    ensures AuthContext.HasToken(token) && !done ==>
      && |requests| > 0 && |requests| - 1 in failing
      && forall j: nat :: j < |requests| - 1 ==> j !in failing
  {
    if !AuthContext.HasToken(token) {
      return [], l, false;
    }
    var unread := UnreadOf(l);
    requests := [];
    var i := 0;
    while i < |unread|
      invariant 0 <= i <= |unread|
      invariant |requests| == i
      invariant forall j :: 0 <= j < i ==> requests[j] == unread[j].id
      invariant forall j: nat :: j < i ==> j !in failing
    {
      requests := requests + [unread[i].id];
      if i in failing {
        return requests, l, false;
      }
      i := i + 1;
    }
    return requests, MarkAll(l, now), true;
  }
}
