/** The notifications page: on every snapshot of the signed-in user's
    notifications it fetches the senders' profiles, merges them into its
    cache, lists the notifications, and marks the unread ones as read in
    one batch. Each row links to the sender or the post and shows the
    sender's name and avatar. */
module Notifications {
  import opened Base
  import opened Seqs
  import opened Model

  /** A notification document as listed: its id and its fields. */
  datatype Listed = Listed(id: string, note: Notification)

  /** The truthy sender ids of a snapshot, in order, repeats included. */
  function TruthyIds(ns: seq<Listed>): (r: seq<Uid>)
    ensures |r| <= |ns|
    ensures forall u :: u in r <==> u != "" && exists n :: n in ns && n.note.senderId == Some(u)
    decreases |ns|
  {
    if |ns| == 0 then []
    else
      var rest := TruthyIds(ns[1..]);
      assert forall n :: n in ns <==> n == ns[0] || n in ns[1..];
      (if Truthy(ns[0].note.senderId) then [ns[0].note.senderId.value] else []) + rest
  }

  /** `[...new Set(notifs.map(n => n.senderId).filter(Boolean))]`: every
      truthy sender once. */
  function SenderIds(ns: seq<Listed>): (r: seq<Uid>)
    ensures Distinct(r)
    ensures |r| <= |ns|
    ensures forall u :: u in r <==> u != "" && exists n :: n in ns && n.note.senderId == Some(u)
  {
    Dedup(TruthyIds(ns))
  }

  /** The profiles fetched for the sender ids: one entry per id whose
      profile document exists. */
  function FetchSenders(ids: seq<Uid>, users: map<Uid, Profile>): (m: map<Uid, Profile>)
    ensures forall u :: u in m <==> u in ids && u in users
    ensures forall u :: u in m ==> m[u] == users[u]
  {
    map u | u in ids && u in users :: users[u]
  }

  /** `setUsersMap(prev => ({...prev, ...newUsersMap}))`: fetched profiles
      replace cached ones, other cached entries stay. */
  function MergeUsers(prev: map<Uid, Profile>, fetched: map<Uid, Profile>): (r: map<Uid, Profile>)
    ensures forall u :: u in r <==> u in prev || u in fetched
    ensures forall u :: u in fetched ==> r[u] == fetched[u]
    ensures forall u :: u in prev && u !in fetched ==> r[u] == prev[u]
  {
    prev + fetched
  }

  /** `isRead` set to true; a missing or false flag counts as unread. */
  predicate IsRead(n: Notification) {
    n.isRead == Some(true)
  }

  /** The ids of the unread notifications, in list order. */
  function Unread(ns: seq<Listed>): (ids: seq<string>)
    ensures |ids| <= |ns|
    ensures forall id :: id in ids <==> exists n :: n in ns && n.id == id && !IsRead(n.note)
    decreases |ns|
  {
    if |ns| == 0 then []
    else
      var rest := Unread(ns[1..]);
      assert forall n :: n in ns <==> n == ns[0] || n in ns[1..];
      (if IsRead(ns[0].note) then [] else [ns[0].id]) + rest
  }

  /** The batch the page commits: none when everything is read. */
  function ReadBatch(ns: seq<Listed>): (b: Option<seq<string>>)
    ensures b.None? <==> forall n :: n in ns ==> IsRead(n.note)
    ensures b.Some? ==> |b.value| > 0 && forall id :: id in b.value <==> exists n :: n in ns && n.id == id && !IsRead(n.note)
  {
    var ids := Unread(ns);
    if |ids| > 0 then
      assert ids[0] in ids;
      Some(ids)
    else
      assert forall n :: n in ns ==> n.id !in ids;
      None
  }

  /** The notifications subcollection of the signed-in user. */
  type Inbox = map<string, Notification>

  /** Committing the batch: atomic, so a missing document or a rejected
      commit (only logged) leaves every document as it was; otherwise each
      listed document gets `isRead: true` and nothing else changes. */
  function CommitRead(store: Inbox, ids: seq<string>, ok: bool): (r: Inbox)
    ensures !ok ==> r == store
    ensures (exists id :: id in ids && id !in store) ==> r == store
    ensures ok && (forall id :: id in ids ==> id in store) ==>
              && r.Keys == store.Keys
              && (forall k :: k in store && k in ids ==> r[k] == store[k].(isRead := Some(true)))
              && (forall k :: k in store && k !in ids ==> r[k] == store[k])
  {
    if ok && forall id :: id in ids ==> id in store then
      map k | k in store :: if k in ids then store[k].(isRead := Some(true)) else store[k]
    else store
  }

  /** The page's state after one snapshot. */
  datatype Page = Page(notifications: seq<Listed>, usersMap: map<Uid, Profile>, loading: bool, batch: Option<seq<string>>)

  /** The snapshot listener: fetch the senders, merge them into the
      cache, show the list, and mark the unread ones. */
  function OnSnapshot(prev: map<Uid, Profile>, ns: seq<Listed>, users: map<Uid, Profile>): (p: Page)
    ensures p.notifications == ns && !p.loading
    ensures forall u :: u in p.usersMap <==> u in prev || (u in users && u != "" && exists n :: n in ns && n.note.senderId == Some(u))
    ensures forall u :: u in users && u in SenderIds(ns) ==> p.usersMap[u] == users[u]
    ensures forall u :: u in prev && !(u in users && u in SenderIds(ns)) ==> p.usersMap[u] == prev[u]
    ensures p.batch == ReadBatch(ns)
  {
    Page(ns, MergeUsers(prev, FetchSenders(SenderIds(ns), users)), false, ReadBatch(ns))
  }

  /** The listing the store returns: the documents named by `order`. */
  function Relist(order: seq<string>, store: Inbox): (ns: seq<Listed>)
    requires forall i :: 0 <= i < |order| ==> order[i] in store
    ensures |ns| == |order|
    ensures forall i :: 0 <= i < |order| ==> ns[i] == Listed(order[i], store[order[i]])
  {
    seq(|order|, i requires 0 <= i < |order| => Listed(order[i], store[order[i]]))
  }

  /** Marking read settles: once the batch for a snapshot is committed, the
      next snapshot of the same documents has nothing unread and the page
      commits no batch. */
  lemma MarkReadSettles(order: seq<string>, store: Inbox)
    requires forall i :: 0 <= i < |order| ==> order[i] in store
    ensures var ns := Relist(order, store);
            var store1 := CommitRead(store, Unread(ns), true);
            && (forall i :: 0 <= i < |order| ==> order[i] in store1)
            && ReadBatch(Relist(order, store1)).None?
  {
    var ns := Relist(order, store);
    var ids := Unread(ns);
    assert forall id :: id in ids ==> id in store;
    var store1 := CommitRead(store, ids, true);
    var ns1 := Relist(order, store1);
    forall n | n in ns1 ensures IsRead(n.note) {
      var i :| 0 <= i < |ns1| && ns1[i] == n;
      if order[i] !in ids {
        assert ns[i] in ns;
      }
    }
  }

  /** Where a row links: the sender's profile for a follow, the post when
      there is one, otherwise nowhere (`#`). A missing sender id is
      interpolated as "undefined". */
  function LinkOf(n: Notification): string {
    if n.kind == "follow" then "/u/" + (if n.senderId.Some? then n.senderId.value else "undefined")
    else if Truthy(n.postId) then "/post/" + n.postId.value
    else "#"
  }

  /** A link as the router reads it. */
  datatype Target = ToProfile(uid: string) | ToPost(postId: string) | Nowhere | Elsewhere

  function ParseLink(s: string): Target {
    if |s| >= 3 && s[..3] == "/u/" then ToProfile(s[3..])
    else if |s| >= 6 && s[..6] == "/post/" then ToPost(s[6..])
    else if s == "#" then Nowhere
    else Elsewhere
  }

  /** A follow leads to its sender, anything else with a post id to the
      post, the rest nowhere. */
  lemma LinkOfTargets(n: Notification)
    ensures n.kind == "follow" && n.senderId.Some? ==> ParseLink(LinkOf(n)) == ToProfile(n.senderId.value)
    ensures n.kind != "follow" && Truthy(n.postId) ==> ParseLink(LinkOf(n)) == ToPost(n.postId.value)
    ensures n.kind != "follow" && !Truthy(n.postId) ==> ParseLink(LinkOf(n)) == Nowhere
  {
    var s := LinkOf(n);
    if n.kind == "follow" && n.senderId.Some? {
      assert s[..3] == "/u/" && s[3..] == n.senderId.value;
    } else if n.kind != "follow" && Truthy(n.postId) {
      assert s[..3] != "/u/" by { assert s[1] == 'p'; }
      assert s[..6] == "/post/" && s[6..] == n.postId.value;
    }
  }

  /** A follow notification always links to a profile, never to a post,
      even when it carries a post id. */
  lemma FollowNeverLinksToPost(n: Notification)
    requires n.kind == "follow"
    ensures ParseLink(LinkOf(n)).ToProfile?
  {
    var s := LinkOf(n);
    assert s[..3] == "/u/";
  }

  /** The sender shown on a row: the cached profile's name and photo
      field, or the name and photo carried by the notification. */
  datatype Sender = Sender(name: Option<string>, photo: Option<string>)

  /** The line under the sender's name, by notification type. */
  function Action(kind: string): (s: string)
    ensures kind !in {"like", "comment", "follow"} ==> s == ""
    ensures kind in {"like", "comment", "follow"} ==> |s| > 0
  {
    if kind == "like" then "liked your post."
    else if kind == "comment" then "commented on your post."
    else if kind == "follow" then "started following you."
    else ""
  }

  /** What one row shows. */
  datatype Row = Row(link: string, name: string, avatar: string, action: string)

  /** The sender of a row as the page is written: a cached profile is
      read through the field `photoUrl`, which profile documents never
      carry (they store `photoURL`), so its photo is lost; the fallback
      built from the notification does carry the photo under that name. */
  function SenderAsWritten(usersMap: map<Uid, Profile>, n: Notification): (s: Sender)
    ensures n.senderId.Some? && n.senderId.value in usersMap ==>
              s == Sender(usersMap[n.senderId.value].name, None)
    ensures !(n.senderId.Some? && n.senderId.value in usersMap) ==> s == Sender(n.senderName, n.senderPhoto)
  {
    if n.senderId.Some? && n.senderId.value in usersMap then Sender(usersMap[n.senderId.value].name, None)
    else Sender(n.senderName, n.senderPhoto)
  }

  /** The sender evidently intended: the cached profile's name and stored
      photo. */
  function SenderOf(usersMap: map<Uid, Profile>, n: Notification): (s: Sender)
    ensures n.senderId.Some? && n.senderId.value in usersMap ==>
              s == Sender(usersMap[n.senderId.value].name, usersMap[n.senderId.value].photoURL)
    ensures !(n.senderId.Some? && n.senderId.value in usersMap) ==> s == Sender(n.senderName, n.senderPhoto)
  {
    if n.senderId.Some? && n.senderId.value in usersMap then
      var p := usersMap[n.senderId.value];
      Sender(p.name, p.photoURL)
    else Sender(n.senderName, n.senderPhoto)
  }

  /** A row for a sender: the photo when truthy, else the generated
      avatar; the name, or "User" when it is missing or empty. */
  function RowFor(n: Notification, s: Sender): (r: Row)
    ensures Truthy(s.photo) ==> r.avatar == s.photo.value
    ensures !Truthy(s.photo) ==> r.avatar == GeneratedAvatar(s.name)
    ensures r.name == OrElse(s.name, "User") && r.link == LinkOf(n) && r.action == Action(n.kind)
  {
    Row(LinkOf(n), OrElse(s.name, "User"), OrElse(s.photo, GeneratedAvatar(s.name)), Action(n.kind))
  }

  /** A like from a user whose profile has a photo: the page as written
      shows the generated avatar although both the profile and the
      notification carry the photo; the intended row shows it. */
  lemma CachedSenderLosesPhoto()
    ensures var p := EmptyProfile.(name := Some("Ravi"), photoURL := Some("https://example.com/r.jpg"));
            var n := Notification("like", Some("r1"), Some("Ravi"), Some("https://example.com/r.jpg"), Some("p1"), None);
            var cache := map["r1" := p];
            && RowFor(n, SenderAsWritten(cache, n)).avatar != "https://example.com/r.jpg"
            && RowFor(n, SenderOf(cache, n)).avatar == "https://example.com/r.jpg"
  {
    var p := EmptyProfile.(name := Some("Ravi"), photoURL := Some("https://example.com/r.jpg"));
    var n := Notification("like", Some("r1"), Some("Ravi"), Some("https://example.com/r.jpg"), Some("p1"), None);
    var cache := map["r1" := p];
    assert RowFor(n, SenderAsWritten(cache, n)).avatar[8] == 'u';
  }

  /** Without a cached profile both versions show the notification's own
      sender name and photo. */
  lemma UncachedSenderAgrees(usersMap: map<Uid, Profile>, n: Notification)
    requires n.senderId.None? || n.senderId.value !in usersMap
    ensures SenderAsWritten(usersMap, n) == SenderOf(usersMap, n) == Sender(n.senderName, n.senderPhoto)
  {
  }
}
