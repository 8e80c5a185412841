/** The admin dashboard's moderation operations: pinning a feed post,
    deleting content, suspending a user, and the one-off `isPinned`
    backfill. Each writes the store and then patches the dashboard's local
    list the same way. */
module Moderation {
  import opened Base
  import opened Seqs
  import opened Model

  /** The content tabs, in the order the dashboard lists them. */
  datatype Category = Posts | Assignments | RoommatePosts | Confessions

  /** The collection name behind each tab. */
  function CollectionOf(c: Category): string {
    match c
    case Posts => "posts"
    case Assignments => "assignments"
    case RoommatePosts => "roommate_posts"
    case Confessions => "confessions"
  }

  const Categories: seq<Category> := [Posts, Assignments, RoommatePosts, Confessions]

  /** Distinct tabs read distinct collections. */
  lemma CollectionOfInjective(a: Category, b: Category)
    ensures CollectionOf(a) == CollectionOf(b) <==> a == b
  {
  }

  /** A content document as the dashboard holds it; `body` stands for the
      fields moderation never touches. */
  datatype Content = Content(id: string, isPinned: Option<bool>, body: string)

  /** The documents of one collection. */
  type Docs = map<string, Content>

  /** `!value` of a possibly missing boolean. */
  function Not(b: Option<bool>): bool {
    !(b.Some? && b.value)
  }

  /** `content.map(p => p.id === id ? {...p, isPinned: v} : p)`. */
  function SetPinned(xs: seq<Content>, id: string, v: bool): (r: seq<Content>)
    ensures |r| == |xs|
    ensures forall i :: 0 <= i < |xs| ==>
              r[i] == if xs[i].id == id then xs[i].(isPinned := Some(v)) else xs[i]
  {
    seq(|xs|, i requires 0 <= i < |xs| => if xs[i].id == id then xs[i].(isPinned := Some(v)) else xs[i])
  }

  /** The dashboard's store and local list for the selected tab. */
  datatype Board = Board(docs: Docs, content: seq<Content>)

  /** `handlePinPost(postId, currentStatus)`, where the button passes the
      item's own `isPinned`: only on the posts tab; writes the negation and
      mirrors it locally. A rejected write (a missing post, or `ok` false)
      changes nothing. */
  function PinPost(c: Category, b: Board, postId: string, current: Option<bool>, ok: bool): (r: Board)
    ensures c != Posts ==> r == b
    ensures c == Posts && postId in b.docs && ok ==>
              && r.docs == b.docs[postId := b.docs[postId].(isPinned := Some(Not(current)))]
              && |r.content| == |b.content|
              && forall i :: 0 <= i < |b.content| ==>
                   if b.content[i].id == postId
                   then r.content[i] == b.content[i].(isPinned := Some(Not(current)))
                   else r.content[i] == b.content[i]
    ensures c == Posts && (postId !in b.docs || !ok) ==> r == b
  {
    if c != Posts || postId !in b.docs || !ok then b
    else Board(b.docs[postId := b.docs[postId].(isPinned := Some(Not(current)))],
               SetPinned(b.content, postId, Not(current)))
  }

  /** Pinning from the button twice, on a post whose flag is set, restores
      the flag both in the store and in the list; a post without the flag
      ends up unpinned with the flag set to false. */
  lemma PinTwice(b: Board, postId: string, i: nat)
    requires postId in b.docs && i < |b.content| && b.content[i].id == postId
    requires b.docs[postId].isPinned == b.content[i].isPinned
    ensures var b1 := PinPost(Posts, b, postId, b.content[i].isPinned, true);
            var b2 := PinPost(Posts, b1, postId, b1.content[i].isPinned, true);
            && b2.docs[postId].isPinned == b2.content[i].isPinned
            && (b.content[i].isPinned.Some? ==> b2.content[i] == b.content[i] && b2.docs[postId] == b.docs[postId])
            && (b.content[i].isPinned.None? ==> b2.content[i].isPinned == Some(false))
  {
  }

  /** `handleDeleteContent(itemId)` after the confirmation: the document is
      deleted (a no-op when already gone) and the item dropped from the
      list; `ok` false is a rejected delete, which changes nothing. */
  function DeleteContent(b: Board, itemId: string, ok: bool): (r: Board)
    ensures !ok ==> r == b
    ensures ok ==> && r.docs == b.docs - {itemId}
                   && (forall x :: x in r.content <==> x in b.content && x.id != itemId)
                   && Subseq(r.content, b.content)
  {
    if !ok then b
    else
      var keep := (x: Content) => x.id != itemId;
      FilterIsSubseq(b.content, keep);
      Board(b.docs - {itemId}, Filter(b.content, keep))
  }

  /** A row of the dashboard's user list. */
  datatype UserRow = UserRow(id: Uid, profile: Profile)

  /** The user tab's store and list. */
  datatype UserBoard = UserBoard(users: map<Uid, Profile>, rows: seq<UserRow>)

  /** `users.map(u => u.id === id ? {...u, isSuspended: v} : u)`. */
  function SetSuspended(rows: seq<UserRow>, id: Uid, v: bool): (r: seq<UserRow>)
    ensures |r| == |rows|
    ensures forall i :: 0 <= i < |rows| ==>
              r[i] == if rows[i].id == id then rows[i].(profile := rows[i].profile.(isSuspended := v)) else rows[i]
  {
    seq(|rows|, i requires 0 <= i < |rows| =>
      if rows[i].id == id then rows[i].(profile := rows[i].profile.(isSuspended := v)) else rows[i])
  }

  /** `handleSuspendUser(userId, currentStatus)` after the confirmation:
      writes the negated flag to the profile and mirrors it in the list; a
      missing profile or a rejected write changes nothing. */
  function SuspendUser(b: UserBoard, userId: Uid, current: bool, ok: bool): (r: UserBoard)
    ensures userId in b.users && ok ==>
              && r.users == b.users[userId := b.users[userId].(isSuspended := !current)]
              && |r.rows| == |b.rows|
              && forall i :: 0 <= i < |b.rows| ==>
                   (b.rows[i].id == userId ==>
                      r.rows[i] == b.rows[i].(profile := b.rows[i].profile.(isSuspended := !current)))
                   && (b.rows[i].id != userId ==> r.rows[i] == b.rows[i])
    ensures userId !in b.users || !ok ==> r == b
  {
    if userId !in b.users || !ok then b
    else UserBoard(b.users[userId := b.users[userId].(isSuspended := !current)],
                   SetSuspended(b.rows, userId, !current))
  }

  /** Suspending and then unsuspending from the list restores the profile
      and the row. */
  lemma SuspendTwiceRestores(b: UserBoard, userId: Uid, i: nat)
    requires userId in b.users && i < |b.rows| && b.rows[i].id == userId
    requires b.users[userId] == b.rows[i].profile
    ensures var b1 := SuspendUser(b, userId, b.rows[i].profile.isSuspended, true);
            var b2 := SuspendUser(b1, userId, b1.rows[i].profile.isSuspended, true);
            b2.users == b.users && b2.rows[i] == b.rows[i]
  {
    var b1 := SuspendUser(b, userId, b.rows[i].profile.isSuspended, true);
    var b2 := SuspendUser(b1, userId, b1.rows[i].profile.isSuspended, true);
    assert b2.users[userId] == b.users[userId];
  }

  /** Number of snapshot documents without an `isPinned` field. */
  function Unset(snapshot: seq<Content>): nat
    decreases |snapshot|
  {
    if |snapshot| == 0 then 0
    else Unset(snapshot[..|snapshot| - 1]) + (if snapshot[|snapshot| - 1].isPinned.None? then 1 else 0)
  }

  /** `handleMigratePosts` after the confirmation: every post of the
      snapshot whose `isPinned` is undefined gets `isPinned: false`; the
      others are left as they are; `count` is the number fixed. */
  method MigratePosts(snapshot: seq<Content>) returns (fixed: seq<Content>, count: nat)
    ensures |fixed| == |snapshot|
    ensures forall i :: 0 <= i < |snapshot| ==>
              fixed[i] == if snapshot[i].isPinned.None? then snapshot[i].(isPinned := Some(false)) else snapshot[i]
    ensures count == Unset(snapshot)
  {
    fixed := [];
    count := 0;
    var i := 0;
    while i < |snapshot|
      invariant 0 <= i <= |snapshot|
      invariant |fixed| == i
      invariant forall j :: 0 <= j < i ==>
                  fixed[j] == if snapshot[j].isPinned.None? then snapshot[j].(isPinned := Some(false)) else snapshot[j]
      invariant count == Unset(snapshot[..i])
    {
      assert snapshot[..i + 1][..i] == snapshot[..i];
      if snapshot[i].isPinned.None? {
        fixed := fixed + [snapshot[i].(isPinned := Some(false))];
        count := count + 1;
      } else {
        fixed := fixed + [snapshot[i]];
      }
      i := i + 1;
    }
    assert snapshot[..i] == snapshot;
  }

  /** A snapshot with every flag set has nothing to fix. */
  lemma {:induction false} UnsetZero(snapshot: seq<Content>)
    requires forall i :: 0 <= i < |snapshot| ==> snapshot[i].isPinned.Some?
    ensures Unset(snapshot) == 0
    decreases |snapshot|
  {
    if |snapshot| > 0 {
      UnsetZero(snapshot[..|snapshot| - 1]);
    }
  }

  /** The migration is idempotent: run again on its own result it fixes no
      post and changes nothing. */
  method MigrateTwice(snapshot: seq<Content>) returns (first: nat, second: nat, same: bool)
    ensures second == 0 && same
    ensures first == Unset(snapshot)
  {
    var fixed1, c1 := MigratePosts(snapshot);
    var fixed2, c2 := MigratePosts(fixed1);
    UnsetZero(fixed1);
    first, second, same := c1, c2, fixed2 == fixed1;
  }
}
