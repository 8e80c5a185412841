/** Liking a post (`PostCard.toggleLike`): the post's `likes` array, the
    per-user like documents under it, the "like" notification to the
    author, and the card's optimistic local copy with its revert on error. */
module Likes {
  import opened Base
  import opened Text
  import opened Seqs
  import opened Model

  /** The `post` prop the card was rendered with. */
  datatype PostInfo = PostInfo(id: string, authorId: Uid, likes: Option<seq<Uid>>)

  /** The stored state a like touches: the post's `likes` field, the ids of
      the `posts/{id}/likes` documents, and the notifications written. */
  datatype LikeStore = LikeStore(likes: Option<seq<Uid>>, likers: set<Uid>, sent: seq<Delivery>)

  /** The card's local state: `hasLiked` and `localLikes`. */
  datatype LikeView = LikeView(hasLiked: bool, localLikes: seq<Uid>)

  /** Whether the array field holds the uid (`likes?.includes(uid)`). */
  predicate HasUid(likes: Option<seq<Uid>>, u: Uid) {
    likes.Some? && u in likes.value
  }

  /** The local state after the effect runs for the current `user` and
      `post.likes`. */
  function InitialView(likes: Option<seq<Uid>>, user: Option<AuthUser>): (v: LikeView)
    ensures v.hasLiked <==> user.Some? && HasUid(likes, user.value.uid)
    ensures likes.Some? ==> v.localLikes == likes.value
    ensures likes.None? ==> v.localLikes == []
  {
    LikeView(user.Some? && HasUid(likes, user.value.uid), likes.GetOr([]))
  }

  /** The name a notification carries: the display name when truthy, else
      the part of the email before "@"; `None` when there is no email, where
      the source's `split` throws. */
  function SenderName(user: AuthUser): (r: Option<string>)
    ensures Truthy(user.displayName) ==> r == user.displayName
    ensures !Truthy(user.displayName) && user.email.None? ==> r.None?
    ensures !Truthy(user.displayName) && user.email.Some? ==>
              && r.Some? && '@' !in r.value && StartsWith(user.email.value, r.value)
              && (|r.value| == |user.email.value| || user.email.value[|r.value|] == '@')
  {
    if Truthy(user.displayName) then user.displayName
    else if user.email.None? then None
    else Some(BeforeFirst(user.email.value, '@'))
  }

  /** The "like" notification for the author of `post`. */
  function LikeNote(post: PostInfo, user: AuthUser, name: string): Notification {
    Notification("like", Some(user.uid), Some(name), user.photoURL, Some(post.id), Some(false))
  }

  /** Result of a click on the heart. */
  datatype LikeOutcome = LikeOutcome(store: LikeStore, view: LikeView)

  /** `toggleLike`. The unlike path writes the array removal (step 0) and
      deletes the like document (step 1); the like path writes the array
      union (step 0), the like document (step 1) and, when the liker is not
      the author, the notification (step 2). `fault` makes the store reject
      a step; the writes before it stay, and the catch block resets the local
      state from the `post` prop. */
  function ToggleLike(s: LikeStore, post: PostInfo, user: Option<AuthUser>, v: LikeView, fault: Fault)
    : (o: LikeOutcome)
    ensures user.Some? ==> forall x :: x != user.value.uid ==> (x in o.store.likers <==> x in s.likers)
    ensures user.Some? ==> forall x :: x != user.value.uid ==> Count(o.store.likes.GetOr([]), x) == Count(s.likes.GetOr([]), x)
    ensures o.store.sent == s.sent ||
            (&& user.Some? && !v.hasLiked && post.authorId != user.value.uid
             && SenderName(user.value).Some?
             && o.store.sent == s.sent + [Delivery(post.authorId, LikeNote(post, user.value, SenderName(user.value).value))])
  {
    if user.None? then LikeOutcome(s, v)
    else
      var u := user.value.uid;
      var revert := InitialView(post.likes, user);
      if v.hasLiked then
        var s0 := s.(likes := Some(ArrayRemove(s.likes.GetOr([]), u)));
        var s1 := s0.(likers := s0.likers - {u});
        if !fault.Allows(0) then LikeOutcome(s, revert)
        else if !fault.Allows(1) then LikeOutcome(s0, revert)
        else LikeOutcome(s1, LikeView(false, Filter(v.localLikes, x => x != u)))
      else
        var s0 := s.(likes := Some(ArrayUnion(s.likes.GetOr([]), u)));
        var s1 := s0.(likers := s0.likers + {u});
        var local := LikeView(true, v.localLikes + [u]);
        if !fault.Allows(0) then LikeOutcome(s, revert)
        else if !fault.Allows(1) then LikeOutcome(s0, revert)
        else if post.authorId == u then LikeOutcome(s1, local)
        else match SenderName(user.value)
          case None => LikeOutcome(s1, revert)
          case Some(name) =>
            if !fault.Allows(2) then LikeOutcome(s1, revert)
            else LikeOutcome(s1.(sent := s1.sent + [Delivery(post.authorId, LikeNote(post, user.value, name))]), local)
  }

  /** A click while signed out changes nothing. */
  lemma SignedOutNoop(s: LikeStore, post: PostInfo, v: LikeView, fault: Fault)
    ensures ToggleLike(s, post, None, v, fault) == LikeOutcome(s, v)
  {
  }

  /** Liking adds the uid to `likes` once, creates the like document, shows
      the heart filled with the uid appended locally, and leaves the rest of
      the array's contents alone. */
  lemma LikeAdds(s: LikeStore, post: PostInfo, user: AuthUser, v: LikeView)
    requires !v.hasLiked
    requires post.authorId == user.uid || SenderName(user).Some?
    ensures var o := ToggleLike(s, post, Some(user), v, NoFault);
            && o.store.likes.Some? && user.uid in o.store.likes.value
            && Count(o.store.likes.value, user.uid) == (if HasUid(s.likes, user.uid) then Count(s.likes.value, user.uid) else 1)
            && (forall x :: x != user.uid ==> Count(o.store.likes.value, x) == Count(s.likes.GetOr([]), x))
            && o.store.likers == s.likers + {user.uid}
            && o.view == LikeView(true, v.localLikes + [user.uid])
  {
  }

  /** Unliking removes every occurrence of the uid from `likes`, deletes the
      like document, and clears the heart, removing the uid locally too. */
  lemma UnlikeRemoves(s: LikeStore, post: PostInfo, user: AuthUser, v: LikeView)
    requires v.hasLiked
    ensures var o := ToggleLike(s, post, Some(user), v, NoFault);
            && o.store.likes.Some? && user.uid !in o.store.likes.value
            && (forall x :: x != user.uid ==> Count(o.store.likes.value, x) == Count(s.likes.GetOr([]), x))
            && o.store.likers == s.likers - {user.uid}
            && o.store.sent == s.sent
            && !o.view.hasLiked && user.uid !in o.view.localLikes
  {
  }

  /** A "like" notification is written exactly when the liker is not the
      author, addressed to the author and unread. */
  lemma NotifiesOnlyOthers(s: LikeStore, post: PostInfo, user: AuthUser, v: LikeView)
    requires !v.hasLiked && SenderName(user).Some?
    ensures var o := ToggleLike(s, post, Some(user), v, NoFault);
            && (post.authorId == user.uid ==> o.store.sent == s.sent)
            && (post.authorId != user.uid ==>
                  && |o.store.sent| == |s.sent| + 1
                  && o.store.sent[..|s.sent|] == s.sent
                  && o.store.sent[|s.sent|].recipient == post.authorId
                  && o.store.sent[|s.sent|].note.kind == "like"
                  && o.store.sent[|s.sent|].note.senderId == Some(user.uid)
                  && o.store.sent[|s.sent|].note.isRead == Some(false))
  {
  }

  /** The unlike path never writes a notification, and neither does a
      click by the post's author. */
  lemma NoNoteWithoutLikeByOther(s: LikeStore, post: PostInfo, user: AuthUser, v: LikeView, fault: Fault)
    requires v.hasLiked || post.authorId == user.uid
    ensures ToggleLike(s, post, Some(user), v, fault).store.sent == s.sent
  {
  }

  /** Whenever a step fails the local state is exactly what a fresh render
      of the `post` prop shows. */
  lemma ErrorReverts(s: LikeStore, post: PostInfo, user: AuthUser, v: LikeView, fault: Fault)
    requires fault.FailAt?
    requires fault.step < 2 || (fault.step == 2 && !v.hasLiked && post.authorId != user.uid)
    ensures ToggleLike(s, post, Some(user), v, fault).view == InitialView(post.likes, Some(user))
  {
  }

  /** A liker with neither display name nor email, liking someone else's
      post, has the like stored but sees the card revert. */
  lemma NamelessLikeKeptButReverted(s: LikeStore, post: PostInfo, user: AuthUser, v: LikeView)
    requires !v.hasLiked && post.authorId != user.uid
    requires !Truthy(user.displayName) && user.email.None?
    ensures var o := ToggleLike(s, post, Some(user), v, NoFault);
            && o.store.likes == Some(ArrayUnion(s.likes.GetOr([]), user.uid))
            && user.uid in o.store.likers
            && o.store.sent == s.sent
            && o.view == InitialView(post.likes, Some(user))
  {
  }

  /** The local `filter` drops the uid exactly as the store's `arrayRemove`
      does. */
  lemma {:induction false} FilterOutIsRemove(xs: seq<Uid>, u: Uid)
    ensures Filter(xs, x => x != u) == ArrayRemove(xs, u)
    decreases |xs|
  {
    if |xs| > 0 {
      FilterOutIsRemove(xs[1..], u);
    }
  }

  /** Whether the local copy mirrors the stored array. */
  predicate Mirrors(v: LikeView, s: LikeStore, u: Uid) {
    v.localLikes == s.likes.GetOr([]) && (v.hasLiked <==> u in v.localLikes)
  }

  /** A successful click keeps the local copy equal to the stored array. */
  lemma LocalMirrorsStore(s: LikeStore, post: PostInfo, user: AuthUser, v: LikeView)
    requires Mirrors(v, s, user.uid)
    requires v.hasLiked || post.authorId == user.uid || SenderName(user).Some?
    ensures var o := ToggleLike(s, post, Some(user), v, NoFault);
            Mirrors(o.view, o.store, user.uid)
  {
    FilterOutIsRemove(v.localLikes, user.uid);
  }

  /** A like followed by an unlike, on a post the user had not liked,
      restores the `likes` array, the like documents and the local copy. */
  lemma LikeThenUnlikeRestores(s: LikeStore, post: PostInfo, user: AuthUser, v: LikeView)
    requires s.likes.Some? && user.uid !in s.likes.value && user.uid !in s.likers
    requires !v.hasLiked && user.uid !in v.localLikes
    requires post.authorId == user.uid || SenderName(user).Some?
    ensures var o1 := ToggleLike(s, post, Some(user), v, NoFault);
            var o2 := ToggleLike(o1.store, post, Some(user), o1.view, NoFault);
            && o2.store.likes == s.likes
            && o2.store.likers == s.likers
            && o2.view == v
  {
    var u := user.uid;
    var o1 := ToggleLike(s, post, Some(user), v, NoFault);
    UnionThenRemove(s.likes.value, u);
    FilterOutIsRemove(v.localLikes + [u], u);
    ArrayRemoveAppend(v.localLikes, u);
    assert o1.store.likers - {u} == s.likers;
  }
}
