/** Replies under a post, confession, assignment or roommate listing
    (`CommentSection`) and comments under a study link (the study-links
    page's own comment section): the comment documents, the parent's
    denormalised `commentCount`, the "comment" notification and who may
    delete a reply. */
module Comments {
  import opened Base
  import opened Text
  import opened Model

  /** The parent document's fields a comment handler reads or writes. */
  datatype Parent = Parent(authorId: Option<Uid>, commentCount: Option<int>)

  /** One parent with its `comments` subcollection and the notifications
      written so far; `parent` is `None` when the document does not exist. */
  datatype Thread = Thread(parent: Option<Parent>, comments: map<string, Comment>, sent: seq<Delivery>)

  /** The comment count a parent shows (`commentCount || 0`). */
  function CountOf(t: Thread): int {
    if t.parent.Some? then CountOrZero(t.parent.value.commentCount) else 0
  }

  /** `updateDoc(parent, {commentCount: increment(delta)})`; `None` when the
      parent does not exist, where the store rejects the update. */
  function BumpCount(t: Thread, delta: int): (r: Option<Thread>)
    ensures t.parent.None? <==> r.None?
    ensures r.Some? ==> && r.value.parent.Some? && CountOf(r.value) == CountOf(t) + delta
                        && r.value.parent.value.authorId == t.parent.value.authorId
                        && r.value.comments == t.comments && r.value.sent == t.sent
  {
    if t.parent.None? then None
    else Some(t.(parent := Some(t.parent.value.(commentCount := Increment(t.parent.value.commentCount, delta)))))
  }

  /** The name stored with a reply and its notification: "Anonymous" on an
      anonymous board, otherwise the profile name, or "Anonymous" when the
      profile or its name is missing or empty. */
  function ReplyAuthorName(isAnonymous: bool, userData: Option<Profile>): (r: string)
    ensures isAnonymous ==> r == "Anonymous"
    ensures !isAnonymous && userData.Some? && Truthy(userData.value.name) ==> r == userData.value.name.value
    ensures !isAnonymous && (userData.None? || !Truthy(userData.value.name)) ==> r == "Anonymous"
    ensures r != ""
  {
    if isAnonymous then "Anonymous"
    else if userData.None? then "Anonymous"
    else OrElse(userData.value.name, "Anonymous")
  }

  /** Whether the parent's author gets a notification: the parent names an
      author and it is not the commenter. */
  predicate NotifiesAuthor(p: Parent, commenter: Uid) {
    Truthy(p.authorId) && p.authorId.value != commenter
  }

  /** Result of submitting the reply form: the thread and the input box. */
  datatype PostResult = PostResult(thread: Thread, input: string)

  /** `handlePostComment`. Nothing happens for a blank input or when signed
      out. Otherwise: the reply document under the store-chosen `freshId`
      with the input exactly as typed (step 0), the parent's counter (step
      1), and, when the parent names another author, the "comment"
      notification (step 2); then the input is cleared. A failing step, or
      a missing parent, leaves the earlier writes and the input as they are. */
  function PostComment(t: Thread, user: Option<AuthUser>, userData: Option<Profile>, isAnonymous: bool,
                       postId: string, input: string, freshId: string, fault: Fault): (r: PostResult)
    ensures r.thread.comments == t.comments ||
            (user.Some? && r.thread.comments == t.comments[freshId := Comment(input, Some(user.value.uid), ReplyAuthorName(isAnonymous, userData))])
    ensures r.input == input || r.input == ""
    ensures !IsBlank(input) && r.input == "" ==>
              && user.Some?
              && r.thread.comments == t.comments[freshId := Comment(input, Some(user.value.uid), ReplyAuthorName(isAnonymous, userData))]
              && CountOf(r.thread) == CountOf(t) + 1
  {
    if IsBlank(input) || user.None? then PostResult(t, input)
    else
      var u := user.value;
      var name := ReplyAuthorName(isAnonymous, userData);
      var t0 := t.(comments := t.comments[freshId := Comment(input, Some(u.uid), name)]);
      if !fault.Allows(0) then PostResult(t, input)
      else match BumpCount(t0, 1)
        case None => PostResult(t0, input)
        case Some(t1) =>
          if !fault.Allows(1) then PostResult(t0, input)
          else if !NotifiesAuthor(t1.parent.value, u.uid) then PostResult(t1, "")
          else if !fault.Allows(2) then PostResult(t1, input)
          else
            var note := Notification("comment", Some(u.uid), Some(name), u.photoURL, Some(postId), Some(false));
            PostResult(t1.(sent := t1.sent + [Delivery(t1.parent.value.authorId.value, note)]), "")
  }

  /** `handleDeleteComment` after the confirmation: the reply document is
      deleted (step 0, a no-op when already gone) and the parent's counter
      lowered (step 1). */
  function DeleteComment(t: Thread, commentId: string, fault: Fault): (r: Thread)
    ensures r == t || r.comments == t.comments - {commentId}
    ensures r.sent == t.sent
    ensures CountOf(r) == CountOf(t) || CountOf(r) == CountOf(t) - 1
    ensures fault.NoFault? && t.parent.Some? ==> commentId !in r.comments && CountOf(r) == CountOf(t) - 1
  {
    var t0 := t.(comments := t.comments - {commentId});
    if !fault.Allows(0) then t
    else match BumpCount(t0, -1)
      case None => t0
      case Some(t1) => if fault.Allows(1) then t1 else t0
  }

  /** A blank reply, or one from a signed-out visitor, writes nothing and
      leaves the input alone. */
  lemma BlankOrSignedOutNoWrite(t: Thread, user: Option<AuthUser>, userData: Option<Profile>, isAnonymous: bool,
                                postId: string, input: string, freshId: string, fault: Fault)
    requires (forall i :: 0 <= i < |input| ==> IsSpace(input[i])) || user.None?
    ensures PostComment(t, user, userData, isAnonymous, postId, input, freshId, fault) == PostResult(t, input)
  {
    BlankIffAllSpace(input);
  }

  /** A successful reply stores the input untrimmed under the new id,
      raises the parent's count by one and clears the input; a notification
      goes out exactly when the parent names an author other than the
      commenter, addressed to that author and unread. */
  lemma PostCommentWrites(t: Thread, user: AuthUser, userData: Option<Profile>, isAnonymous: bool,
                          postId: string, input: string, freshId: string)
    requires !IsBlank(input) && t.parent.Some? && freshId !in t.comments
    ensures var r := PostComment(t, Some(user), userData, isAnonymous, postId, input, freshId, NoFault);
            && r.input == ""
            && r.thread.comments.Keys == t.comments.Keys + {freshId}
            && r.thread.comments[freshId] == Comment(input, Some(user.uid), ReplyAuthorName(isAnonymous, userData))
            && (forall id :: id in t.comments ==> r.thread.comments[id] == t.comments[id])
            && CountOf(r.thread) == CountOf(t) + 1
            && (!NotifiesAuthor(t.parent.value, user.uid) ==> r.thread.sent == t.sent)
            && (NotifiesAuthor(t.parent.value, user.uid) ==>
                  && r.thread.sent[..|t.sent|] == t.sent
                  && |r.thread.sent| == |t.sent| + 1
                  && r.thread.sent[|t.sent|].recipient == t.parent.value.authorId.value
                  && r.thread.sent[|t.sent|].note.kind == "comment"
                  && r.thread.sent[|t.sent|].note.postId == Some(postId)
                  && r.thread.sent[|t.sent|].note.isRead == Some(false))
  {
    var name := ReplyAuthorName(isAnonymous, userData);
    var t0 := t.(comments := t.comments[freshId := Comment(input, Some(user.uid), name)]);
    var t1 := BumpCount(t0, 1).value;
    var r := PostComment(t, Some(user), userData, isAnonymous, postId, input, freshId, NoFault);
    assert t1.parent.value.authorId == t.parent.value.authorId;
    if NotifiesAuthor(t1.parent.value, user.uid) {
      var note := Notification("comment", Some(user.uid), Some(name), user.photoURL, Some(postId), Some(false));
      assert r == PostResult(t1.(sent := t.sent + [Delivery(t.parent.value.authorId.value, note)]), "");
    } else {
      assert r == PostResult(t1, "");
    }
  }

  /** Replying under a parent that no longer exists stores the reply but no
      count, sends nothing and keeps the input. */
  lemma PostCommentMissingParent(t: Thread, user: AuthUser, userData: Option<Profile>, isAnonymous: bool,
                                 postId: string, input: string, freshId: string)
    requires !IsBlank(input) && t.parent.None?
    ensures var r := PostComment(t, Some(user), userData, isAnonymous, postId, input, freshId, NoFault);
            && r.input == input && freshId in r.thread.comments
            && r.thread.parent.None? && r.thread.sent == t.sent
  {
  }

  /** Adding a reply and then deleting it restores the replies, the
      displayed count and the parent's author. */
  lemma AddThenDeleteRestores(t: Thread, user: AuthUser, userData: Option<Profile>, isAnonymous: bool,
                              postId: string, input: string, freshId: string)
    requires !IsBlank(input) && t.parent.Some? && freshId !in t.comments
    ensures var r := PostComment(t, Some(user), userData, isAnonymous, postId, input, freshId, NoFault);
            var t2 := DeleteComment(r.thread, freshId, NoFault);
            && t2.comments == t.comments
            && CountOf(t2) == CountOf(t)
            && t2.parent.Some? && t2.parent.value.authorId == t.parent.value.authorId
  {
    var r := PostComment(t, Some(user), userData, isAnonymous, postId, input, freshId, NoFault);
    PostCommentWrites(t, user, userData, isAnonymous, postId, input, freshId);
    var t0 := r.thread.(comments := r.thread.comments - {freshId});
    assert t0.comments == t.comments;
    assert DeleteComment(r.thread, freshId, NoFault) == BumpCount(t0, -1).value;
  }

  /** `user?.uid`. */
  function ViewerId(user: Option<AuthUser>): Option<Uid> {
    if user.Some? then Some(user.value.uid) else None
  }

  /** Whether the reply's delete button shows: for its author, for the
      account whose profile email is the administrator's, and for a profile
      with role "admin". */
  predicate CanDeleteReply(user: Option<AuthUser>, userData: Option<Profile>, c: Comment) {
    || ViewerId(user) == c.authorId
    || (userData.Some? && userData.value.email == Some(AdminEmail))
    || (userData.Some? && userData.value.role == Some("admin"))
  }

  /** A signed-in visitor who is neither the author nor an administrator
      never sees the button; each of the three kinds of viewer does. */
  lemma ReplyDeleteVisibility(user: Option<AuthUser>, userData: Option<Profile>, c: Comment)
    ensures user.Some? && c.authorId == Some(user.value.uid) ==> CanDeleteReply(user, userData, c)
    ensures userData.Some? && userData.value.email == Some(AdminEmail) ==> CanDeleteReply(user, userData, c)
    ensures userData.Some? && userData.value.role == Some("admin") ==> CanDeleteReply(user, userData, c)
    ensures user.Some? && c.authorId != Some(user.value.uid)
            && (userData.None? || (userData.value.email != Some(AdminEmail) && userData.value.role != Some("admin")))
            ==> !CanDeleteReply(user, userData, c)
  {
  }

  /** `undefined === undefined`: a signed-out visitor sees the button on a
      reply that has no author id. */
  lemma SignedOutSeesDeleteOnAuthorless(c: Comment)
    requires c.authorId.None?
    ensures CanDeleteReply(None, None, c)
  {
  }

  /** The study-links comment form: only a blank input is refused; a
      signed-out visitor makes `user.uid` throw inside the try, so nothing
      is written. The comment (step 0) is named by the display name or
      "User", then the link's counter is raised (step 1), and the input is
      cleared. There is no notification. */
  function LinkAddComment(t: Thread, user: Option<AuthUser>, input: string, freshId: string, fault: Fault): (r: PostResult)
    ensures r.thread.sent == t.sent
    ensures r.thread.comments == t.comments ||
            (user.Some? && r.thread.comments == t.comments[freshId := Comment(input, Some(user.value.uid), OrElse(user.value.displayName, "User"))])
    ensures r.input == input || r.input == ""
    ensures !IsBlank(input) && r.input == "" ==>
              && user.Some?
              && r.thread.comments == t.comments[freshId := Comment(input, Some(user.value.uid), OrElse(user.value.displayName, "User"))]
              && CountOf(r.thread) == CountOf(t) + 1
  {
    if IsBlank(input) || user.None? then PostResult(t, input)
    else
      var u := user.value;
      var t0 := t.(comments := t.comments[freshId := Comment(input, Some(u.uid), OrElse(u.displayName, "User"))]);
      if !fault.Allows(0) then PostResult(t, input)
      else match BumpCount(t0, 1)
        case None => PostResult(t0, input)
        case Some(t1) => if fault.Allows(1) then PostResult(t1, "") else PostResult(t0, input)
  }

  /** A link comment stores the input under the new id, named by the display
      name or "User", raises the link's count by one and sends nothing;
      deleting it again restores the comments and the count. */
  lemma LinkCommentRoundTrip(t: Thread, user: AuthUser, input: string, freshId: string)
    requires !IsBlank(input) && t.parent.Some? && freshId !in t.comments
    ensures var r := LinkAddComment(t, Some(user), input, freshId, NoFault);
            && r.input == ""
            && r.thread.comments == t.comments[freshId := Comment(input, Some(user.uid), OrElse(user.displayName, "User"))]
            && CountOf(r.thread) == CountOf(t) + 1
            && r.thread.sent == t.sent
            && DeleteComment(r.thread, freshId, NoFault).comments == t.comments
            && CountOf(DeleteComment(r.thread, freshId, NoFault)) == CountOf(t)
  {
    var r := LinkAddComment(t, Some(user), input, freshId, NoFault);
    assert r.thread.comments - {freshId} == t.comments;
  }

  /** A signed-out visitor's link comment writes nothing. */
  lemma LinkCommentSignedOut(t: Thread, input: string, freshId: string, fault: Fault)
    ensures LinkAddComment(t, None, input, freshId, fault) == PostResult(t, input)
  {
  }

  /** Whether a link comment's delete button shows: for its author only. */
  predicate CanDeleteLinkComment(user: Option<AuthUser>, c: Comment) {
    ViewerId(user) == c.authorId
  }

  /** Only the author of a link comment sees its delete button; being an
      administrator does not help, unlike on replies. */
  lemma LinkCommentDeleteAuthorOnly(u: AuthUser, c: Comment)
    ensures CanDeleteLinkComment(Some(u), c) <==> c.authorId == Some(u.uid)
  {
  }

  /** The "Discuss (n)" label: the stored count, 0 when missing, and never
      below 0. */
  function DiscussCount(commentCount: Option<int>): (n: nat)
    ensures commentCount.None? ==> n == 0
    ensures commentCount.Some? && commentCount.value >= 0 ==> n == commentCount.value
    ensures commentCount.Some? && commentCount.value < 0 ==> n == 0
  {
    var c := CountOrZero(commentCount);
    if c < 0 then 0 else c
  }
}
