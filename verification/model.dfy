/** The documents of the hosted store that the handlers read and write,
    with only the fields some handler looks at. A field the source may find
    missing is an `Option`. */
module Model {
  import opened Base

  /** The signed-in account as the authentication provider reports it. */
  datatype AuthUser = AuthUser(
    uid: Uid,
    email: Option<string>,
    displayName: Option<string>,
    photoURL: Option<string>)

  /** The `socialLinks` record of a profile. */
  datatype SocialLinks = SocialLinks(
    instagram: Option<string>,
    linkedin: Option<string>,
    github: Option<string>,
    youtube: Option<string>)

  /** A `users/{uid}` profile document. A missing boolean flag reads as
      false. */
  datatype Profile = Profile(
    uid: Option<Uid>,
    name: Option<string>,
    username: Option<string>,
    email: Option<string>,
    branch: Option<string>,
    year: Option<string>,
    bio: Option<string>,
    college: Option<string>,
    photoURL: Option<string>,
    socialLinks: Option<SocialLinks>,
    role: Option<string>,
    isVerified: bool,
    isSuspended: bool,
    followerCount: Option<int>,
    followingCount: Option<int>)

  /** A profile document with no fields set. */
  const EmptyProfile: Profile :=
    Profile(None, None, None, None, None, None, None, None, None, None, None,
            false, false, None, None)

  /** A `users/{uid}/notifications/{id}` document; `kind` is its `type`
      field ("like", "comment", "follow"). */
  datatype Notification = Notification(
    kind: string,
    senderId: Option<Uid>,
    senderName: Option<string>,
    senderPhoto: Option<string>,
    postId: Option<string>,
    isRead: Option<bool>)

  /** One notification written into the subcollection of `recipient`. */
  datatype Delivery = Delivery(recipient: Uid, note: Notification)

  /** A `chats/{chatId}` document. */
  datatype Chat = Chat(
    participants: seq<Uid>,
    lastMessage: string,
    lastMessageBy: Option<Uid>)

  /** A `chats/{chatId}/messages/{id}` document. */
  datatype Message = Message(text: string, senderId: Uid)

  /** A comment under a post, assignment, roommate listing or study link. */
  datatype Comment = Comment(text: string, authorId: Option<Uid>, authorName: string)

  /** The hard-coded address of the site administrator. */
  const AdminEmail: string := "ajha10597@gmail.com"

  /** The avatar generated from a name when no photo is shown; a missing
      name is interpolated as "undefined". */
  function GeneratedAvatar(name: Option<string>): string {
    "https://ui-avatars.com/api/?name=" + (if name.Some? then name.value else "undefined") + "&background=random"
  }
}
