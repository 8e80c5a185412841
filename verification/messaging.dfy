/** Direct messages once a chat exists: sending a message (`Chat`
    page), finding the other participant, and the inbox rows with their
    fallback names, avatars and "You: " previews. */
module Messaging {
  import opened Base
  import opened Text
  import opened Model

  /** One chat document (`None` when it does not exist) and its `messages`
      subcollection in send order. */
  datatype Conversation = Conversation(chat: Option<Chat>, messages: seq<Message>)

  /** Result of pressing send: the conversation, the input box, and whether
      the failure alert was shown. */
  datatype SendResult = SendResult(conv: Conversation, input: string, alerted: bool)

  /** `handleSendMessage`. A blank input does nothing. Otherwise the input
      is cleared at once and the trimmed text is stored as a message (step
      0), then copied with the sender into the chat's summary (step 1). A
      signed-out sender, a failing step, or a missing chat document ends in
      the alert, keeping the earlier writes. */
  function SendMessage(c: Conversation, user: Option<Uid>, input: string, fault: Fault): (r: SendResult)
    ensures IsBlank(input) ==> r == SendResult(c, input, false)
    ensures !IsBlank(input) ==> r.input == ""
    ensures r.conv.messages == c.messages ||
            (user.Some? && r.conv.messages == c.messages + [Message(Trim(input), user.value)])
    ensures !IsBlank(input) && !r.alerted ==> Summarised(r.conv) && |r.conv.messages| == |c.messages| + 1
  {
    if IsBlank(input) then SendResult(c, input, false)
    else
      var text := Trim(input);
      if user.None? || !fault.Allows(0) then SendResult(c, "", true)
      else
        var c0 := c.(messages := c.messages + [Message(text, user.value)]);
        if c.chat.None? || !fault.Allows(1) then SendResult(c0, "", true)
        else SendResult(c0.(chat := Some(c.chat.value.(lastMessage := text, lastMessageBy := user))), "", false)
  }

  /** The chat's summary names the latest message and its sender. */
  predicate Summarised(c: Conversation) {
    && c.chat.Some? && |c.messages| > 0
    && c.chat.value.lastMessage == c.messages[|c.messages| - 1].text
    && c.chat.value.lastMessageBy == Some(c.messages[|c.messages| - 1].senderId)
  }

  /** A white-space-only message writes nothing and leaves the input. */
  lemma BlankMessageNoWrite(c: Conversation, user: Option<Uid>, input: string, fault: Fault)
    requires forall i :: 0 <= i < |input| ==> IsSpace(input[i])
    ensures SendMessage(c, user, input, fault) == SendResult(c, input, false)
  {
    BlankIffAllSpace(input);
  }

  /** A successful send appends exactly one message holding the trimmed,
      non-empty text, leaves the chat summarised by it, keeps the
      participants, and clears the input. */
  lemma SendStoresTrimmed(c: Conversation, u: Uid, input: string)
    requires !IsBlank(input) && c.chat.Some?
    ensures var r := SendMessage(c, Some(u), input, NoFault);
            && r.input == "" && !r.alerted
            && r.conv.messages == c.messages + [Message(Trim(input), u)]
            && Trim(input) != [] && !IsSpace(Trim(input)[0]) && !IsSpace(Trim(input)[|Trim(input)| - 1])
            && Summarised(r.conv)
            && r.conv.chat.value.participants == c.chat.value.participants
  {
  }

  /** A message sent into a chat whose document is missing is stored, but
      the summary is not written and the alert shows. */
  lemma SendWithoutChatDoc(c: Conversation, u: Uid, input: string)
    requires !IsBlank(input) && c.chat.None?
    ensures var r := SendMessage(c, Some(u), input, NoFault);
            r.alerted && r.conv.chat.None? && |r.conv.messages| == |c.messages| + 1
  {
  }

  /** `ps[i]` is the first uid in `ps` other than `me`. */
  predicate FirstOtherAt(ps: seq<Uid>, me: Uid, i: int) {
    0 <= i < |ps| && ps[i] != me && forall j :: 0 <= j < i ==> ps[j] == me
  }

  /** There is only one first other uid. */
  lemma FirstOtherUnique(ps: seq<Uid>, me: Uid, i: int, k: int)
    requires FirstOtherAt(ps, me, i) && FirstOtherAt(ps, me, k)
    ensures i == k
  {
  }

  /** `participants.find(uid => uid !== me)`. */
  function OtherParticipant(participants: seq<Uid>, me: Uid): (o: Option<Uid>)
    ensures o.None? <==> forall i :: 0 <= i < |participants| ==> participants[i] == me
    ensures o.Some? ==> exists i :: FirstOtherAt(participants, me, i) && participants[i] == o.value
    decreases |participants|
  {
    if |participants| == 0 then None
    else if participants[0] != me then
      assert FirstOtherAt(participants, me, 0);
      Some(participants[0])
    else
      var o := OtherParticipant(participants[1..], me);
      assert forall i :: 1 <= i < |participants| ==> participants[i] == participants[1..][i - 1];
      if o.Some? then
        ghost var k :| FirstOtherAt(participants[1..], me, k) && participants[1..][k] == o.value;
        assert FirstOtherAt(participants, me, k + 1);
        o
      else o
  }

  /** In a chat created by the get-or-create step, the other participant is
      the other user. */
  lemma OtherOfPair(a: Uid, b: Uid)
    requires a != b
    ensures OtherParticipant([a, b], a) == Some(b) && OtherParticipant([b, a], a) == Some(b)
  {
  }

  /** What the chat page does on load. */
  datatype ChatOpen = Redirect(path: string) | Opened(other: Option<(Uid, Profile)>)

  /** `fetchChatDetails`: a missing chat sends the user to the inbox;
      otherwise the other participant's profile is shown when there is a
      truthy other uid whose profile exists. */
  function OpenChatPage(chat: Option<Chat>, me: Uid, users: map<Uid, Profile>): (r: ChatOpen)
    ensures chat.None? <==> r == Redirect("/chats")
    ensures r.Opened? && r.other.Some? ==>
              && chat.Some? && OtherParticipant(chat.value.participants, me) == Some(r.other.value.0)
              && r.other.value.0 in users && r.other.value.1 == users[r.other.value.0]
              && r.other.value.0 != me && r.other.value.0 != ""
    ensures chat.Some? && Truthy(OtherParticipant(chat.value.participants, me))
            && OtherParticipant(chat.value.participants, me).value in users ==>
              r.Opened? && r.other.Some?
    ensures chat.Some? ==> r.Opened?
  {
    if chat.None? then Redirect("/chats")
    else
      var o := OtherParticipant(chat.value.participants, me);
      if Truthy(o) && o.value in users then Opened(Some((o.value, users[o.value]))) else Opened(None)
  }

  /** The other side of an inbox row: a fetched profile, or the literal
      fallback with name "Unknown User" and no photo. */
  datatype OtherUser = Known(profile: Profile) | Unknown

  /** The name an inbox row shows; a profile without a name shows nothing. */
  function OtherName(o: OtherUser): Option<string> {
    match o
    case Known(p) => p.name
    case Unknown => Some("Unknown User")
  }

  /** One resolved inbox row. */
  datatype InboxRow = InboxRow(id: string, chat: Chat, other: OtherUser)

  /** The other side of one chat: the first uid other than `me`, if truthy,
      and its profile when that exists; otherwise the fallback. */
  function ResolveOther(chat: Chat, me: Uid, users: map<Uid, Profile>): (o: OtherUser)
    ensures o.Known? <==> var id := OtherParticipant(chat.participants, me);
                         Truthy(id) && id.value in users
    ensures o.Known? ==> o.profile == users[OtherParticipant(chat.participants, me).value]
  {
    var id := OtherParticipant(chat.participants, me);
    if Truthy(id) && id.value in users then Known(users[id.value]) else Unknown
  }

  /** The inbox snapshot resolved row by row; `Promise.all` keeps the
      snapshot's order. */
  function ResolveInbox(snapshot: seq<(string, Chat)>, me: Uid, users: map<Uid, Profile>): (rows: seq<InboxRow>)
    ensures |rows| == |snapshot|
    ensures forall i :: 0 <= i < |snapshot| ==>
              rows[i] == InboxRow(snapshot[i].0, snapshot[i].1, ResolveOther(snapshot[i].1, me, users))
  {
    seq(|snapshot|, i requires 0 <= i < |snapshot| =>
      InboxRow(snapshot[i].0, snapshot[i].1, ResolveOther(snapshot[i].1, me, users)))
  }

  /** A chat with nobody else in it, or whose other user has no profile,
      shows "Unknown User". */
  lemma UnknownUserFallback(chat: Chat, me: Uid, users: map<Uid, Profile>)
    requires (forall i :: 0 <= i < |chat.participants| ==> chat.participants[i] == me)
             || (exists i :: FirstOtherAt(chat.participants, me, i) && chat.participants[i] !in users)
    ensures OtherName(ResolveOther(chat, me, users)) == Some("Unknown User")
  {
    var ps := chat.participants;
    if !(forall i :: 0 <= i < |ps| ==> ps[i] == me) {
      var i :| FirstOtherAt(ps, me, i) && ps[i] !in users;
      var o := OtherParticipant(ps, me);
      var k :| FirstOtherAt(ps, me, k) && ps[k] == o.value;
      FirstOtherUnique(ps, me, i, k);
    }
  }

  /** The preview line under a row: the last message, prefixed "You: "
      when the current user sent it. */
  function Preview(chat: Chat, me: Uid): (s: string)
    ensures chat.lastMessageBy == Some(me) ==> s == "You: " + chat.lastMessage
    ensures chat.lastMessageBy != Some(me) ==> s == chat.lastMessage
  {
    (if chat.lastMessageBy == Some(me) then "You: " else "") + chat.lastMessage
  }

  /** After a successful send, the sender's inbox previews the message with
      "You: " and the other participant's previews it bare. */
  lemma PreviewAfterSend(c: Conversation, me: Uid, other: Uid, input: string)
    requires !IsBlank(input) && c.chat.Some? && me != other
    ensures var r := SendMessage(c, Some(me), input, NoFault);
            && Preview(r.conv.chat.value, me) == "You: " + Trim(input)
            && Preview(r.conv.chat.value, other) == Trim(input)
  {
  }

  /** The avatar an inbox row shows as the page is written: it reads the
      field `photoUrl`, which profile documents never carry (they store
      `photoURL`), so every row gets the generated avatar. */
  function InboxAvatarAsWritten(o: OtherUser): string {
    GeneratedAvatar(OtherName(o))
  }

  /** The avatar evidently intended: the profile's stored photo when
      present, else the generated one. */
  function InboxAvatar(o: OtherUser): (s: string)
    ensures o.Known? && Truthy(o.profile.photoURL) ==> s == o.profile.photoURL.value
    ensures !(o.Known? && Truthy(o.profile.photoURL)) ==> s == GeneratedAvatar(OtherName(o))
  {
    if o.Known? && Truthy(o.profile.photoURL) then o.profile.photoURL.value
    else GeneratedAvatar(OtherName(o))
  }

  /** A user whose profile has a photo: the page as written still shows the
      generated avatar, the intended one shows the photo. */
  lemma InboxAvatarIgnoresPhoto()
    ensures var p := EmptyProfile.(name := Some("Asha"), photoURL := Some("https://example.com/a.jpg"));
            && InboxAvatarAsWritten(Known(p)) != "https://example.com/a.jpg"
            && InboxAvatar(Known(p)) == "https://example.com/a.jpg"
  {
    var p := EmptyProfile.(name := Some("Asha"), photoURL := Some("https://example.com/a.jpg"));
    assert InboxAvatarAsWritten(Known(p))[8] == 'u';
  }
}
