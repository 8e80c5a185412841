/** Deterministic direct-message addressing: the id of the chat between two
    users is their two uids sorted and joined with "_", and the chat
    document under that id is created only when it does not exist yet. The
    same get-or-create step is repeated by the profile page, the assignment
    card, the study-links page and the marketplace. */
module ChatAddressing {
  import opened Base
  import opened Text
  import opened Model

  /** The `chats` collection: chat id to chat document. */
  type Chats = map<string, Chat>

  /** `[a, b].sort()`: the two uids in string order, `a` first on a tie. */
  function SortPair(a: Uid, b: Uid): (p: seq<Uid>)
    ensures |p| == 2 && multiset(p) == multiset{a, b}
    ensures !LexLess(p[1], p[0])
  {
    LexTrichotomy(a, b);
    if LexLess(b, a) then [b, a] else [a, b]
  }

  /** `${p[0]}_${p[1]}` over the sorted pair. */
  function ChatId(a: Uid, b: Uid): string {
    var p := SortPair(a, b);
    p[0] + "_" + p[1]
  }

  /** Sorting forgets which user came first. */
  lemma SortPairSymmetric(a: Uid, b: Uid)
    ensures SortPair(a, b) == SortPair(b, a)
  {
    LexTrichotomy(a, b);
  }

  /** The chat id is the same whichever of the two users initiates. */
  lemma ChatIdSymmetric(a: Uid, b: Uid)
    ensures ChatId(a, b) == ChatId(b, a)
  {
    SortPairSymmetric(a, b);
  }

  /** Whether a string avoids the separator. */
  predicate NoSeparator(s: string) {
    '_' !in s
  }

  /** For uids without "_" (the provider's generated uids are alphanumeric)
      the id determines the unordered pair: distinct pairs never share a
      chat document. */
  lemma ChatIdInjective(a: Uid, b: Uid, c: Uid, d: Uid)
    requires NoSeparator(a) && NoSeparator(b) && NoSeparator(c) && NoSeparator(d)
    requires ChatId(a, b) == ChatId(c, d)
    ensures multiset{a, b} == multiset{c, d}
  {
    var p, q := SortPair(a, b), SortPair(c, d);
    JoinInjective(p[0], p[1], q[0], q[1]);
    assert p == q;
  }

  /** `x + "_" + y` splits back at its only separator. */
  lemma JoinInjective(x: string, y: string, u: string, v: string)
    requires NoSeparator(x) && NoSeparator(y) && NoSeparator(u) && NoSeparator(v)
    requires x + "_" + y == u + "_" + v
    ensures x == u && y == v
  {
    var s := x + "_" + y;
    if |x| < |u| {
      SeparatorAt(x, y, u, v);
      assert false;
    } else if |u| < |x| {
      SeparatorAt(u, v, x, y);
      assert false;
    }
    assert x == s[..|x|] == u;
    assert y == s[|x| + 1..] == v;
  }

  /** The separator after a shorter prefix would fall inside the longer
      one. */
  lemma SeparatorAt(x: string, y: string, u: string, v: string)
    requires |x| < |u| && x + "_" + y == u + "_" + v
    ensures u[|x|] == '_'
  {
    assert (x + "_" + y)[|x|] == '_';
    assert (u + "_" + v)[|x|] == u[|x|];
  }

  /** Without that restriction two different pairs can collide. */
  lemma ChatIdCollidesWithSeparator()
    ensures ChatId("a_b", "c") == ChatId("a", "b_c")
    ensures multiset{"a_b", "c"} != multiset{"a", "b_c"}
  {
    assert LexLess("a_b", "c");
    assert LexLess("a", "b_c");
    assert "a_b" !in multiset{"a", "b_c"};
  }

  /** The get-or-create step: look up the chat id and write a new chat
      document (sorted participants, `lastMessage` = `greeting`, no sender)
      only when none exists; `ok` is whether the store accepts that write.
      Returns the new collection and the id to navigate to, or `None` when
      the write failed (the handler then alerts and stays). */
  function GetOrCreate(chats: Chats, me: Uid, other: Uid, greeting: string, ok: bool)
    : (r: (Chats, Option<string>))
    ensures ChatId(me, other) in chats ==>
              r == (chats, Some(ChatId(me, other)))
    ensures ChatId(me, other) !in chats && ok ==>
              && r.1 == Some(ChatId(me, other))
              && r.0.Keys == chats.Keys + {ChatId(me, other)}
              && r.0[ChatId(me, other)] == Chat(SortPair(me, other), greeting, None)
              && forall id :: id in chats ==> r.0[id] == chats[id]
    ensures ChatId(me, other) !in chats && !ok ==> r == (chats, None)
  {
    var id := ChatId(me, other);
    if id in chats then (chats, Some(id))
    else if ok then (chats[id := Chat(SortPair(me, other), greeting, None)], Some(id))
    else (chats, None)
  }

  /** An existing chat is never overwritten, and no other chat changes. */
  lemma GetOrCreateNeverOverwrites(chats: Chats, me: Uid, other: Uid, greeting: string, ok: bool, id: string)
    requires id in chats
    ensures var r := GetOrCreate(chats, me, other, greeting, ok);
            id in r.0 && r.0[id] == chats[id]
  {
  }

  /** Two users contacting each other for the first time, from either
      direction and in either order, end up with exactly one chat document:
      the second contact finds the first one's chat and writes nothing. */
  lemma ContactFromBothSidesOneChat(chats: Chats, a: Uid, b: Uid, g1: string, g2: string)
    requires ChatId(a, b) !in chats
    ensures var (c1, id1) := GetOrCreate(chats, a, b, g1, true);
            var (c2, id2) := GetOrCreate(c1, b, a, g2, true);
            && c2 == c1 && id1 == id2
            && c2.Keys == chats.Keys + {ChatId(a, b)}
            && c2[ChatId(a, b)].participants == SortPair(a, b)
  {
    ChatIdSymmetric(a, b);
  }

  /** The outcome of a "message"/"contact" button. */
  datatype Contact = NoAction | Opened(chats: Chats, path: string) | Failed(chats: Chats)

  /** Shared tail of the four handlers: get-or-create, then navigate. */
  function OpenChat(chats: Chats, me: Uid, other: Uid, greeting: string, fault: Fault): Contact {
    var (c, id) := GetOrCreate(chats, me, other, greeting, fault.Allows(0));
    if id.Some? then Opened(c, "/chat/" + id.value) else Failed(c)
  }

  /** The profile page's `handleMessage`: nothing when signed out;
      otherwise the chat with the viewed user, created with an empty
      `lastMessage`; a rejected creation leaves the chats as they were. */
  function ProfileMessage(chats: Chats, user: Option<AuthUser>, userId: Uid, fault: Fault): (r: Contact)
    ensures user.None? ==> r == NoAction
    ensures user.Some? && fault.NoFault? ==>
              && r.Opened? && r.path == "/chat/" + ChatId(user.value.uid, userId)
              && ChatId(user.value.uid, userId) in r.chats
              && (ChatId(user.value.uid, userId) in chats ==> r.chats == chats)
              && (ChatId(user.value.uid, userId) !in chats ==>
                    r.chats[ChatId(user.value.uid, userId)].lastMessage == "")
    ensures user.Some? && ChatId(user.value.uid, userId) !in chats && !fault.Allows(0) ==> r == Failed(chats)
  {
    if user.None? then NoAction
    else OpenChat(chats, user.value.uid, userId, "", fault)
  }

  /** The assignment card's `handleMessage`: the same as on a profile, with
      the assignment's author. */
  function AssignmentMessage(chats: Chats, user: Option<AuthUser>, authorId: Uid, fault: Fault): (r: Contact)
    ensures user.None? ==> r == NoAction
    ensures user.Some? ==> r == ProfileMessage(chats, user, authorId, fault)
  {
    if user.None? then NoAction
    else OpenChat(chats, user.value.uid, authorId, "", fault)
  }

  /** What a contact button is about: a study link or an item for sale. */
  datatype Listing = StudyLinkListing | ItemForSale

  /** The first message of a chat opened from a listing. */
  function Greeting(about: Listing, title: string): (g: string)
    ensures about == StudyLinkListing ==> g == "Hi, checking about your study link: " + title
    ensures about == ItemForSale ==> g == "Hi, I'm interested in buying: " + title
  {
    match about
    case StudyLinkListing => "Hi, checking about your study link: " + title
    case ItemForSale => "Hi, I'm interested in buying: " + title
  }

  /** The `handleContact` of the study-links page and of the marketplace:
      nothing when signed out or on one's own listing; otherwise the chat
      with the listing's owner, a new one opening with the listing's
      greeting; a rejected creation leaves the chats as they were. */
  function ContactOwner(chats: Chats, user: Option<AuthUser>, ownerId: Uid, about: Listing, title: string, fault: Fault)
    : (r: Contact)
    ensures user.None? || user.value.uid == ownerId ==> r == NoAction
    ensures user.Some? && user.value.uid != ownerId && fault.NoFault? ==>
              && r.Opened? && r.path == "/chat/" + ChatId(user.value.uid, ownerId)
              && (ChatId(user.value.uid, ownerId) in chats ==> r.chats == chats)
              && ChatId(user.value.uid, ownerId) in r.chats
              && (ChatId(user.value.uid, ownerId) !in chats ==>
                    r.chats[ChatId(user.value.uid, ownerId)] ==
                      Chat(SortPair(user.value.uid, ownerId), Greeting(about, title), None))
    ensures user.Some? && user.value.uid != ownerId && ChatId(user.value.uid, ownerId) !in chats && !fault.Allows(0) ==>
              r == Failed(chats)
  {
    if user.None? || user.value.uid == ownerId then NoAction
    else OpenChat(chats, user.value.uid, ownerId, Greeting(about, title), fault)
  }

  /** The marketplace's contact button: a buyer's first contact opens a chat
      between buyer and seller that starts with the offer to buy the item;
      a seller contacting about their own item does nothing. */
  lemma ItemContactOpensOffer(chats: Chats, buyer: AuthUser, sellerId: Uid, title: string)
    requires buyer.uid != sellerId && ChatId(buyer.uid, sellerId) !in chats
    ensures var r := ContactOwner(chats, Some(buyer), sellerId, ItemForSale, title, NoFault);
            && r == Opened(r.chats, "/chat/" + ChatId(buyer.uid, sellerId))
            && r.chats[ChatId(buyer.uid, sellerId)].lastMessage == "Hi, I'm interested in buying: " + title
            && multiset(r.chats[ChatId(buyer.uid, sellerId)].participants) == multiset{buyer.uid, sellerId}
    ensures ContactOwner(chats, Some(buyer), buyer.uid, ItemForSale, title, NoFault) == NoAction
  {
  }
}
