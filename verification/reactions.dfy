/** The reaction map of a confession: each emoji maps to the list of uids
    that reacted with it, and a click moves the clicking user's single
    reaction (`ConfessionCard.handleReaction`). The map is an association
    list in the key order the store delivers, because the handler takes the
    FIRST key whose list holds the user. */
module Reactions {
  import opened Base
  import opened Seqs

  type Emoji = string

  /** The emoji buttons every confession card shows, in order. */
  const Palette: seq<Emoji> := ["❤️", "😂", "😮", "😢", "😡"]

  /** One `reactions.<emoji>` field. */
  datatype Entry = Entry(emoji: Emoji, uids: seq<Uid>)

  /** The `reactions` field; an absent field is the empty map. */
  type ReactionMap = seq<Entry>

  /** No emoji appears twice as a key. */
  predicate WellKeyed(r: ReactionMap) {
    forall i, j :: 0 <= i < j < |r| ==> r[i].emoji != r[j].emoji
  }

  /** Position of the key `e`, if present. */
  function Find(r: ReactionMap, e: Emoji): (i: Option<nat>)
    ensures i.Some? ==> i.value < |r| && r[i.value].emoji == e
    ensures i.None? ==> forall j :: 0 <= j < |r| ==> r[j].emoji != e
    decreases |r|
  {
    if |r| == 0 then None
    else if r[0].emoji == e then Some(0)
    else match Find(r[1..], e)
      case None => None
      case Some(k) => Some(k + 1)
  }

  /** `reactions[e]`, an absent key reading as the empty list (the card
      shows `length || 0` and `includes` is false on it). */
  function ListOf(r: ReactionMap, e: Emoji): (xs: seq<Uid>)
    ensures WellKeyed(r) ==>
              forall i :: 0 <= i < |r| && r[i].emoji == e ==> xs == r[i].uids
    ensures (forall i :: 0 <= i < |r| ==> r[i].emoji != e) ==> xs == []
  {
    match Find(r, e)
    case Some(i) => r[i].uids
    case None => []
  }

  /** `Object.keys(reactions).find(key => reactions[key].includes(uid))`. */
  function CurrentEmoji(r: ReactionMap, u: Uid): (c: Option<Emoji>)
    ensures c.None? <==> forall i :: 0 <= i < |r| ==> u !in r[i].uids
    ensures c.Some? ==> exists i :: 0 <= i < |r| && r[i].emoji == c.value && u in r[i].uids
    decreases |r|
  {
    if |r| == 0 then None
    else if u in r[0].uids then Some(r[0].emoji)
    else
      var c := CurrentEmoji(r[1..], u);
      assert forall i :: 1 <= i < |r| ==> r[i] == r[1..][i - 1];
      c
  }

  /** The user holds at most one reaction. */
  predicate AtMostOne(r: ReactionMap, u: Uid) {
    forall i, j :: 0 <= i < |r| && 0 <= j < |r| && u in r[i].uids && u in r[j].uids ==> i == j
  }

  /** One field transform of an `updateDoc` call. */
  datatype FieldOp = Union(emoji: Emoji, uid: Uid) | Remove(emoji: Emoji, uid: Uid)

  /** The field transform applied to the list it targets. */
  function Transform(xs: seq<Uid>, op: FieldOp): seq<Uid> {
    match op
    case Union(_, u) => ArrayUnion(xs, u)
    case Remove(_, u) => ArrayRemove(xs, u)
  }

  /** The store applying one transform: the key's list is replaced, or a
      new key is added holding the transform of the empty list. */
  function ApplyOp(r: ReactionMap, op: FieldOp): ReactionMap {
    match Find(r, op.emoji)
    case Some(i) => r[i := Entry(op.emoji, Transform(r[i].uids, op))]
    case None => r + [Entry(op.emoji, Transform([], op))]
  }

  /** The store applying one `updateDoc` (its keys are distinct). */
  function ApplyAll(r: ReactionMap, ops: seq<FieldOp>): ReactionMap
    decreases |ops|
  {
    if |ops| == 0 then r else ApplyAll(ApplyOp(r, ops[0]), ops[1..])
  }

  /** The write `handleReaction(emoji)` issues: none when signed out; the
      removal of the uid from `emoji` when that is the current reaction;
      otherwise its union into `emoji` plus its removal from the previous
      reaction, if any. */
  function ReactionUpdate(r: ReactionMap, user: Option<Uid>, e: Emoji): (w: Option<seq<FieldOp>>)
    ensures user.None? <==> w.None?
  {
    match user
    case None => None
    case Some(u) =>
      var current := CurrentEmoji(r, u);
      if current == Some(e) then Some([Remove(e, u)])
      else if current.Some? then Some([Union(e, u), Remove(current.value, u)])
      else Some([Union(e, u)])
  }

  /** The reaction map after the click (unchanged when nothing is written). */
  function HandleReaction(r: ReactionMap, user: Option<Uid>, e: Emoji): (r': ReactionMap) {
    match ReactionUpdate(r, user, e)
    case None => r
    case Some(ops) => ApplyAll(r, ops)
  }

  /** A transform touches only its own key, keeps keys unique, and turns
      that key's list into the transform of its old list. */
  lemma {:induction false} ApplyOpListOf(r: ReactionMap, op: FieldOp)
    requires WellKeyed(r)
    ensures WellKeyed(ApplyOp(r, op))
    ensures forall k :: ListOf(ApplyOp(r, op), k) ==
              if k == op.emoji then Transform(ListOf(r, k), op) else ListOf(r, k)
  {
    var r' := ApplyOp(r, op);
    match Find(r, op.emoji)
    case Some(i) =>
      forall k ensures ListOf(r', k) == if k == op.emoji then Transform(ListOf(r, k), op) else ListOf(r, k) {
        if exists j :: 0 <= j < |r| && r[j].emoji == k {
          var j :| 0 <= j < |r| && r[j].emoji == k;
          assert r'[j].emoji == k;
        }
      }
    case None =>
      forall k ensures ListOf(r', k) == if k == op.emoji then Transform(ListOf(r, k), op) else ListOf(r, k) {
        if k == op.emoji {
          assert r'[|r|].emoji == k;
        } else if exists j :: 0 <= j < |r| && r[j].emoji == k {
          var j :| 0 <= j < |r| && r[j].emoji == k;
          assert r'[j].emoji == k;
        }
      }
  }

  /** The user's uid appears in the list of key `k` exactly when some entry
      with key `k` holds it. */
  lemma HoldsIff(r: ReactionMap, u: Uid, k: Emoji)
    requires WellKeyed(r)
    ensures u in ListOf(r, k) <==> exists i :: 0 <= i < |r| && r[i].emoji == k && u in r[i].uids
  {
  }

  /** The current reaction is a key whose list holds the user, and there is
      none exactly when no list holds them. */
  lemma CurrentEmojiMeaning(r: ReactionMap, u: Uid)
    requires WellKeyed(r)
    ensures CurrentEmoji(r, u).Some? ==> u in ListOf(r, CurrentEmoji(r, u).value)
    ensures CurrentEmoji(r, u).None? <==> forall k :: u !in ListOf(r, k)
    ensures AtMostOne(r, u) ==> forall k :: u in ListOf(r, k) <==> CurrentEmoji(r, u) == Some(k)
  {
    forall k | u in ListOf(r, k)
      ensures CurrentEmoji(r, u).Some?
    {
      HoldsIff(r, u, k);
    }
    if CurrentEmoji(r, u).None? {
      forall k ensures u !in ListOf(r, k) {
        HoldsIff(r, u, k);
      }
    }
    if AtMostOne(r, u) {
      forall k ensures u in ListOf(r, k) <==> CurrentEmoji(r, u) == Some(k) {
        HoldsIff(r, u, k);
        if CurrentEmoji(r, u) == Some(k) {
          HoldsIff(r, u, k);
        }
      }
    }
  }

  lemma ApplyOne(r: ReactionMap, a: FieldOp)
    ensures ApplyAll(r, [a]) == ApplyOp(r, a)
  {
    assert [a][1..] == [];
  }

  lemma ApplyTwo(r: ReactionMap, a: FieldOp, b: FieldOp)
    ensures ApplyAll(r, [a, b]) == ApplyOp(ApplyOp(r, a), b)
  {
    assert [a, b][1..] == [b];
    ApplyOne(ApplyOp(r, a), b);
  }

  /** Moving a reaction from `c` to `e`: union into `e`, removal from `c`. */
  lemma MoveListOf(r: ReactionMap, u: Uid, e: Emoji, c: Emoji)
    requires WellKeyed(r) && c != e
    ensures WellKeyed(ApplyAll(r, [Union(e, u), Remove(c, u)]))
    ensures forall k :: ListOf(ApplyAll(r, [Union(e, u), Remove(c, u)]), k) ==
              if k == e then ArrayUnion(ListOf(r, k), u)
              else if k == c then ArrayRemove(ListOf(r, k), u)
              else ListOf(r, k)
  {
    var r1 := ApplyOp(r, Union(e, u));
    ApplyOpListOf(r, Union(e, u));
    ApplyOpListOf(r1, Remove(c, u));
    ApplyTwo(r, Union(e, u), Remove(c, u));
  }

  /** Each list after a signed-in click, in terms of the lists before. */
  lemma ClickListOf(r: ReactionMap, u: Uid, e: Emoji)
    requires WellKeyed(r)
    ensures WellKeyed(HandleReaction(r, Some(u), e))
    ensures var r' := HandleReaction(r, Some(u), e);
            var c := CurrentEmoji(r, u);
            forall k :: ListOf(r', k) ==
              if c == Some(e) && k == e then ArrayRemove(ListOf(r, k), u)
              else if k == e then ArrayUnion(ListOf(r, k), u)
              else if c == Some(k) then ArrayRemove(ListOf(r, k), u)
              else ListOf(r, k)
  {
    var c := CurrentEmoji(r, u);
    if c == Some(e) {
      TakeBackListOf(r, u, e);
    } else if c.Some? {
      MoveBackListOf(r, u, e);
    } else {
      FirstReactionListOf(r, u, e);
    }
  }

  /** The click case where the clicked emoji is the current one. */
  lemma TakeBackListOf(r: ReactionMap, u: Uid, e: Emoji)
    requires WellKeyed(r) && CurrentEmoji(r, u) == Some(e)
    ensures WellKeyed(HandleReaction(r, Some(u), e))
    ensures forall k :: ListOf(HandleReaction(r, Some(u), e), k) ==
              if k == e then ArrayRemove(ListOf(r, k), u) else ListOf(r, k)
  {
    assert HandleReaction(r, Some(u), e) == ApplyAll(r, [Remove(e, u)]);
    ApplyOne(r, Remove(e, u));
    ApplyOpListOf(r, Remove(e, u));
  }

  /** The click case where another emoji is the current one. */
  lemma MoveBackListOf(r: ReactionMap, u: Uid, e: Emoji)
    requires WellKeyed(r) && CurrentEmoji(r, u).Some? && CurrentEmoji(r, u) != Some(e)
    ensures WellKeyed(HandleReaction(r, Some(u), e))
    ensures var c := CurrentEmoji(r, u).value;
            forall k :: ListOf(HandleReaction(r, Some(u), e), k) ==
              if k == e then ArrayUnion(ListOf(r, k), u)
              else if k == c then ArrayRemove(ListOf(r, k), u)
              else ListOf(r, k)
  {
    var c := CurrentEmoji(r, u).value;
    assert HandleReaction(r, Some(u), e) == ApplyAll(r, [Union(e, u), Remove(c, u)]);
    MoveListOf(r, u, e, c);
  }

  /** The click case where the user holds no reaction yet. */
  lemma FirstReactionListOf(r: ReactionMap, u: Uid, e: Emoji)
    requires WellKeyed(r) && CurrentEmoji(r, u).None?
    ensures WellKeyed(HandleReaction(r, Some(u), e))
    ensures forall k :: ListOf(HandleReaction(r, Some(u), e), k) ==
              if k == e then ArrayUnion(ListOf(r, k), u) else ListOf(r, k)
  {
    assert HandleReaction(r, Some(u), e) == ApplyAll(r, [Union(e, u)]);
    ApplyOne(r, Union(e, u));
    ApplyOpListOf(r, Union(e, u));
  }

  /** `ClickListOf` for one key. */
  lemma ClickListAt(r: ReactionMap, u: Uid, e: Emoji, k: Emoji)
    requires WellKeyed(r)
    ensures var c := CurrentEmoji(r, u);
            ListOf(HandleReaction(r, Some(u), e), k) ==
              if c == Some(e) && k == e then ArrayRemove(ListOf(r, k), u)
              else if k == e then ArrayUnion(ListOf(r, k), u)
              else if c == Some(k) then ArrayRemove(ListOf(r, k), u)
              else ListOf(r, k)
  {
    ClickListOf(r, u, e);
  }

  /** A signed-out click writes nothing. */
  lemma SignedOutNoWrite(r: ReactionMap, e: Emoji)
    ensures ReactionUpdate(r, None, e).None? && HandleReaction(r, None, e) == r
  {
  }

  /** Clicking the emoji one already reacted with removes the uid from that
      list only. */
  lemma SameEmojiTogglesOff(r: ReactionMap, u: Uid, e: Emoji)
    requires WellKeyed(r) && u in ListOf(r, e) && AtMostOne(r, u)
    ensures var r' := HandleReaction(r, Some(u), e);
            && u !in ListOf(r', e)
            && (forall v :: v != u ==> (v in ListOf(r', e) <==> v in ListOf(r, e)))
            && forall k :: k != e ==> ListOf(r', k) == ListOf(r, k)
  {
    CurrentEmojiMeaning(r, u);
    ClickListOf(r, u, e);
  }

  /** Clicking a different emoji, or reacting for the first time, adds the
      uid to the clicked list without duplicating it, removes it from the
      previous list, and leaves every other list alone. */
  lemma OtherEmojiMoves(r: ReactionMap, u: Uid, e: Emoji)
    requires WellKeyed(r) && u !in ListOf(r, e) && AtMostOne(r, u)
    ensures var r' := HandleReaction(r, Some(u), e);
            && u in ListOf(r', e) && Count(ListOf(r', e), u) == 1
            && (forall k :: k != e ==> u !in ListOf(r', k))
            && forall k :: k != e && u !in ListOf(r, k) ==> ListOf(r', k) == ListOf(r, k)
  {
    CurrentEmojiMeaning(r, u);
    ClickListOf(r, u, e);
  }

  /** After a click by a user holding at most one reaction, the only list
      holding them is the clicked one, unless the click took it back. */
  lemma ClickHeldKeys(r: ReactionMap, u: Uid, e: Emoji)
    requires WellKeyed(r) && AtMostOne(r, u)
    ensures forall k :: u in ListOf(HandleReaction(r, Some(u), e), k) <==>
                          k == e && CurrentEmoji(r, u) != Some(e)
  {
    var r' := HandleReaction(r, Some(u), e);
    var c := CurrentEmoji(r, u);
    CurrentEmojiMeaning(r, u);
    ClickListOf(r, u, e);
    forall k ensures u in ListOf(r', k) <==> k == e && c != Some(e) {
      if c == Some(e) && k == e {
        assert ListOf(r', k) == ArrayRemove(ListOf(r, k), u);
      } else if k == e {
        assert ListOf(r', k) == ArrayUnion(ListOf(r, k), u);
      } else if c == Some(k) {
        assert ListOf(r', k) == ArrayRemove(ListOf(r, k), u);
      } else {
        assert ListOf(r', k) == ListOf(r, k);
      }
    }
  }

  /** A user holding at most one reaction still holds at most one after a
      click. */
  lemma ClickKeepsAtMostOne(r: ReactionMap, u: Uid, e: Emoji)
    requires WellKeyed(r) && AtMostOne(r, u)
    ensures AtMostOne(HandleReaction(r, Some(u), e), u)
  {
    var r' := HandleReaction(r, Some(u), e);
    ClickListOf(r, u, e);
    ClickHeldKeys(r, u, e);
    forall i, j | 0 <= i < |r'| && 0 <= j < |r'| && u in r'[i].uids && u in r'[j].uids
      ensures i == j
    {
      assert u in ListOf(r', r'[i].emoji);
      assert u in ListOf(r', r'[j].emoji);
    }
  }

  /** Other users' reactions are untouched: every list holds every other
      uid as often as before. */
  lemma ClickSparesOthers(r: ReactionMap, u: Uid, e: Emoji, v: Uid, k: Emoji)
    requires WellKeyed(r) && v != u
    ensures Count(ListOf(HandleReaction(r, Some(u), e), k), v) == Count(ListOf(r, k), v)
  {
    var r' := HandleReaction(r, Some(u), e);
    var c := CurrentEmoji(r, u);
    ClickListOf(r, u, e);
    if c == Some(e) && k == e {
      assert ListOf(r', k) == ArrayRemove(ListOf(r, k), u);
    } else if k == e {
      assert ListOf(r', k) == ArrayUnion(ListOf(r, k), u);
    } else if c == Some(k) {
      assert ListOf(r', k) == ArrayRemove(ListOf(r, k), u);
    } else {
      assert ListOf(r', k) == ListOf(r, k);
    }
  }

  /** Reacting with the same emoji twice, starting from no reaction,
      restores every list exactly (a key created by the first click is left
      holding an empty list, which reads as absent). */
  lemma DoubleClickRestores(r: ReactionMap, u: Uid, e: Emoji)
    requires WellKeyed(r) && CurrentEmoji(r, u).None?
    ensures forall k :: ListOf(HandleReaction(HandleReaction(r, Some(u), e), Some(u), e), k) == ListOf(r, k)
  {
    var r1 := HandleReaction(r, Some(u), e);
    var r2 := HandleReaction(r1, Some(u), e);
    ClickListOf(r, u, e);
    ClickListAt(r, u, e, e);
    assert CurrentEmoji(r1, u) == Some(e) by {
      ClickKeepsAtMostOne(r, u, e);
      CurrentEmojiMeaning(r1, u);
    }
    forall k ensures ListOf(r2, k) == ListOf(r, k) {
      ClickListAt(r, u, e, k);
      ClickListAt(r1, u, e, k);
      if k == e {
        CurrentEmojiMeaning(r, u);
        UnionThenRemove(ListOf(r, e), u);
      }
    }
  }

  /** What an emoji button shows: its count, and whether it is highlighted
      for the viewer. */
  datatype Button = Button(count: nat, active: bool)

  function ButtonFor(r: ReactionMap, viewer: Option<Uid>, e: Emoji): Button {
    Button(|ListOf(r, e)|, viewer.Some? && viewer.value in ListOf(r, e))
  }

  /** A first reaction adds one to the clicked button's count and lights it
      up; taking it back restores the count and switches it off. */
  lemma ButtonFollowsClicks(r: ReactionMap, u: Uid, e: Emoji)
    requires WellKeyed(r) && CurrentEmoji(r, u).None?
    ensures var r1 := HandleReaction(r, Some(u), e);
            var r2 := HandleReaction(r1, Some(u), e);
            && ButtonFor(r1, Some(u), e) == Button(ButtonFor(r, Some(u), e).count + 1, true)
            && ButtonFor(r2, Some(u), e) == Button(ButtonFor(r, Some(u), e).count, false)
  {
    var r1 := HandleReaction(r, Some(u), e);
    var r2 := HandleReaction(r1, Some(u), e);
    var xs := ListOf(r, e);
    CurrentEmojiMeaning(r, u);
    assert u !in xs;
    ClickListAt(r, u, e, e);
    assert ListOf(r1, e) == ArrayUnion(xs, u);
    assert |ListOf(r1, e)| == |xs| + 1 && u in ListOf(r1, e);
    DoubleClickRestores(r, u, e);
    assert ListOf(r2, e) == xs;
  }
}
