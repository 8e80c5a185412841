/** The list screens' client-side filters (study links, marketplace,
    assignments, roommates) and the decisions the listing cards make:
    truncated texts, the price label, and which buttons a viewer gets. */
module Listings {
  import opened Base
  import opened Text
  import opened Seqs

  /** A `study_links` document. */
  datatype StudyLink = StudyLink(id: string, title: string, branch: Option<string>, subject: Option<string>, authorId: Uid)

  /** A `marketplace_items` document. */
  datatype Item = Item(id: string, title: string, category: Option<string>, sellerId: Uid)

  /** An `assignments` document. */
  datatype Assignment = Assignment(id: string, title: string, branch: Option<string>, year: Option<string>,
                                   price: Option<string>, authorId: Uid)

  /** A `roommate_posts` document; old posts may lack an author or a
      description. */
  datatype RoommatePost = RoommatePost(id: string, kind: Option<string>, description: Option<string>, authorId: Option<Uid>)

  /** A drop-down filter: "All" lets everything through, any other value
      only documents whose field equals it. */
  predicate Passes(sel: string, v: Option<string>) {
    sel == "All" || v == Some(sel)
  }

  /** The study-links predicate for the branch and subject drop-downs. */
  function LinkKeeps(branch: string, subject: string): StudyLink -> bool {
    (l: StudyLink) => Passes(branch, l.branch) && Passes(subject, l.subject)
  }

  /** `filteredLinks`. */
  function FilterLinks(links: seq<StudyLink>, branch: string, subject: string): (r: seq<StudyLink>)
    ensures forall l :: l in r <==> l in links && Passes(branch, l.branch) && Passes(subject, l.subject)
    ensures Subseq(r, links)
  {
    FilterIsSubseq(links, LinkKeeps(branch, subject));
    Filter(links, LinkKeeps(branch, subject))
  }

  /** With both drop-downs on "All" every link is shown, and filtering the
      filtered list again changes nothing. */
  lemma FilterLinksAllAndIdempotent(links: seq<StudyLink>, branch: string, subject: string)
    ensures FilterLinks(links, "All", "All") == links
    ensures FilterLinks(FilterLinks(links, branch, subject), branch, subject) == FilterLinks(links, branch, subject)
  {
    FilterAll(links, LinkKeeps("All", "All"));
    FilterIdempotent(links, LinkKeeps(branch, subject));
  }

  /** The marketplace predicate for one category. */
  function ItemKeeps(category: string): Item -> bool {
    (i: Item) => i.category == Some(category)
  }

  /** `filteredItems`: "All" returns the list itself, without filtering. */
  function FilterItems(items: seq<Item>, category: string): (r: seq<Item>)
    ensures category == "All" ==> r == items
    ensures category != "All" ==> forall i :: i in r <==> i in items && i.category == Some(category)
    ensures Subseq(r, items)
  {
    if category == "All" then SubseqRefl(items); items
    else FilterIsSubseq(items, ItemKeeps(category)); Filter(items, ItemKeeps(category))
  }

  /** Any category keeps exactly the items `Passes` admits. */
  lemma FilterItemsPasses(items: seq<Item>, category: string)
    ensures forall i :: i in FilterItems(items, category) <==> i in items && Passes(category, i.category)
  {
  }

  /** The assignments predicate for the branch and year drop-downs. */
  function AssignmentKeeps(branch: string, year: string): Assignment -> bool {
    (a: Assignment) => Passes(branch, a.branch) && Passes(year, a.year)
  }

  /** The assignments snapshot filter. */
  function FilterAssignments(docs: seq<Assignment>, branch: string, year: string): (r: seq<Assignment>)
    ensures forall a :: a in r <==> a in docs && Passes(branch, a.branch) && Passes(year, a.year)
    ensures Subseq(r, docs)
  {
    FilterIsSubseq(docs, AssignmentKeeps(branch, year));
    Filter(docs, AssignmentKeeps(branch, year))
  }

  /** "All"/"All" returns the snapshot unchanged, and the filter is
      idempotent. */
  lemma FilterAssignmentsAllAndIdempotent(docs: seq<Assignment>, branch: string, year: string)
    ensures FilterAssignments(docs, "All", "All") == docs
    ensures FilterAssignments(FilterAssignments(docs, branch, year), branch, year) == FilterAssignments(docs, branch, year)
  {
    FilterAll(docs, AssignmentKeeps("All", "All"));
    FilterIdempotent(docs, AssignmentKeeps(branch, year));
  }

  /** The values of the roommate type buttons. */
  const RoommateTypes: seq<string> := ["All", "Flat", "Hostel"]

  /** The roommate predicate for one type. */
  function RoommateKeeps(kind: string): RoommatePost -> bool {
    (p: RoommatePost) => p.kind == Some(kind)
  }

  /** `filteredPosts` on the roommates page. */
  function FilterRoommates(posts: seq<RoommatePost>, kind: string): (r: seq<RoommatePost>)
    ensures kind == "All" ==> r == posts
    ensures kind != "All" ==> forall p :: p in r <==> p in posts && p.kind == Some(kind)
    ensures Subseq(r, posts)
  {
    if kind == "All" then SubseqRefl(posts); posts
    else FilterIsSubseq(posts, RoommateKeeps(kind)); Filter(posts, RoommateKeeps(kind))
  }

  /** A type button other than "All" shows the posts of that type and no
      other. */
  lemma RoommateButtonsPartition(posts: seq<RoommatePost>, p: RoommatePost)
    requires p in posts && p.kind.Some?
    ensures forall k :: k in RoommateTypes && k != "All" ==>
              (p in FilterRoommates(posts, k) <==> p.kind.value == k)
  {
  }

  /** What a card shows of a long text. */
  datatype TextView = TextView(text: string, readMore: bool, showLess: bool)

  /** A text clipped at `limit` characters with its controls. */
  function ClippedText(text: string, limit: nat, expanded: bool): (v: TextView)
    ensures !v.readMore ==> v.text == text
    ensures v.readMore ==> && |text| > limit && |v.text| == limit + 3
                           && v.text[..limit] == text[..limit] && v.text[limit..] == "..."
    ensures v.readMore <==> !expanded && |text| > limit
    ensures !(v.readMore && v.showLess)
    ensures v.showLess <==> expanded && |text| > limit
  {
    ClipShowsPrefix(text, limit, expanded);
    TextView(Clip(text, limit, expanded), ShowsReadMore(text, limit, expanded), ShowsLess(text, limit, expanded))
  }

  /** The post and confession cards cut at 250 characters. */
  const PostTextLimit: nat := 250

  /** On a post or confession card, a text over 250 characters, while
      collapsed, shows exactly its first 250 characters then "..." and
      offers "Read More"; a shorter one is shown whole with no control. */
  lemma PostTextClip(t: string, expanded: bool)
    ensures |t| > 250 && !expanded ==>
              ClippedText(t, PostTextLimit, expanded) == TextView(t[..250] + "...", true, false)
    ensures |t| <= 250 ==> ClippedText(t, PostTextLimit, expanded) == TextView(t, false, false)
  {
  }

  /** The roommate card cuts its description at 150 characters. */
  const DescriptionLimit: nat := 150

  /** The roommate card's description. A missing description compares as
      neither short nor long, so while collapsed the card shows only "..."
      and "Read More", and once expanded nothing at all. */
  function RoommateDescription(description: Option<string>, expanded: bool): (v: TextView)
    ensures description.Some? ==> v == ClippedText(description.value, DescriptionLimit, expanded)
    ensures description.None? && !expanded ==> v == TextView("...", true, false)
    ensures description.None? && expanded ==> v == TextView("", false, false)
  {
    match description
    case Some(d) => ClippedText(d, DescriptionLimit, expanded)
    case None => if expanded then TextView("", false, false) else TextView("...", true, false)
  }

  /** A description of at most 150 characters is shown in full with no
      control; a longer one, collapsed, shows its first 150 characters then
      "...". */
  lemma RoommateDescriptionClip(d: string, expanded: bool)
    ensures |d| <= 150 ==> RoommateDescription(Some(d), expanded) == TextView(d, false, false)
    ensures |d| > 150 && !expanded ==>
              RoommateDescription(Some(d), expanded) == TextView(d[..150] + "...", true, false)
  {
  }

  /** The assignment card's price: the stored price, or "Free" when it is
      missing or empty. */
  function PriceLabel(price: Option<string>): (s: string)
    ensures Truthy(price) ==> s == price.value
    ensures !Truthy(price) ==> s == "Free"
  {
    OrElse(price, "Free")
  }

  /** The owner-dependent buttons of an assignment card ("Message" and
      delete) and of a study-link card ("Chat" and delete). */
  datatype OwnerControls = OwnerControls(message: bool, delete: bool)

  /** The contact button for anyone but the owner, the delete button for
      the owner only; a signed-out viewer sees the contact button. */
  function ControlsFor(viewer: Option<Uid>, ownerId: Uid): (c: OwnerControls)
    ensures c.delete <==> viewer == Some(ownerId)
    ensures c.message != c.delete
  {
    OwnerControls(viewer != Some(ownerId), viewer == Some(ownerId))
  }

  /** The roommate card's delete button: shown when the viewer's uid equals
      the post's author id, which includes a signed-out viewer on a post
      without one. */
  predicate RoommateCanDelete(viewer: Option<Uid>, p: RoommatePost) {
    viewer == p.authorId
  }

  /** A signed-in viewer sees the button exactly on their own posts. */
  lemma RoommateDeleteForAuthor(u: Uid, p: RoommatePost)
    ensures RoommateCanDelete(Some(u), p) <==> p.authorId == Some(u)
  {
  }

  /** On a study-link card a signed-out visitor sees the "Chat" button and
      no delete button, and the link's author sees only the delete button. */
  lemma LinkCardControls(l: StudyLink)
    ensures ControlsFor(None, l.authorId) == OwnerControls(true, false)
    ensures ControlsFor(Some(l.authorId), l.authorId) == OwnerControls(false, true)
  {
  }
}
