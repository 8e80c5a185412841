/** The forms that create or change a document: a new post, a confession,
    an assignment, a marketplace listing, a study link, the first profile
    and the profile editor. Each is a guard, a record built from the form,
    the signed-in user and the profile, and one write whose failure is
    caught. An image upload, where there is one, is a parameter: its
    result is decided outside the model. */
module Forms {
  import opened Base
  import opened Text
  import opened Model
  import opened Session
  import opened LinkPreview

  /** The outcome of a submission: nothing done, a document written, or a
      failure. `alert` is the message shown, when the form shows one and
      the model knows its text. */
  datatype Submit<D> = Ignored | Written(doc: D) | Failed(alert: Option<string>)

  /** The image host's answer to an upload: accepted with the returned
      `secure_url` (possibly missing), or rejected with the error message
      of its body (possibly missing). */
  datatype Upload = Accepted(secureUrl: Option<string>) | Rejected(message: Option<string>)

  /** A `posts` document as the composer writes it. */
  datatype PostDoc = PostDoc(
    text: string,
    imageUrl: Option<string>,
    authorId: Uid,
    authorName: Option<string>,
    authorPhoto: Option<string>,
    authorVerified: bool,
    viewedBy: seq<Uid>,
    isAnonymous: bool,
    likes: seq<Uid>,
    isPinned: bool,
    college: Option<string>)

  /** Whether the composer's guard lets a submission through. */
  predicate PostHasContent(text: string, hasImage: bool) {
    !IsBlank(text) || hasImage
  }

  /** `CreatePostModal.handleSubmit`. White-space-only text without an
      image is ignored. A chosen image is uploaded first; a rejected upload
      aborts with its message (or "Cloudinary Upload Failed") before any
      write. Without an image `imageUrl` is "". A missing user or profile
      throws before the write, and a rejected write fails too; every
      failure is alerted with the prefix "Upload Failed: ". The text is
      stored as typed. */
  function CreatePost(text: string, hasImage: bool, upload: Upload, user: Option<AuthUser>,
                      userData: Option<Profile>, isAnonymous: bool, ok: bool): (r: Submit<PostDoc>)
    ensures !PostHasContent(text, hasImage) <==> r.Ignored?
    ensures hasImage && upload.Rejected? && PostHasContent(text, hasImage) ==>
              r == Failed(Some("Upload Failed: " + OrElse(upload.message, "Cloudinary Upload Failed")))
    ensures r.Written? ==>
              && user.Some? && userData.Some? && ok
              && r.doc.text == text && r.doc.authorId == user.value.uid
              && r.doc.likes == [] && !r.doc.isPinned && r.doc.viewedBy == [user.value.uid]
              && r.doc.isAnonymous == isAnonymous
              && r.doc.authorVerified == userData.value.isVerified
              && r.doc.authorName == userData.value.name && r.doc.authorPhoto == userData.value.photoURL
              && r.doc.college == userData.value.college
              && (!hasImage ==> r.doc.imageUrl == Some(""))
              && (hasImage ==> upload.Accepted? && r.doc.imageUrl == upload.secureUrl)
    ensures PostHasContent(text, hasImage) && user.Some? && userData.Some? && ok && (!hasImage || upload.Accepted?) ==> r.Written?
  {
    if !PostHasContent(text, hasImage) then Ignored
    else if hasImage && upload.Rejected? then
      Failed(Some("Upload Failed: " + OrElse(upload.message, "Cloudinary Upload Failed")))
    else
      var imageUrl := if hasImage then upload.secureUrl else Some("");
      if user.None? || userData.None? || !ok then Failed(None)
      else
        var p := userData.value;
        Written(PostDoc(text, imageUrl, user.value.uid, p.name, p.photoURL, p.isVerified,
                        [user.value.uid], isAnonymous, [], false, p.college))
  }

  /** The post button: disabled while a submission runs or when the
      composer has neither text nor image. */
  predicate PostButtonEnabled(loading: bool, text: string, hasImage: bool) {
    !loading && (!IsBlank(text) || hasImage)
  }

  /** The button is enabled exactly when, outside a running submission,
      pressing it would not be ignored. */
  lemma PostButtonMatchesGuard(text: string, hasImage: bool, upload: Upload, user: Option<AuthUser>,
                               userData: Option<Profile>, isAnonymous: bool, ok: bool)
    ensures PostButtonEnabled(false, text, hasImage) <==> !CreatePost(text, hasImage, upload, user, userData, isAnonymous, ok).Ignored?
    ensures !PostButtonEnabled(true, text, hasImage)
  {
  }

  /** The anonymity toggle: each press flips the flag, and the post stores
      the flag as it stands after the presses. */
  function Toggled(start: bool, presses: nat): (b: bool)
    ensures b == (if presses % 2 == 0 then start else !start)
  {
    if presses == 0 then start else !Toggled(start, presses - 1)
  }

  /** The composer opens public; after `presses` clicks on the toggle a
      written post is anonymous exactly when the count is odd. */
  lemma AnonymousAfterPresses(text: string, hasImage: bool, upload: Upload, user: Option<AuthUser>,
                              userData: Option<Profile>, presses: nat, ok: bool)
    ensures var r := CreatePost(text, hasImage, upload, user, userData, Toggled(false, presses), ok);
            r.Written? ==> (r.doc.isAnonymous <==> presses % 2 == 1)
  {
  }

  /** A `confessions` document. */
  datatype ConfessionDoc = ConfessionDoc(text: string, authorId: Uid, college: Option<string>, reactionKeys: seq<string>)

  /** `CreateConfessionModal.handleSubmit`: blank text is ignored; the
      confession starts with no reactions; a missing user or profile, or a
      rejected write, is only logged. */
  function CreateConfession(text: string, user: Option<AuthUser>, userData: Option<Profile>, ok: bool): (r: Submit<ConfessionDoc>)
    ensures IsBlank(text) <==> r.Ignored?
    ensures r.Failed? ==> r.alert.None?
    ensures r.Written? <==> !IsBlank(text) && user.Some? && userData.Some? && ok
    ensures r.Written? ==> r.doc == ConfessionDoc(text, user.value.uid, userData.value.college, [])
  {
    if IsBlank(text) then Ignored
    else if user.None? || userData.None? || !ok then Failed(None)
    else Written(ConfessionDoc(text, user.value.uid, userData.value.college, []))
  }

  /** The confession button: disabled while running or on blank text. */
  predicate ConfessionButtonEnabled(loading: bool, text: string) {
    !loading && !IsBlank(text)
  }

  lemma ConfessionButtonMatchesGuard(text: string, user: Option<AuthUser>, userData: Option<Profile>, ok: bool)
    ensures ConfessionButtonEnabled(false, text) <==> !CreateConfession(text, user, userData, ok).Ignored?
  {
  }

  /** The assignment form's fields. */
  datatype AssignmentForm = AssignmentForm(
    title: string, subject: string, caption: string, price: string, whatsapp: string,
    branch: string, year: string)

  /** The form as it opens: empty fields, with branch and year taken from
      the profile when it has truthy values. */
  function NewAssignmentForm(userData: Option<Profile>): (f: AssignmentForm)
    ensures f.title == "" && f.subject == "" && f.caption == "" && f.price == "" && f.whatsapp == ""
    ensures userData.Some? && Truthy(userData.value.branch) ==> f.branch == userData.value.branch.value
    ensures userData.Some? && Truthy(userData.value.year) ==> f.year == userData.value.year.value
    ensures !(userData.Some? && Truthy(userData.value.branch)) ==> f.branch == ""
    ensures !(userData.Some? && Truthy(userData.value.year)) ==> f.year == ""
  {
    var p := if userData.Some? then userData.value else EmptyProfile;
    AssignmentForm("", "", "", "", "", OrElse(p.branch, ""), OrElse(p.year, ""))
  }

  /** An `assignments` document. */
  datatype AssignmentDoc = AssignmentDoc(form: AssignmentForm, authorId: Uid, authorName: Option<string>)

  /** `UploadAssignmentModal.handleSubmit`: ignored unless title, subject,
      price and WhatsApp number are all non-empty (untrimmed); the caption
      may be empty. Failures are only logged. */
  function UploadAssignment(f: AssignmentForm, user: Option<AuthUser>, userData: Option<Profile>, ok: bool): (r: Submit<AssignmentDoc>)
    ensures r.Ignored? <==> f.title == "" || f.subject == "" || f.price == "" || f.whatsapp == ""
    ensures r.Failed? ==> r.alert.None?
    ensures r.Written? <==> !r.Ignored? && user.Some? && userData.Some? && ok
    ensures r.Written? ==> r.doc.form == f && r.doc.authorId == user.value.uid && r.doc.authorName == userData.value.name
  {
    if f.title == "" || f.subject == "" || f.price == "" || f.whatsapp == "" then Ignored
    else if user.None? || userData.None? || !ok then Failed(None)
    else Written(AssignmentDoc(f, user.value.uid, userData.value.name))
  }

  /** A title of spaces passes the guard: it checks emptiness, not
      blankness. */
  lemma SpacesPassAssignmentGuard(f: AssignmentForm, user: Option<AuthUser>, userData: Option<Profile>, ok: bool)
    requires f.title == " " && f.subject != "" && f.price != "" && f.whatsapp != ""
    ensures !UploadAssignment(f, user, userData, ok).Ignored?
    ensures IsBlank(f.title)
  {
    assert Trim(" ") == [];
  }

  /** The marketplace listing form; `price` is the typed text. */
  datatype ItemForm = ItemForm(title: string, price: string, category: string, description: string, whatsapp: string)

  /** The listing form as it opens. */
  const NewItemForm: ItemForm := ItemForm("", "", "Books", "", "")

  /** A `marketplace_items` document. */
  datatype ItemDoc = ItemDoc(form: ItemForm, imageUrl: string, sellerId: Uid, sellerName: string)

  /** Outcome of listing an item: an image whose upload yields no URL
      aborts with an alert and no write. */
  datatype ListResult = Aborted | ItemListed(doc: ItemDoc) | ListFailed

  /** `SellItemModal.handleSubmit`. `upload` is what the upload helper
      returns (`None` for a failed request or a missing URL). Without an
      image `imageUrl` is ""; the seller is the uid, named by the display
      name or "Student". */
  function ListItem(f: ItemForm, hasImage: bool, upload: Option<string>, user: Option<AuthUser>, ok: bool): (r: ListResult)
    ensures r.Aborted? <==> hasImage && !Truthy(upload)
    ensures r.ItemListed? <==> !r.Aborted? && user.Some? && ok
    ensures r.ItemListed? ==> && r.doc.form == f && r.doc.sellerId == user.value.uid
                              && r.doc.sellerName == OrElse(user.value.displayName, "Student")
                              && (hasImage ==> r.doc.imageUrl == upload.value && r.doc.imageUrl != "")
                              && (!hasImage ==> r.doc.imageUrl == "")
  {
    if hasImage && !Truthy(upload) then Aborted
    else if user.None? || !ok then ListFailed
    else
      var imageUrl := if hasImage then upload.value else "";
      ItemListed(ItemDoc(f, imageUrl, user.value.uid, OrElse(user.value.displayName, "Student")))
  }

  /** A stored listing has an image address exactly when an image was
      chosen. */
  lemma ListingImageIffChosen(f: ItemForm, hasImage: bool, upload: Option<string>, u: AuthUser)
    requires ListItem(f, hasImage, upload, Some(u), true).ItemListed?
    ensures ListItem(f, hasImage, upload, Some(u), true).doc.imageUrl != "" <==> hasImage
  {
  }

  /** The study-link form. */
  datatype LinkForm = LinkForm(title: string, url: string, kind: string, branch: string, subject: string, description: string)

  /** The form as it opens. */
  const NewLinkForm: LinkForm := LinkForm("", "", "website", "CS/IT", "Study Links", "")

  /** A `study_links` document. */
  datatype LinkDoc = LinkDoc(form: LinkForm, authorId: Uid, authorName: string)

  /** `SubmitLinkModal.handleSubmit`: the URL is normalised, the author is
      the uid, named by the display name or "Student"; a missing user or a
      rejected write ends in the alert. */
  function SubmitLink(f: LinkForm, user: Option<AuthUser>, ok: bool): (r: Submit<LinkDoc>)
    ensures !r.Ignored?
    ensures r.Written? <==> user.Some? && ok
    ensures r.Failed? ==> r.alert == Some("Failed to submit")
    ensures r.Written? ==> && r.doc.form == f.(url := NormalizeUrl(f.url))
                           && HasScheme(r.doc.form.url)
                           && r.doc.authorId == user.value.uid
                           && r.doc.authorName == OrElse(user.value.displayName, "Student")
  {
    if user.None? || !ok then Failed(Some("Failed to submit"))
    else Written(LinkDoc(f.(url := NormalizeUrl(f.url)), user.value.uid, OrElse(user.value.displayName, "Student")))
  }

  /** The institution every new profile belongs to. */
  const College: string := "Gyan Ganga Group of Institutions"

  /** The setup form's fields. */
  datatype SetupForm = SetupForm(name: string, branch: string, year: string)

  /** The setup form as it opens: the display name or "", no branch or
      year. */
  function NewSetupForm(user: Option<AuthUser>): (f: SetupForm)
    ensures user.Some? && Truthy(user.value.displayName) ==> f.name == user.value.displayName.value
    ensures !(user.Some? && Truthy(user.value.displayName)) ==> f.name == ""
    ensures f.branch == "" && f.year == ""
  {
    SetupForm(if user.Some? then OrElse(user.value.displayName, "") else "", "", "")
  }

  /** The profile the setup page writes. */
  function SetupProfile(u: AuthUser, f: SetupForm): (p: Profile)
    ensures p.uid == Some(u.uid) && p.email == u.email && p.photoURL == u.photoURL
    ensures p.name == Some(f.name) && p.branch == Some(f.branch) && p.year == Some(f.year)
    ensures p.college == Some(College)
    ensures !p.isSuspended && !p.isVerified && p.role.None?
  {
    EmptyProfile.(uid := Some(u.uid), name := Some(f.name), email := u.email, branch := Some(f.branch),
                  year := Some(f.year), college := Some(College), photoURL := u.photoURL)
  }

  /** The store's profiles and the session's profile after the setup
      page, and whether it moved on to the home page. */
  datatype SetupResult = SetupResult(users: map<Uid, Profile>, userData: Option<Profile>, home: bool)

  /** `ProfileSetup.handleSubmit`: nothing without a user; otherwise the
      profile document is set (replacing any earlier one) and, once that
      succeeds, the session holds the same profile. */
  function SetupSubmit(users: map<Uid, Profile>, userData: Option<Profile>, user: Option<AuthUser>, f: SetupForm, ok: bool): (r: SetupResult)
    ensures user.None? || !ok ==> r == SetupResult(users, userData, false)
    ensures user.Some? && ok ==>
              && r.users == users[user.value.uid := SetupProfile(user.value, f)]
              && r.userData == Some(r.users[user.value.uid])
              && r.home
  {
    if user.None? || !ok then SetupResult(users, userData, false)
    else
      var p := SetupProfile(user.value, f);
      SetupResult(users[user.value.uid := p], Some(p), true)
  }

  /** After the setup, the session lets protected pages open, and a new
      sign-in of the same account reads back the same profile. */
  lemma SetupAdmits(st: AuthState, u: AuthUser, users: map<Uid, Profile>, f: SetupForm)
    requires st.user == Some(u) && !st.loading
    ensures var r := SetupSubmit(users, st.userData, Some(u), f, true);
            && Protected(st.(userData := r.userData)) == Children
            && OnAuthChange(st, Some(u), r.users).userData == r.userData
  {
  }

  /** The profile editor's fields. */
  datatype EditForm = EditForm(
    name: string, bio: string, branch: string, year: string,
    instagram: string, linkedin: string, github: string, youtube: string)

  /** A social link of a possibly missing record. */
  function LinkOr(s: Option<SocialLinks>, pick: SocialLinks -> Option<string>): string {
    if s.Some? then OrElse(pick(s.value), "") else ""
  }

  /** The editor as it opens: every field from the profile, or "" when
      the profile, the record or the field is missing or empty. */
  function NewEditForm(userData: Option<Profile>): (f: EditForm)
    ensures userData.None? ==> f == EditForm("", "", "", "", "", "", "", "")
    ensures userData.Some? ==>
              && f.name == OrElse(userData.value.name, "") && f.bio == OrElse(userData.value.bio, "")
              && f.branch == OrElse(userData.value.branch, "") && f.year == OrElse(userData.value.year, "")
    ensures userData.Some? && userData.value.socialLinks.Some? ==>
              var s := userData.value.socialLinks.value;
              && f.instagram == OrElse(s.instagram, "") && f.linkedin == OrElse(s.linkedin, "")
              && f.github == OrElse(s.github, "") && f.youtube == OrElse(s.youtube, "")
    ensures (userData.None? || userData.value.socialLinks.None?) ==>
              f.instagram == "" && f.linkedin == "" && f.github == "" && f.youtube == ""
  {
    if userData.None? then EditForm("", "", "", "", "", "", "", "")
    else
      var p := userData.value;
      EditForm(OrElse(p.name, ""), OrElse(p.bio, ""), OrElse(p.branch, ""), OrElse(p.year, ""),
               LinkOr(p.socialLinks, (s: SocialLinks) => s.instagram),
               LinkOr(p.socialLinks, (s: SocialLinks) => s.linkedin),
               LinkOr(p.socialLinks, (s: SocialLinks) => s.github),
               LinkOr(p.socialLinks, (s: SocialLinks) => s.youtube))
  }

  /** The update: name, bio, branch, year and a whole new `socialLinks`
      record with its four keys; every other field of the profile is
      kept. */
  function ApplyEdits(p: Profile, f: EditForm): (q: Profile)
    ensures q.name == Some(f.name) && q.bio == Some(f.bio) && q.branch == Some(f.branch) && q.year == Some(f.year)
    ensures q.socialLinks == Some(SocialLinks(Some(f.instagram), Some(f.linkedin), Some(f.github), Some(f.youtube)))
    ensures q.(name := p.name, bio := p.bio, branch := p.branch, year := p.year, socialLinks := p.socialLinks) == p
  {
    p.(name := Some(f.name), bio := Some(f.bio), branch := Some(f.branch), year := Some(f.year),
       socialLinks := Some(SocialLinks(Some(f.instagram), Some(f.linkedin), Some(f.github), Some(f.youtube))))
  }

  /** The store's profiles and the session's profile after saving, and
      whether the editor closed. */
  datatype EditResult = EditResult(users: map<Uid, Profile>, userData: Option<Profile>, closed: bool)

  /** `EditProfileModal.handleSubmit`: the profile document is updated
      (which fails when it does not exist) and the session's profile is
      merged with the same updates; a missing user or a failure changes
      nothing and leaves the editor open. */
  function SaveProfile(users: map<Uid, Profile>, userData: Option<Profile>, user: Option<AuthUser>, f: EditForm, ok: bool): (r: EditResult)
    ensures user.None? || !ok || user.value.uid !in users ==> r == EditResult(users, userData, false)
    ensures user.Some? && ok && user.value.uid in users ==>
              && r.closed
              && r.users == users[user.value.uid := ApplyEdits(users[user.value.uid], f)]
              && r.userData == Some(ApplyEdits(if userData.Some? then userData.value else EmptyProfile, f))
  {
    if user.None? || !ok || user.value.uid !in users then EditResult(users, userData, false)
    else
      var uid := user.value.uid;
      EditResult(users[uid := ApplyEdits(users[uid], f)],
                 Some(ApplyEdits(if userData.Some? then userData.value else EmptyProfile, f)), true)
  }

  /** When the session's profile is the stored one, saving keeps them
      equal. */
  lemma SaveKeepsSessionInStep(users: map<Uid, Profile>, u: AuthUser, f: EditForm, ok: bool)
    requires u.uid in users
    ensures var r := SaveProfile(users, Some(users[u.uid]), Some(u), f, ok);
            u.uid in r.users && r.userData == Some(r.users[u.uid])
  {
  }

  /** Saving the editor unchanged, on a profile whose edited fields are
      all present and non-empty, gives back the same profile. */
  lemma SaveUnchangedRestores(p: Profile)
    requires Truthy(p.name) && Truthy(p.bio) && Truthy(p.branch) && Truthy(p.year)
    requires p.socialLinks.Some?
    requires var s := p.socialLinks.value;
             Truthy(s.instagram) && Truthy(s.linkedin) && Truthy(s.github) && Truthy(s.youtube)
    ensures ApplyEdits(p, NewEditForm(Some(p))) == p
  {
  }

  /** Saving the editor unchanged turns a missing field into an empty
      one. */
  lemma SaveUnchangedFillsBio(p: Profile)
    requires p.bio.None?
    ensures ApplyEdits(p, NewEditForm(Some(p))).bio == Some("")
  {
  }
}
