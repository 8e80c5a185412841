# Campus social app — a Dafny model of its handlers

This project models the logic of a campus social web app. The app is written
as React components over a Firestore document store. Its users post to a feed,
like and comment, react to anonymous confessions, follow each other, and chat
one to one. They also list study links, assignments, marketplace items and
roommate posts, and administrators moderate all of it.

Each event handler is modelled as a pure function over a store snapshot. The
document store is a set of Dafny maps and sequences, with the store's own rules
written out: `arrayUnion`/`arrayRemove`, `increment` from a missing field, an
update of a missing document that fails, a delete of a missing document that
succeeds, and an atomic write batch. A failure is an explicit `Fault`
parameter, meaning "the write at step k rejects". Earlier writes then stay, as
they do in the app, which awaits its writes one at a time.

Modules, following the program's structure:

- `Base`: `Option`, JavaScript truthiness of strings, `x || d`, `increment`,
  and the `Fault` parameter.
- `Text`: ECMAScript `trim`, ASCII `toLowerCase`, `includes`, string
  ordering, the "Read more" clip, and `split(c)[0]`.
- `Seqs`: filters, subsequences, `arrayUnion`/`arrayRemove`, and
  `[...new Set(xs)]`.
- `Model`: the stored documents (profiles, notifications, chats, messages,
  comments), the administrator address, and the generated-avatar URL.
- `ChatAddressing`: the deterministic chat id `min_max` and get-or-create from
  a profile, an assignment, a study link or a marketplace item.
- `Messaging`: sending a message, the chat page, and the inbox.
- `Reactions`: confession emoji reactions, one emoji per user.
- `Likes`: the post like toggle with its optimistic local state.
- `Follow`: follow and unfollow with the four writes and the counters.
- `Comments`: replies on posts and comments on study links, with their
  counters and delete permissions.
- `Notifications`: the notification page's sender cache, its read-marking
  batch, link targets and rows.
- `Listings`: the page filters, text clipping, price labels, and author-only
  buttons.
- `UserSearch`: the user search modal and the admin user filter.
- `Moderation`: pin, delete, suspend, and the `isPinned` backfill.
- `Session`: the auth observer with its suspension sign-out, and the two
  route guards.
- `LinkPreview`: study-link URL normalisation, and the YouTube and Instagram
  embed matchers, with the regular expressions modelled character by
  character.
- `Forms`: the create, upload, list, submit, profile-setup and profile-edit
  forms.

## Model

| member | source | states |
|---|---|---|
| Text.Trim | src/pages/Chat.jsx:59-61 | the trimmed text is a window of the input that neither starts nor ends with white space, and only white space lies outside it |
| Text.BlankIffAllSpace | src/pages/Chat.jsx:59 | `!input.trim()` holds exactly when every character of the input is white space |
| Text.Lower | src/components/UserSearchModal.jsx:31-36 | lower-casing keeps the length and maps each character on its own, A–Z to a–z and all else unchanged |
| Text.LowerIdempotent | src/components/UserSearchModal.jsx:31-36 | lower-casing twice is the same as once |
| Text.Includes | src/components/UserSearchModal.jsx:33-35 | `includes` is true exactly when the needle occurs as a contiguous window of the text |
| Text.LexTrichotomy | src/pages/UserProfile.jsx:89 | the string order used by `sort()` is strict: for distinct strings exactly one is less |
| Text.ClipShowsPrefix | src/components/ConfessionCard.jsx:57-77 | a clipped text is its first `limit` characters plus "..." and appears only when the text is longer; "Read more" and "Show less" never show together; expanded text is shown whole |
| Text.BeforeFirst | src/components/PostCard.jsx:70 | `split('@')[0]` is the longest prefix free of '@', and it stops at the first '@' when there is one |
| Seqs.ArrayUnion | src/components/PostCard.jsx:53-63 | `arrayUnion` adds the value when absent and otherwise leaves every count unchanged |
| Seqs.ArrayRemove | src/components/PostCard.jsx:43-50 | `arrayRemove` removes every copy of the value and keeps every other value's count |
| Seqs.UnionThenRemove | src/components/PostCard.jsx:43-63 | removing a value just added to an array that lacked it gives back the array |
| Seqs.Dedup | src/pages/NotificationsPage.jsx:27 | `[...new Set(xs)]` has no duplicates and the same members as `xs` |
| Seqs.Take | src/components/UserSearchModal.jsx:37 | `slice(0, n)` is the prefix of length min(n, length) |
| ChatAddressing.SortPair | src/pages/UserProfile.jsx:89 | the sorted participant pair holds exactly the two uids, in order |
| ChatAddressing.ChatId | src/pages/UserProfile.jsx:89-90 | `sorted[0]_sorted[1]`; no contract of its own: what it promises is stated by ChatIdSymmetric, ChatIdInjective and ChatIdCollidesWithSeparator below |
| ChatAddressing.ChatIdSymmetric | src/pages/UserProfile.jsx:89-90 | either user opening the chat computes the same id |
| ChatAddressing.ChatIdInjective | src/pages/UserProfile.jsx:89-90 | for uids without '_', equal chat ids mean the same pair of users |
| ChatAddressing.ChatIdCollidesWithSeparator | src/pages/UserProfile.jsx:90 | without that assumption two different pairs share an id |
| ChatAddressing.GetOrCreate | src/pages/UserProfile.jsx:89-104 | an existing chat is reused untouched; otherwise exactly one chat is added with the sorted pair and the greeting; a failed write adds nothing |
| ChatAddressing.GetOrCreateNeverOverwrites | src/pages/UserProfile.jsx:92-102 | no existing chat is ever changed by opening a chat |
| ChatAddressing.ContactFromBothSidesOneChat | src/pages/UserProfile.jsx:89-104 | A contacting B and then B contacting A yields one chat, created once |
| ChatAddressing.ProfileMessage | src/pages/UserProfile.jsx:80-109 | signed out does nothing; otherwise the user lands on `/chat/<id>`, and a new chat starts with an empty last message; a rejected creation changes no chat and opens nothing |
| ChatAddressing.AssignmentMessage | src/components/AssignmentCard.jsx:17-38 | behaves as the profile's Message button for the assignment's author |
| ChatAddressing.ContactOwner | src/pages/StudyLinks.jsx:39-61 | the contact button of the study-links page (and, with the buying greeting, of the marketplace); on a study link: no action when signed out or on one's own link; otherwise `/chat/<id>`, a new chat opening with "Hi, checking about your study link: " and the title; a rejected creation changes no chat |
| ChatAddressing.ItemContactOpensOffer | src/pages/Marketplace.jsx:31-53 | the marketplace's contact button is ContactOwner on an item for sale: a buyer's first contact opens `/chat/<id>` with a new chat of buyer and seller starting "Hi, I'm interested in buying: " and the title; the seller's own click does nothing |
| Messaging.SendMessage | src/pages/Chat.jsx:57-82 | a blank input does nothing; otherwise the input is cleared, at most the one trimmed message is appended for the sender, and a send without alert leaves the chat summarised by that message |
| Messaging.BlankMessageNoWrite | src/pages/Chat.jsx:57-59 | a white-space-only message writes nothing and keeps the input |
| Messaging.SendStoresTrimmed | src/pages/Chat.jsx:57-82 | a send appends exactly one message with the trimmed text, summarises the chat with it and its sender, keeps the participants, and clears the input |
| Messaging.SendWithoutChatDoc | src/pages/Chat.jsx:66-80 | with the chat document missing, the message is stored, the summary update fails, and the alert shows |
| Messaging.OtherParticipant | src/pages/Inbox.jsx:27 | `find(uid => uid !== me)` is none exactly when every participant is me, else the first other uid |
| Messaging.OtherOfPair | src/pages/Chat.jsx:26 | in a two-user chat the other participant is the other user, whatever the order |
| Messaging.OpenChatPage | src/pages/Chat.jsx:22-37 | a missing chat redirects to the inbox and an existing one opens; a partner is shown exactly when the other participant is truthy and has a profile |
| Messaging.ResolveInbox | src/pages/Inbox.jsx:24-45 | one row per chat in snapshot order, each with its own resolved partner |
| Messaging.UnknownUserFallback | src/pages/Inbox.jsx:27-35 | a chat with nobody else, or whose partner has no profile, shows "Unknown User" |
| Messaging.Preview | src/pages/Inbox.jsx:93 | the preview carries "You: " exactly when the current user sent the last message |
| Messaging.PreviewAfterSend | src/pages/Inbox.jsx:93 | after a send, the sender's inbox shows "You: " plus the trimmed text and the partner's shows it bare |
| Messaging.InboxAvatar | src/pages/Inbox.jsx:80 | the row shows the partner's stored photo when there is one, else the generated avatar |
| Messaging.InboxAvatarIgnoresPhoto | src/pages/Inbox.jsx:80 | for a profile with a photo, the row as written shows the generated avatar and the corrected one shows the photo |
| Reactions.Find | src/components/ConfessionCard.jsx:19-21 | a found entry holds the emoji; none found means no entry holds it |
| Reactions.CurrentEmoji | src/components/ConfessionCard.jsx:19-21 | the current emoji is none exactly when the user is in no list, else one whose list holds the user |
| Reactions.HandleReaction | src/components/ConfessionCard.jsx:14-41 | the update applied to the reaction map; no contract of its own: its effect is stated by ClickListOf, SameEmojiTogglesOff, OtherEmojiMoves, ClickKeepsAtMostOne, ClickSparesOthers and DoubleClickRestores below |
| Reactions.ReactionUpdate | src/components/ConfessionCard.jsx:14-41 | a write is issued exactly when someone is signed in |
| Reactions.ApplyOpListOf | src/components/ConfessionCard.jsx:23-39 | a field update changes only that emoji's list, as `arrayUnion`/`arrayRemove` would |
| Reactions.CurrentEmojiMeaning | src/components/ConfessionCard.jsx:19-21 | with at most one reaction per user, a user is in an emoji's list exactly when it is their current emoji |
| Reactions.ClickListOf | src/components/ConfessionCard.jsx:14-41 | a click removes the user from the clicked emoji if it was theirs, else adds them there and removes them from their previous emoji; other lists stay |
| Reactions.SignedOutNoWrite | src/components/ConfessionCard.jsx:15 | signed out, a click writes nothing |
| Reactions.SameEmojiTogglesOff | src/components/ConfessionCard.jsx:23-27 | clicking one's own emoji removes only oneself from it and changes no other list |
| Reactions.OtherEmojiMoves | src/components/ConfessionCard.jsx:29-39 | clicking another emoji puts the user there once and in no other list |
| Reactions.ClickKeepsAtMostOne | src/components/ConfessionCard.jsx:14-41 | a click keeps the invariant of at most one reaction per user |
| Reactions.ClickSparesOthers | src/components/ConfessionCard.jsx:14-41 | a click never changes how often another user appears in any list |
| Reactions.DoubleClickRestores | src/components/ConfessionCard.jsx:14-41 | for a user with no reaction, two clicks on an emoji restore every list |
| Reactions.ButtonFollowsClicks | src/components/ConfessionCard.jsx:83-84 | the button's count rises by one and turns active, then falls back and turns inactive |
| Likes.InitialView | src/components/PostCard.jsx:17-29 | the heart starts filled exactly when the signed-in user is in the likes, and the local list is the stored one or empty |
| Likes.SenderName | src/components/PostCard.jsx:70 | the notification name is the display name, else the email's part before its first '@' (all of it when there is none), else absent (the split throws) |
| Likes.ToggleLike | src/components/PostCard.jsx:34-84 | no other user's like changes, neither in the shown likers nor in the stored likes array, and a notification is sent only for a like by someone other than the author, to the author |
| Likes.SignedOutNoop | src/components/PostCard.jsx:35 | signed out, nothing changes |
| Likes.LikeAdds | src/components/PostCard.jsx:53-63 | a like adds the uid to the post's likes and to the likers, and fills the heart locally |
| Likes.UnlikeRemoves | src/components/PostCard.jsx:43-50 | an unlike removes every copy of the uid, keeps other likers, and sends no notification |
| Likes.NotifiesOnlyOthers | src/components/PostCard.jsx:66-76 | a like notifies the author with an unread "like" note, and never notifies oneself |
| Likes.NoNoteWithoutLikeByOther | src/components/PostCard.jsx:43-76 | unlikes and self-likes never write a notification |
| Likes.ErrorReverts | src/components/PostCard.jsx:78-83 | a failing write resets the local state to what the post props say |
| Likes.NamelessLikeKeptButReverted | src/components/PostCard.jsx:53-83 | a user with neither display name nor email keeps the stored like but loses the local heart and sends no note |
| Likes.FilterOutIsRemove | src/components/PostCard.jsx:47 | the local `filter(id => id !== uid)` equals the store's `arrayRemove` |
| Likes.LocalMirrorsStore | src/components/PostCard.jsx:34-84 | a successful toggle keeps the local heart and list in agreement with the store |
| Likes.LikeThenUnlikeRestores | src/components/PostCard.jsx:34-84 | like then unlike restores the likes, the likers and the local state |
| Follow.LoadedCounts | src/pages/UserProfile.jsx:37-38 | a missing counter shows as 0, else its stored value |
| Follow.Bump | src/pages/UserProfile.jsx:126-137 | `increment` on a profile fails exactly when it is missing, and otherwise changes that one counter by delta |
| Follow.HandleFollow | src/pages/UserProfile.jsx:111-145 | only the pair (target, me) among the followers and (me, target) among the following can change, no profile is added or removed, and a view that flips is released from loading and agrees with the stored relationship |
| Follow.FollowGuardNoop | src/pages/UserProfile.jsx:112 | signed out, or while a click is in flight, nothing changes |
| Follow.FollowWrites | src/pages/UserProfile.jsx:131-138 | a follow adds both relationship documents, raises both counters by one and updates the view |
| Follow.UnfollowWrites | src/pages/UserProfile.jsx:121-128 | an unfollow deletes both relationship documents, lowers both counters by one and updates the view |
| Follow.FollowTouchesTwoProfiles | src/pages/UserProfile.jsx:111-145 | no profile other than the two users' changes |
| Follow.FollowThenUnfollowRestores | src/pages/UserProfile.jsx:111-145 | follow then unfollow restores both relationship sets, the view and the counters, which stay present |
| Follow.FollowMissingTarget | src/pages/UserProfile.jsx:131-144 | following a user whose profile is gone writes the relationships, then the counter fails, and the view is unchanged |
| Comments.BumpCount | src/components/CommentSection.jsx:45-48 | the increment fails exactly when the parent is missing, else raises its count by delta and changes nothing else |
| Comments.ReplyAuthorName | src/components/CommentSection.jsx:40 | the reply shows the profile name unless anonymous or nameless, then "Anonymous"; never empty |
| Comments.PostComment | src/components/CommentSection.jsx:32-79 | no reply other than the new one changes; the input is cleared only after the reply, as typed and with its author's name, is stored and counted |
| Comments.DeleteComment | src/components/CommentSection.jsx:81-94 | the reply is removed or nothing happens; no notification; the count drops by at most one, and by exactly one when nothing fails and the parent exists |
| Comments.BlankOrSignedOutNoWrite | src/components/CommentSection.jsx:34 | a blank reply, or a signed-out user, writes nothing |
| Comments.PostCommentWrites | src/components/CommentSection.jsx:32-79 | a reply adds exactly one comment, raises the count by one, notifies the parent's author unless it is oneself, and clears the input |
| Comments.PostCommentMissingParent | src/components/CommentSection.jsx:37-48 | on a deleted parent the reply is stored but the count update fails and the input stays |
| Comments.AddThenDeleteRestores | src/components/CommentSection.jsx:81-94 | deleting a reply just posted restores the comments and the count |
| Comments.CanDeleteReply | src/components/CommentSection.jsx:131 | the reply's delete condition; no contract of its own: ReplyDeleteVisibility and SignedOutSeesDeleteOnAuthorless below state it |
| Comments.ReplyDeleteVisibility | src/components/CommentSection.jsx:131 | the delete button shows exactly for the author, the administrator email and the admin role |
| Comments.SignedOutSeesDeleteOnAuthorless | src/components/CommentSection.jsx:131 | a reply without an author shows its delete button to a signed-out visitor |
| Comments.LinkAddComment | src/pages/StudyLinks.jsx:350-375 | never sends a notification; no other comment changes; the input is cleared only after the comment, named by the display name or "User", is stored and counted |
| Comments.LinkCommentRoundTrip | src/pages/StudyLinks.jsx:350-390 | a link comment is stored under the display name or "User" and counted, and deleting it restores both |
| Comments.CanDeleteLinkComment | src/pages/StudyLinks.jsx:406 | the author only; stated by LinkCommentDeleteAuthorOnly below |
| Comments.LinkCommentDeleteAuthorOnly | src/pages/StudyLinks.jsx:406 | a signed-in user sees the delete button exactly on their own comment, whatever their role |
| Comments.LinkCommentSignedOut | src/pages/StudyLinks.jsx:352 | signed out, a link comment writes nothing |
| Comments.DiscussCount | src/pages/StudyLinks.jsx:182 | the Discuss label shows the stored count, or 0 when missing or negative |
| Notifications.TruthyIds | src/pages/NotificationsPage.jsx:27 | the sender ids kept are exactly the non-empty sender ids present |
| Notifications.SenderIds | src/pages/NotificationsPage.jsx:27 | the ids fetched are those senders, each once |
| Notifications.FetchSenders | src/pages/NotificationsPage.jsx:31-37 | the fetched map holds exactly the requested senders whose profile exists |
| Notifications.MergeUsers | src/pages/NotificationsPage.jsx:39 | the merge keeps earlier entries and lets fresh ones win |
| Notifications.ReadBatch | src/pages/NotificationsPage.jsx:44-50 | no batch exactly when everything is read; a batch updates exactly the unread ids |
| Notifications.CommitRead | src/pages/NotificationsPage.jsx:45-51 | the batch is atomic: it marks every listed note read and nothing else, or changes nothing |
| Notifications.OnSnapshot | src/pages/NotificationsPage.jsx:23-51 | one snapshot lists the notes, merges the senders' profiles, keeps every cached profile it did not fetch again, and requests the read batch |
| Notifications.MarkReadSettles | src/pages/NotificationsPage.jsx:44-51 | after the batch commits, the next snapshot issues no batch, so the page does not loop |
| Notifications.LinkOf | src/pages/NotificationsPage.jsx:67-72 | `getLink`; no contract of its own: LinkOfTargets and FollowNeverLinksToPost below state where it leads |
| Notifications.LinkOfTargets | src/pages/NotificationsPage.jsx:67-72 | a follow links to the sender's profile, otherwise a truthy post id links to the post, else nowhere |
| Notifications.FollowNeverLinksToPost | src/pages/NotificationsPage.jsx:68 | a follow note always links to a profile |
| Notifications.Action | src/pages/NotificationsPage.jsx:119-121 | the three known kinds have an action text and any other kind has none |
| Notifications.SenderOf | src/pages/NotificationsPage.jsx:94 | a cached sender profile supplies its name and stored photo, else the note's own name and photo |
| Notifications.RowFor | src/pages/NotificationsPage.jsx:103-117 | the row shows the sender's photo or the generated avatar, the name or "User", the link and the action |
| Notifications.CachedSenderLosesPhoto | src/pages/NotificationsPage.jsx:94-103 | for a cached sender with a photo, the row as written shows the generated avatar and the corrected one shows the photo |
| Notifications.UncachedSenderAgrees | src/pages/NotificationsPage.jsx:94 | for an uncached sender both readings agree on the note's own name and photo |
| Listings.FilterLinks | src/pages/StudyLinks.jsx:33-37 | a link is kept exactly when it passes both the branch and the subject selector, in order |
| Listings.FilterLinksAllAndIdempotent | src/pages/StudyLinks.jsx:33-37 | "All"/"All" keeps everything, and filtering twice equals once |
| Listings.FilterItems | src/pages/Marketplace.jsx:29 | "All" keeps every item, otherwise exactly the items of that category |
| Listings.FilterAssignments | src/pages/Assignments.jsx:31-37 | an assignment is kept exactly when it passes both the branch and the year selector |
| Listings.FilterAssignmentsAllAndIdempotent | src/pages/Assignments.jsx:31-37 | "All"/"All" keeps everything, and filtering twice equals once |
| Listings.FilterRoommates | src/pages/Roommates.jsx:32 | "All" keeps every post, otherwise exactly the posts of that type |
| Listings.RoommateButtonsPartition | src/pages/Roommates.jsx:32-48 | a typed post appears under exactly one of the type buttons, its own |
| Listings.ClippedText | src/components/PostCard.jsx:130-150 | the clipped view is the text's first `limit` characters followed by "...", exactly when collapsed and too long; "Show less" shows exactly when expanded and too long |
| Listings.PostTextClip | src/components/PostCard.jsx:130-134 | feed text over 250 characters shows its first 250 and "..." |
| Listings.RoommateDescription | src/components/RoommateCard.jsx:69-91 | a description clips at 150; a missing one shows only "..." with Read More, since an undefined length is not at most 150 |
| Listings.RoommateDescriptionClip | src/components/RoommateCard.jsx:70-74 | a description over 150 characters shows its first 150 and "..." |
| Listings.PriceLabel | src/components/AssignmentCard.jsx:69 | an empty or missing price shows "Free" |
| Listings.ControlsFor | src/components/AssignmentCard.jsx:82-108 | on an assignment card the author sees Delete and everyone else, signed out included, sees Message, never both |
| Listings.RoommateCanDelete | src/components/RoommateCard.jsx:115 | `user?.uid === post.authorId`; stated by RoommateDeleteForAuthor below |
| Listings.RoommateDeleteForAuthor | src/components/RoommateCard.jsx:115 | a signed-in user sees Delete exactly on their own post |
| Listings.LinkCardControls | src/pages/StudyLinks.jsx:184-204 | the study-link card uses the same controls: a signed-out visitor sees Chat and no Delete, the author only Delete |
| UserSearch.SearchUsers | src/components/UserSearchModal.jsx:26-37 | a blank term finds nobody; otherwise the results are the first min(10, number of matches) profiles matching the lower-cased term, in fetch order |
| UserSearch.FieldMatchesMeaning | src/components/UserSearchModal.jsx:33-35 | a missing field never matches; a present one matches when the term occurs in its lower-cased text |
| UserSearch.LaterProfilesNeverDisplace | src/components/UserSearchModal.jsx:32-37 | profiles later in the list never push out the ones shown: the results for a list are a prefix of those for any extension of it |
| UserSearch.CutOnlyWhenFull | src/components/UserSearchModal.jsx:37 | fewer than ten results means every match is shown |
| UserSearch.FewMatchesAllShown | src/components/UserSearchModal.jsx:32-37 | with ten or fewer matches every match is shown |
| UserSearch.SearchIgnoresTermCase | src/components/UserSearchModal.jsx:31 | the term's letter case does not change the results |
| UserSearch.UntrimmedTermMisses | src/components/UserSearchModal.jsx:26-31 | the term is trimmed only for the blank check, so " bob" does not find "bob" |
| UserSearch.FilterUsers | src/pages/AdminDashboard.jsx:123-126 | the admin list keeps exactly the users whose name or email contains the search |
| UserSearch.EmptySearchNeedsNameOrEmail | src/pages/AdminDashboard.jsx:123-126 | an empty search still hides users with neither name nor email |
| Moderation.CollectionOfInjective | src/pages/AdminDashboard.jsx:18-23 | distinct tabs read distinct collections |
| Moderation.PinPost | src/pages/AdminDashboard.jsx:59-70 | only on the posts tab, the flag is negated in the store and in the list; a rejected write changes nothing |
| Moderation.PinTwice | src/pages/AdminDashboard.jsx:59-70 | pinning twice restores a set flag, and leaves an unset one as false |
| Moderation.DeleteContent | src/pages/AdminDashboard.jsx:72-80 | the document leaves the store and exactly its item leaves the list, order kept |
| Moderation.SuspendUser | src/pages/AdminDashboard.jsx:82-94 | the flag is negated on the profile and on its rows, every other field and row kept; a missing profile changes nothing |
| Moderation.SuspendTwiceRestores | src/pages/AdminDashboard.jsx:82-94 | suspending and unsuspending restores the profile and the row |
| Moderation.MigratePosts | src/pages/AdminDashboard.jsx:96-121 | every post without the flag gets false, the others are untouched, and the count is the number fixed |
| Moderation.UnsetZero | src/pages/AdminDashboard.jsx:104-113 | a snapshot in which every flag is set has nothing to fix |
| Moderation.MigrateTwice | src/pages/AdminDashboard.jsx:96-121 | a second migration fixes nothing and changes nothing |
| Session.OnAuthChange | src/context/AuthContext.jsx:20-43 | a suspended user is signed out and stays loading; otherwise loading ends and the profile is loaded exactly when it exists |
| Session.IsAdmin | src/context/AuthContext.jsx:51 | the signed-in account's email is the administrator address; stated through Session.Admin and Session.AdminWithoutProfile below |
| Session.Protected | src/components/ProtectedRoute.jsx:7-23 | the spinner while loading, login when signed out, profile setup without a profile, else the page |
| Session.Admin | src/components/AdminRoute.jsx:7-13 | nothing while loading, the page exactly for the administrator email, else home |
| Session.ProtectedAfterEvent | src/context/AuthContext.jsx:20-43 | after an auth event the app opens exactly for a signed-in, unsuspended user with a profile |
| Session.SuspendedNeverAdmitted | src/context/AuthContext.jsx:30-34 | a suspended user never reaches a page, and the sign-out event ends at the login redirect |
| Session.NewAccountSetsUpProfile | src/components/ProtectedRoute.jsx:19-21 | a new account is sent to profile setup and admitted once a profile exists |
| Session.AdminWithoutProfile | src/context/AuthContext.jsx:51 | the administrator account opens the admin page even without a profile |
| LinkPreview.NormalizeUrl | src/pages/StudyLinks.jsx:251-254 | the stored URL always has a scheme; one that already has it is kept, else "https://" is prefixed |
| LinkPreview.NormalizeIdempotent | src/pages/StudyLinks.jsx:251-254 | normalising twice equals once, and the typed URL is its tail |
| LinkPreview.UpperCaseSchemeKept | src/pages/StudyLinks.jsx:252 | the scheme test ignores letter case |
| LinkPreview.LastAlt | src/pages/StudyLinks.jsx:65 | the greedy `^.*` settles on the last position within the first line where an alternative matches |
| LinkPreview.YouTubeGroup | src/pages/StudyLinks.jsx:65-66 | the captured group is the maximal `[^#&?]*` run starting right after the last alternative within the first line; there is none exactly when no alternative matches in the first line |
| LinkPreview.YouTubeId | src/pages/StudyLinks.jsx:63-68 | an empty URL has no id; a non-empty URL has an id exactly when the pattern matches and group 2 has 11 characters, and the id is then that group |
| LinkPreview.WatchUrlRoundTrip | src/pages/StudyLinks.jsx:63-68 | any one-line prefix plus "watch?v=" plus an 11-character id yields that id |
| LinkPreview.WatchUrlWrongLength | src/pages/StudyLinks.jsx:67 | an id of another length yields none |
| LinkPreview.CodeStart | src/pages/StudyLinks.jsx:72 | host, slash, kind and slash are spelled at a position exactly when a code position exists, and it sits right after them |
| LinkPreview.ShortcodeAt | src/pages/StudyLinks.jsx:72 | the pattern matches at a position exactly when a code character follows host, slash, kind and slash; the capture is spelled there and is the maximal non-empty run of `[a-zA-Z0-9_-]` |
| LinkPreview.FirstMatch | src/pages/StudyLinks.jsx:72 | the unanchored search takes the leftmost matching position |
| LinkPreview.InstagramEmbed | src/pages/StudyLinks.jsx:70-74 | an empty URL has no embed; a non-empty URL has an embed exactly when the pattern matches somewhere, and it is the post URL of the leftmost match's shortcode |
| LinkPreview.ShortcodeAtHost | src/pages/StudyLinks.jsx:72 | at either host, `instagram.com` or `instagr.am`, followed by a kind and a code, the pattern matches with the code as group 1 |
| LinkPreview.InstagramRoundTrip | src/pages/StudyLinks.jsx:70-74 | a post, reel or tv URL embeds as the post with its shortcode |
| LinkPreview.ReelEmbedsAsPost | src/pages/StudyLinks.jsx:73 | a reel URL and a post URL with the same shortcode embed alike |
| Forms.CreatePost | src/components/CreatePostModal.jsx:17-62 | nothing without text or image; a rejected upload alerts its message; a written post carries the author's profile, no likes, unpinned, and the image URL or "" |
| Forms.Toggled | src/components/CreatePostModal.jsx:11 | the anonymity flag after a number of presses is the start flag, flipped when the count is odd |
| Forms.AnonymousAfterPresses | src/components/CreatePostModal.jsx:11-52 | a written post is anonymous exactly when the toggle was pressed an odd number of times |
| Forms.PostButtonMatchesGuard | src/components/CreatePostModal.jsx:17-129 | the Post button is enabled exactly when the handler would act, and never while loading |
| Forms.CreateConfession | src/components/CreateConfessionModal.jsx:14-27 | a blank confession is ignored; otherwise it is written with author, college and empty reactions exactly when signed in with a profile |
| Forms.ConfessionButtonMatchesGuard | src/components/CreateConfessionModal.jsx:14-53 | the button is enabled exactly when the handler would act |
| Forms.NewAssignmentForm | src/components/UploadAssignmentModal.jsx:10-16 | fields start empty, with branch and year taken from the profile |
| Forms.UploadAssignment | src/components/UploadAssignmentModal.jsx:24-39 | an empty required field stops the upload; otherwise the form is stored with the author's uid and name |
| Forms.SpacesPassAssignmentGuard | src/components/UploadAssignmentModal.jsx:24 | a title of spaces passes the guard, which does not trim |
| Forms.ListItem | src/pages/Marketplace.jsx:227-256 | a chosen image whose upload fails aborts; otherwise the item is listed with the seller, "Student" as fallback name, and the image URL or "" |
| Forms.ListingImageIffChosen | src/pages/Marketplace.jsx:231-248 | a listing has an image URL exactly when an image was chosen |
| Forms.SubmitLink | src/pages/StudyLinks.jsx:247-270 | a link is stored with a normalised URL, the author and "Student" as fallback name; a failure alerts |
| Forms.NewSetupForm | src/pages/ProfileSetup.jsx:12 | the name starts as the account's display name, or empty |
| Forms.SetupProfile | src/pages/ProfileSetup.jsx:26-35 | the new profile carries the account's uid, email and photo, the form's fields, the college, unsuspended and unverified |
| Forms.SetupSubmit | src/pages/ProfileSetup.jsx:20-40 | signed out or failed, nothing changes; otherwise the profile is stored, loaded into the session, and the user goes home |
| Forms.SetupAdmits | src/pages/ProfileSetup.jsx:37-39 | after setup the protected pages open, and a later auth event loads the same profile |
| Forms.NewEditForm | src/components/EditProfileModal.jsx:9-16 | the edit form starts from the profile's fields, with empty strings for missing ones |
| Forms.ApplyEdits | src/components/EditProfileModal.jsx:28-33 | saving sets exactly the edited fields and keeps every other profile field |
| Forms.SaveProfile | src/components/EditProfileModal.jsx:28-40 | a missing profile, no user or a failure changes nothing; otherwise the store and the session both get the edits |
| Forms.SaveKeepsSessionInStep | src/components/EditProfileModal.jsx:33-36 | after a save the session profile equals the stored one |
| Forms.SaveUnchangedRestores | src/components/EditProfileModal.jsx:9-33 | saving an unedited form leaves a fully filled profile unchanged |
| Forms.SaveUnchangedFillsBio | src/components/EditProfileModal.jsx:11-31 | saving an unedited form turns a missing bio into "" |

## Left out

- Store SDK calls (`onSnapshot`, `getDoc`, `getDocs`, `writeBatch`, `addDoc`) become values or parameters. A fresh document id is a parameter the caller must pick outside the collection, which is the store's guarantee.
- Timestamps, `serverTimestamp()` and every `orderBy` are left out. Listings are taken in the order the snapshot gives them.
- Sign-in with Google (`Login.jsx`), the Cloudinary upload request, and `alert`/`confirm` dialogs are parameters: an `ok` flag, an `Upload` result, or a confirmation that has already happened.
- Rendering-only files (`App.jsx`, `Layout.jsx`, `BottomNav.jsx`, `Feed.jsx`, `Confessions.jsx`, `SinglePostPage.jsx`) and icons and styling are left out. `UserListModal.jsx` and `CreateRoommateModal.jsx` only read lists or write one document with no rule beyond the form, and are not modelled.
- Strings are sequences of code points. JavaScript's UTF-16 lengths differ for characters outside the basic plane, which matters for the 250 and 150 clip limits and the 11-character YouTube id. `sort()` compares UTF-16 code units, so `Text.LexLess` (code points) orders characters above U+FFFF differently from those in U+E000–U+FFFF; for store-generated uids, which are ASCII letters and digits, the two orders agree, and `ChatAddressing.ChatIdInjective` does not depend on the order at all.
- `Text.Lower` only lowers ASCII letters, while JavaScript's `toLowerCase` also lowers other scripts.
- Regular expressions are modelled only for the two patterns the study-link page uses. The round-trip lemmas cover the `watch?v=` and the `instagram.com/<kind>/` shapes, not every URL.
- `Number(price)` and other numeric parsing are left out: a price is the string typed.
- The store rejects a field whose value is `undefined`. The model stores it as a missing field instead, so a write with such a field succeeds in the model.
- `Promise.all` in the backfill runs its updates in parallel. A partial failure is not modelled; `Moderation.MigratePosts` describes a complete run.
- `Follow.HandleFollow` writes no notification, as in the page. No handler in the app writes a notification of kind `follow`, although the notification page renders one.
- The reaction handler reads the card's prop snapshot, which the model takes to be the stored document. Two users clicking at once, and a stale snapshot, are not modelled.
- The other pages that read `photoUrl` (`UserListModal.jsx:79`, `UserSearchModal.jsx:71`, `Chat.jsx:97`, `AdminDashboard.jsx:239`, `UserProfile.jsx:176`) have the same defect as the two findings below; they are rendering only and are not modelled.

## Findings

| source | as written | input that shows it | evidently intended | confidence | as-written member | corrected member |
|---|---|---|---|---|---|---|
| src/pages/Inbox.jsx:80 | the row's avatar reads `otherUser.photoUrl`, but profiles store `photoURL`, so it is always undefined | a partner profile with `photoURL` "https://example.com/a.jpg" | show the partner's stored photo, falling back to the generated avatar | high, not executed | Messaging.InboxAvatarAsWritten (exhibited by Messaging.InboxAvatarIgnoresPhoto) | Messaging.InboxAvatar |
| src/pages/NotificationsPage.jsx:94-103 | a cached sender profile is used as `sender`, whose `photoUrl` is undefined because profiles store `photoURL`; the note's own `senderPhoto` is then ignored too | a "like" note from a cached sender whose profile has `photoURL` "https://example.com/r.jpg" | show the sender's stored photo | high, not executed | Notifications.SenderAsWritten (exhibited by Notifications.CachedSenderLosesPhoto) | Notifications.SenderOf |
