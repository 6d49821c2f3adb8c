# ForumX core model

A Dafny model of the deterministic rules of ForumX, a forum front end that runs
on mock data. Each React component's state is a record, each handler a pure
transition on that record, and the in-memory mock store of `api.ts` a record of
sequences that every mock call transforms synchronously. Toasts and navigations
are returned outcome tags. Generated ids, timestamps, the clock, the unseen
`createSlug` and the `createdAt` of the mock user `MOCK_USER` (set when the
module loads) are parameters.

Modules (one per source file, plus shared helpers):

- `Vote` (`vote.dfy`): the tri-state vote toggle. The post card and every
  comment item carry identical copies of it.
- `PostCard`, `CommentSection`, `CommunityHeader`: the component state machines.
- `Api` (`api.dfy`): the mock store and the fetch, create and vote operations.
- `CreateCommunity`, `CreatePost`, `Auth`, `Communities`, `Home`, `Discussions`:
  the pages and the authentication context.
- `Membership`: the join/leave id list that `Home.tsx` and `Communities.tsx`
  both define.
- `Seqs`, `Text`, `Wrappers`: order-preserving filters and subsequences;
  whitespace, trimming, ASCII lower-casing and decimal strings; `Option` and
  `Result`.

A thrown `Error` is modelled as `Err(message)` with the source's message text.
`Array.prototype.find` is `Seqs.FirstIndex`, and `filter` is `Seqs.Filter`.

## Model

| member | source | states |
|---|---|---|
| Vote.Init | src/components/post/PostCard.tsx:31-32 | A card or comment mounts with no vote and count upvotes − downvotes. |
| Vote.Click | src/components/post/PostCard.tsx:35-49 | Clicking the active arrow removes the vote; any other click makes it the vote; the count moves by exactly the change in the status's contribution (±1 adding or removing, ±2 switching). |
| Vote.ClickConsistent | src/components/post/PostCard.tsx:35-49 | One click keeps count = baseline + contribution(status). |
| Vote.RunConsistent | src/components/post/PostCard.tsx:35-49 | Every click sequence keeps count = baseline + contribution(status). |
| Vote.MountedRunBounded | src/components/post/PostCard.tsx:31-49 | After any clicks from mount the count stays within one of upvotes − downvotes. |
| Vote.ClickTwice | src/components/post/PostCard.tsx:35-49 | Two clicks on the same arrow restore (status, count) exactly when the first click was not a switch from the opposite vote. |
| Vote.ClickMirror | src/components/post/PostCard.tsx:35-49 | The toggle is symmetric under exchanging up and down and negating the count. |
| Vote.Scenario | src/components/post/PostCard.tsx:31-49 | From 10 up and 2 down, clicking up, up, down, up shows 9, 8, 7, 9 with the expected statuses. |
| Vote.RunStep | src/components/post/PostCard.tsx:35-49 | A click sequence is its first click followed by the rest. |
| PostCard.Mount | src/components/post/PostCard.tsx:31-33 | A card mounts unvoted and unsaved, with count upvotes − downvotes. |
| PostCard.HandleVote | src/components/post/PostCard.tsx:35-49 | The card's vote handler is the shared toggle and leaves `isSaved` alone. |
| PostCard.ToggleSaved | src/components/post/PostCard.tsx:168 | The bookmark flips `isSaved` and changes nothing else. |
| PostCard.ToggleSavedInvolution | src/components/post/PostCard.tsx:168 | Two bookmark clicks restore the card. |
| PostCard.SaveLabel | src/components/post/PostCard.tsx:171 | The label is "Saved" exactly when the post is saved, and "Save" otherwise. |
| PostCard.FormatContent | src/components/post/PostCard.tsx:51-56 | A list card with a body over 200 characters shows the first 200 followed by "..."; otherwise the body is shown unchanged. |
| PostCard.FormatContentIsPreview | src/components/post/PostCard.tsx:51-56 | A list preview has at most 203 characters and is either the body or extends the body's first 200 characters. |
| Text.BlankIffNoText | src/components/post/CommentSection.tsx:46 | `!s.trim()` holds exactly when no character of the text is non-whitespace. |
| CommentSection.EditComment | src/components/post/CommentSection.tsx:88-90 | Typing changes the comment text unless a submission is in flight. |
| CommentSection.PostEnabled | src/components/post/CommentSection.tsx:95 | "Post Comment" is enabled exactly when nothing is in flight and the text has a non-whitespace character. |
| CommentSection.SubmitComment | src/components/post/CommentSection.tsx:36-76 | Being signed out is refused first, then an empty text; refusals leave the form unchanged; success clears the text and ends not submitting. |
| CommentSection.MountItem | src/components/post/CommentSection.tsx:137-140 | A comment item mounts unvoted, with count upvotes − downvotes and the reply box closed and empty. |
| CommentSection.ItemVote | src/components/post/CommentSection.tsx:142-156 | The comment item's vote handler is the same toggle as the post card's and leaves the reply box alone. |
| CommentSection.ToggleReplyBox | src/components/post/CommentSection.tsx:231 | "Reply" opens or closes the reply box and keeps the draft. |
| CommentSection.CancelReply | src/components/post/CommentSection.tsx:251 | "Cancel" closes the reply box and keeps the draft. |
| CommentSection.EditReply | src/components/post/CommentSection.tsx:248 | Typing replaces the reply draft and nothing else. |
| CommentSection.SubmitReply | src/components/post/CommentSection.tsx:158-179 | A blank draft is a no-op; any other draft is posted, the box closes and the draft is cleared, with the vote untouched. |
| CommentSection.RenderItem | src/components/post/CommentSection.tsx:182-266 | An item renders itself at its level and below it its replies at deeper levels, all indented. |
| CommentSection.RepliesOneLevelDeeper | src/components/post/CommentSection.tsx:263-266 | The rows one level below an item are its replies, one row each and in order. |
| CommentSection.RenderList | src/components/post/CommentSection.tsx:263-266 | A list at level L renders at least one row per comment, every row at level ≥ L, all indented when L > 0. |
| CommentSection.SiblingsAtLevel | src/components/post/CommentSection.tsx:263-266 | The rows a list renders at its own level L are its comments, one row each and in order; every other row is deeper. |
| CommentSection.NestedRowsIndented | src/components/post/CommentSection.tsx:182-266 | No row rendered below level 0 is unindented. |
| CommentSection.TopLevelUnindented | src/components/post/CommentSection.tsx:122-266 | The unindented rows of a rendered section are exactly the top-level comments, in order. |
| CommentSection.TopRows | src/components/post/CommentSection.tsx:122-124 | One row per comment of a list at the given level, in order. |
| CommunityHeader.Init | src/components/community/CommunityHeader.tsx:22-23 | The header mounts as a non-member with notifications off. |
| CommunityHeader.ToggleMembership | src/components/community/CommunityHeader.tsx:25-42 | Membership flips; leaving switches notifications off, joining leaves them; the toast names the community joined or left. |
| CommunityHeader.ToggleNotifications | src/components/community/CommunityHeader.tsx:44-65 | A non-member is refused with "Join required" and no state change; a member's notifications flip, with the matching toast. |
| CommunityHeader.Share | src/components/community/CommunityHeader.tsx:67-73 | Share shows "Link copied!" and changes no state. |
| CommunityHeader.StepValid | src/components/community/CommunityHeader.tsx:25-73 | Every handler preserves "notifications on implies member". |
| CommunityHeader.RunValid | src/components/community/CommunityHeader.tsx:22-73 | Every event sequence preserves "notifications on implies member". |
| CommunityHeader.JoinThenLeave | src/components/community/CommunityHeader.tsx:25-42 | Joining and then leaving ends as a non-member with notifications off. |
| CommunityHeader.MembershipLabel | src/components/community/CommunityHeader.tsx:103 | The button reads "Joined" exactly for a member, and "Join" otherwise. |
| Api.FetchPopularCommunities | src/lib/api.ts:226-230 | Exactly the popular communities, in store order, each as often as it occurs in the store. |
| Api.FetchCommunity | src/lib/api.ts:232-240 | The first community with the slug, or the not-found error exactly when no community has it. |
| Api.FetchCommunityPosts | src/lib/api.ts:248-252 | Exactly the posts with that community slug, in store order, each as often as it occurs in the store. |
| Api.FetchPost | src/lib/api.ts:254-262 | The first post with the id, or the not-found error exactly when no post has it. |
| Api.FetchPostComments | src/lib/api.ts:264-268 | Exactly the top-level comments of the post, in store order, each as often as it occurs in the store. |
| Api.PostIdsUnique | src/lib/api.ts:408 | With ids 1, 2, 3, … in order, no two posts share an id. |
| Api.CommunityIdsUnique | src/lib/api.ts:378 | With ids 1, 2, 3, … in order, no two communities share an id. |
| Api.CreateCommunity | src/lib/api.ts:373-392 | Appends one community with id length + 1, slug `createSlug(name)`, one member and not popular; nothing else changes. |
| Api.CreateCommunityKeepsIds | src/lib/api.ts:377-389 | Creating a community keeps community ids sequential. |
| Api.CreateCommunityThenFetch | src/lib/api.ts:232-240 | The new community is found by its slug unless an earlier community has that slug, which then still answers. |
| Api.CreatePost | src/lib/api.ts:394-427 | Appends one post with id length + 1, no votes or comments and `imageUrl` defaulting to ""; nothing else changes. |
| Api.CreatePostThenFetch | src/lib/api.ts:254-262 | With sequential ids, the created post keeps them sequential and `fetchPost` returns it by id. |
| Api.CreatePostThenCommunityPosts | src/lib/api.ts:248-252 | After `createPost`, its community's posts gain the new post at the end, and every other community's posts are unchanged. |
| Api.CountComment | src/lib/api.ts:478-481 | At the first position holding a post with the id, the comment count goes up by one and every other position is unchanged; with no such post the list is unchanged. |
| Api.AttachReply | src/lib/api.ts:454-457 | At the first position holding a top-level comment with the parent id, the reply goes last among its replies and every other position is unchanged; with no such comment the list is unchanged. |
| Api.CreateComment | src/lib/api.ts:429-485 | A non-empty `parentId` makes a reply that is attached and returned even without a parent, and counts nothing; otherwise a top-level comment is appended with no replies and counted on its post. |
| Api.CreateCommentThenFetch | src/lib/api.ts:264-268 | A new top-level comment is last among its post's comments; other posts' comments are unchanged. |
| Api.CreateReplyKeepsTopLevel | src/lib/api.ts:439-459 | A reply changes no top-level comment apart from its replies. |
| Api.CreateCommentTallies | src/lib/api.ts:439-484 | A top-level comment adds one to the summed comment counts exactly when its post exists; a reply adds one stored reply exactly when its parent exists and counts nothing. |
| Api.CountCommentTally | src/lib/api.ts:478-481 | Counting a comment adds one to the summed comment counts exactly when some post has the id. |
| Api.AttachReplyTally | src/lib/api.ts:454-457 | Attaching a reply adds one stored reply exactly when some top-level comment has the parent id. |
| Api.BumpPost | src/lib/api.ts:496-500 | One more upvote or one more downvote, nothing else. |
| Api.BumpComment | src/lib/api.ts:526-530 | One more upvote or one more downvote, nothing else. |
| Api.BumpReply | src/lib/api.ts:515-519 | One more upvote or one more downvote, nothing else. |
| Api.VoteOnPost | src/lib/api.ts:487-503 | The first post with the id gets the vote and is returned; the not-found error exactly when no post has the id. |
| Api.VoteOnPostScore | src/lib/api.ts:487-503 | The voted post's net score moves by the vote's contribution, and `fetchPost` then returns the updated post. |
| Api.VoteOnPostTallies | src/lib/api.ts:496-500 | A post vote adds exactly one upvote or exactly one downvote to the store. |
| Api.ReplyLocationFrom | src/lib/api.ts:512-522 | The first parent, from a position on, holding a reply with the id, and the first such reply in it. |
| Api.FindReply | src/lib/api.ts:512-522 | The `for … of` loop finds the same location. |
| Api.VoteOnComment | src/lib/api.ts:505-533 | Top-level comments are searched first, then replies parent by parent; the first match gets the vote; the not-found error exactly when no comment or reply has the id. |
| Api.VoteOnCommentPrefersTopLevel | src/lib/api.ts:509-532 | A top-level comment with the id always takes the vote, even if a reply shares it. |
| Api.VoteOnCommentTallies | src/lib/api.ts:512-532 | A comment vote adds exactly one upvote or exactly one downvote over all comments and replies. |
| Api.InitialIdsSequential | src/lib/api.ts:51-180 | The initial communities and posts have ids "1", "2", … in order. |
| Membership.Join | src/pages/Home.tsx:22-23 | Joining appends the id to the list. |
| Membership.Leave | src/pages/Home.tsx:30-31 | Leaving removes every copy of the id and keeps every copy of every other id, in order. |
| Membership.LeaveAfterJoin | src/pages/Communities.tsx:20-29 | Leaving undoes a join. |
| Membership.LeaveAbsent | src/pages/Communities.tsx:28-29 | Leaving an id that is not in the list changes nothing. |
| Membership.Toggle | src/pages/Home.tsx:154-158 | The button leaves when the id is joined and joins otherwise: it flips that id's membership only. |
| Membership.ToggleTwiceFromAbsent | src/pages/Home.tsx:154-158 | Two clicks from not joined restore the list exactly. |
| Membership.ToggleNoDuplicates | src/pages/Home.tsx:154-158 | One button click never puts an id into the list twice. |
| Membership.ToggleAllNoDuplicates | src/pages/Home.tsx:154-158 | No sequence of button clicks puts an id into the list twice. |
| Membership.ToggleAllParity | src/pages/Home.tsx:154-158 | After any clicks, an id's membership has flipped exactly when it was clicked an odd number of times. |
| Membership.ToggleAllFlips | src/pages/Home.tsx:154-158 | After any clicks, membership is the starting membership flipped once per click on the id. |
| Membership.OddCount | src/pages/Home.tsx:154-158 | Flipping once per click on the id is an odd number of clicks on it. |
| Membership.ToggleOne | src/pages/Home.tsx:154-158 | One click changes only the clicked id's membership. |
| Membership.Label | src/pages/Home.tsx:160 | The label is "Joined" exactly when the id is in the list, and "Join" otherwise. |
| Communities.Search | src/pages/Communities.tsx:36-41 | An empty query shows every community; otherwise exactly the communities whose lower-cased name or description contains the lower-cased query, in order and each as often as it is listed. |
| Communities.SearchIgnoresQueryCase | src/pages/Communities.tsx:38-39 | Lower-casing the query does not change the result. |
| Communities.Cards | src/pages/Communities.tsx:86-90 | One card per community, in order, with `isMember` exactly when its id is joined. |
| Communities.ToggleFlipsOnlyItsCards | src/pages/Communities.tsx:90-92 | A card's join/leave flips the flag of that community's cards only. |
| Communities.JoinedTab | src/pages/Communities.tsx:105-108 | The joined tab holds exactly the joined communities, in community-list order and each as often as it is listed. |
| Communities.JoinedTabIgnoresJoinOrder | src/pages/Communities.tsx:105-108 | The order and repetition of joins do not affect the joined tab. |
| Home.TopThree | src/pages/Home.tsx:134 | The panel shows the first min(3, n) popular communities. |
| Home.PanelIsPopular | src/pages/Home.tsx:134 | Every community in the panel is a popular community of the store, in store order. |
| Home.Rows | src/pages/Home.tsx:134-160 | One row per shown community, labelled "Joined" when its id is joined and "Join" otherwise. |
| Home.ClickSwitchesLabel | src/pages/Home.tsx:154-160 | Clicking a row's button switches that row's label from "Joined" to "Join" or back. |
| CreateCommunity.RemoveDisallowed | src/pages/CreateCommunity.tsx:41 | The first replacement keeps exactly the characters of `[a-z0-9\s-]`, in order and with their multiplicity. |
| CreateCommunity.DeriveSlug | src/pages/CreateCommunity.tsx:37-44 | A derived slug contains only `[a-z0-9-]`. |
| CreateCommunity.CollapseChars | src/pages/CreateCommunity.tsx:42 | The whitespace replacement leaves no whitespace and, from allowed characters, only slug characters. |
| CreateCommunity.CollapseAppend | src/pages/CreateCommunity.tsx:42 | The whitespace replacement of a concatenation is the replacement of each part, the second continuing the run state of the first. |
| CreateCommunity.CollapseCons | src/pages/CreateCommunity.tsx:42 | One step of the left-to-right scan. |
| CreateCommunity.RunStateAfterCons | src/pages/CreateCommunity.tsx:42 | The run state after a string is the run state after its tail, started from its first character. |
| CreateCommunity.CollapseRun | src/pages/CreateCommunity.tsx:42 | A whitespace run yields one hyphen outside a run and nothing inside one. |
| CreateCommunity.CollapseStartsOutsideRun | src/pages/CreateCommunity.tsx:42 | Text not starting with whitespace is replaced the same inside or outside a run. |
| CreateCommunity.CollapseMaximalRun | src/pages/CreateCommunity.tsx:42 | Each maximal whitespace run becomes exactly one hyphen. |
| CreateCommunity.CollapseNoSpace | src/pages/CreateCommunity.tsx:42 | Text without whitespace is left unchanged. |
| CreateCommunity.CollapseKeepsAlnum | src/pages/CreateCommunity.tsx:42 | The replacement keeps the letters and digits, in order, and adds none. |
| CreateCommunity.SlugKeepsAlnumInOrder | src/pages/CreateCommunity.tsx:40-42 | The slug's letters and digits are those of the lower-cased name, in order. |
| CreateCommunity.SlugWithoutSpaces | src/pages/CreateCommunity.tsx:40-42 | A name without whitespace yields exactly its lower-cased `[a-z0-9-]` characters, in order. |
| CreateCommunity.SlugIdempotent | src/pages/CreateCommunity.tsx:37-44 | Deriving a slug from a slug changes nothing. |
| CreateCommunity.SetName | src/pages/CreateCommunity.tsx:37-44 | The name keeps at most 21 typed characters; the slug is re-derived when the name changes and kept when it does not. |
| CreateCommunity.HandEditedSlug | src/pages/CreateCommunity.tsx:37-44 | A hand-edited slug survives re-entering the same name and is overwritten by the first different name. |
| CreateCommunity.SetSlug | src/pages/CreateCommunity.tsx:134-137 | Editing the slug by hand changes only the slug. |
| CreateCommunity.SetDescription | src/pages/CreateCommunity.tsx:149 | Editing the description changes only the description. |
| CreateCommunity.HandleSubmit | src/pages/CreateCommunity.tsx:46-89 | A blank name is refused first, then a blank description; otherwise the page navigates to `/community/{slug}`. |
| CreateCommunity.FillAndSubmit | src/pages/CreateCommunity.tsx:37-89 | A non-blank name and description lead to the community page at the name's derived slug. |
| CreatePost.InitialForm | src/pages/CreatePost.tsx:26-30 | The form starts empty with the `community` parameter selected, or nothing when it is absent. |
| CreatePost.SetTitle | src/pages/CreatePost.tsx:137-140 | The title keeps at most 300 typed characters. |
| CreatePost.SetContent | src/pages/CreatePost.tsx:152 | Editing the content changes only the content. |
| CreatePost.SelectCommunity | src/pages/CreatePost.tsx:116 | Choosing a community changes only the selection. |
| CreatePost.HandleSubmit | src/pages/CreatePost.tsx:46-89 | A blank title is refused first, then an empty selection; otherwise the page navigates to "/post/1". |
| CreatePost.ContentNeverChecked | src/pages/CreatePost.tsx:46-89 | The content never affects the outcome. |
| CreatePost.ParamAndTitleSuffice | src/pages/CreatePost.tsx:26-89 | A non-empty `community` parameter and a non-blank title always reach "/post/1". |
| Auth.MockUser | src/lib/auth.tsx:24-31 | The mock user's fixed fields. |
| Auth.Fresh | src/lib/auth.tsx:36-37 | The provider starts with nobody signed in and loading. |
| Auth.Mount | src/lib/auth.tsx:41-47 | A stored user is signed in again on mount, and loading ends. |
| Auth.Login | src/lib/auth.tsx:49-79 | An e-mail without '@' fails with "Invalid email format" and leaves user and storage; any other signs in and stores `MOCK_USER`, whatever the password; loading ends. |
| Auth.Register | src/lib/auth.tsx:81-125 | The first failing rule of username length, '@' and password length gives its message and changes nothing; success signs in and stores a user with id "1", the given username and e-mail, no avatar, the mock user's `createdAt` and zero karma; loading ends. |
| Auth.Logout | src/lib/auth.tsx:127-134 | Nobody is signed in and the stored entry is removed. |
| Auth.Merge | src/lib/auth.tsx:138 | Each field is the patch's value when the patch carries it and the user's otherwise. |
| Auth.UpdateUser | src/lib/auth.tsx:136-142 | Signed out, nothing changes; signed in, the merged user is signed in and stored. |
| Auth.UpdateUserTwice | src/lib/auth.tsx:136-142 | Two updates equal one update with the combined patch, the later keys winning. |
| Auth.UpdateUserEmpty | src/lib/auth.tsx:136-142 | An empty patch changes nothing when user and storage agree. |
| Auth.MountSyncs | src/lib/auth.tsx:41-47 | After mount the signed-in user and the stored entry agree. |
| Auth.OperationsKeepSynced | src/lib/auth.tsx:49-142 | Login, register, logout and update keep user and storage in agreement. |
| Auth.ReloadRestoresUser | src/lib/auth.tsx:41-47 | Reloading signs the same user in again. |
| Auth.LoginSurvivesReload | src/lib/auth.tsx:41-63 | After a login with any e-mail containing '@', a reload finds `MOCK_USER`. |
| Discussions.Group | src/pages/Discussions.tsx:48-53 | The two tabs hold exactly the "active" and the "scheduled" discussions, each in list order and each as often as it is listed. |
| Discussions.GroupsDisjoint | src/pages/Discussions.tsx:50-51 | No discussion is in both tabs, and one with any other status is in neither. |
| Discussions.GroupSizes | src/pages/Discussions.tsx:50-51 | The tabs together hold as many entries as there are discussions with one of the two statuses. |
| Discussions.FloorDiv | src/pages/Discussions.tsx:190-191 | `Math.floor(x / y)` is the quotient q with q·y ≤ x < (q+1)·y. |
| Discussions.StatusLabel | src/pages/Discussions.tsx:177-200 | "LIVE NOW" exactly when live, "ENDED" exactly when not live and past at the card's `isPast` clock read, and otherwise the countdown from its second clock read. |
| Discussions.Countdown | src/pages/Discussions.tsx:189-199 | At least an hour ahead: whole hours; at least a minute: whole minutes; "Starting soon" exactly when under a minute, including a start already passed. |
| Discussions.StartsIn | src/pages/Discussions.tsx:193-196 | A "Starts in" label is never "Starting soon". |
| Discussions.NestedFloor | src/pages/Discussions.tsx:190-191 | Whole hours of whole minutes are the whole hours of the milliseconds. |
| Discussions.HoursCountdownBounds | src/pages/Discussions.tsx:189-194 | An hours label h means the start is at least h and less than h + 1 hours away. |
| Discussions.ButtonText | src/pages/Discussions.tsx:244 | The button reads "Join Now" exactly when the discussion is live, and "View Details" otherwise. |
| Discussions.MockGroups | src/pages/Discussions.tsx:15-53 | The mock data puts two discussions in the active tab and one in the scheduled tab. |
| Discussions.GroupOfThree | src/pages/Discussions.tsx:48-53 | Two active discussions followed by a scheduled one split into the two tabs. |
| Discussions.MockLabels | src/pages/Discussions.tsx:184-200 | The discussion starting in 15 minutes is labelled "LIVE NOW" whatever the card's clocks read; the scheduled one reads "Starts in 3h" when its card reads the clock at the very millisecond the page rendered. |
| Discussions.MockScheduledLabelIff | src/pages/Discussions.tsx:184-200 | For a card clock not earlier than the page's, the scheduled discussion reads "Starts in 3h" if and only if the countdown clock equals the page's and the `isPast` clock has not passed the start. |
| Discussions.MockScheduledLabelLater | src/pages/Discussions.tsx:187-194 | When the scheduled card's countdown clock is later than the page's by up to an hour, it reads "Starts in 2h". |
| Text.Trim | src/pages/CreateCommunity.tsx:49 | `trim()` is empty exactly for all-whitespace text, and otherwise starts and ends with non-whitespace; it is a slice of the text with only whitespace before and after it. |
| Text.TrimFacts | src/pages/CreateCommunity.tsx:49 | Trimming both ends keeps a slice with no whitespace at either end and drops only whitespace. |
| Text.ToLower | src/pages/Communities.tsx:38-39 | Lower-casing maps A–Z to a–z and keeps every other character. |
| Text.ToLowerIdempotent | src/pages/Communities.tsx:38-39 | Lower-casing twice is lower-casing once. |
| Text.NatToString | src/lib/api.ts:378 | `toString()` of a natural is a non-empty digit string without a leading zero. |
| Text.ParseNatToString | src/lib/api.ts:378 | Reading the decimal string back gives the number. |
| Text.NatToStringInjective | src/lib/api.ts:408 | Different numbers give different ids. |

## Left out

- The React Query hooks and their `meta.onError` (`src/lib/api.ts:271-370`) are library wrappers around the fetch functions.
- Timers, `await`, simulated delays and the transient `isSubmitting` states are left out. Each mock call and handler is one synchronous step, and the `catch` branches that a simulated delay cannot reach are dropped.
- Toasts and navigation are returned outcome tags. Their descriptions and styling are not modelled.
- `Math.random` ids and the creation timestamps are parameters.
- `createSlug` lives in `./utils`, which is not part of this model. It is a function parameter.
- The clock is not modelled. Timestamps are opaque strings, and the countdown uses integer milliseconds. `Discussions.tsx` reads the clock five times. The three reads that build the mock list (lines 24, 34, 44) are taken as one `now`. The card's two reads, `new Date()` for `isPast` (line 178) and `Date.now()` for the countdown (line 189), are separate parameters.
- Discussions.MockScheduledLabelIff: covers only a card clock no earlier than the page's. A wall clock set back between the two renders would also show "Starts in 3h", and the lemma says nothing about that case.
- `Date` formatting is not modelled: `toISOString`, `formatDistanceToNow`, `toLocaleTimeString` and `toLocaleString`.
- `localStorage` and JSON are modelled as an optional stored user. A malformed entry that `JSON.parse` would reject is not modelled.
- Text.ToLower: only A–Z are lower-cased. JavaScript's full Unicode case mapping is not modelled; for example, it maps U+0130 to two characters and the Kelvin sign to "k".
- Text.Trim: the whitespace set is the ECMAScript WhiteSpace and LineTerminator characters, listed explicitly.
- String lengths count Unicode scalar values, not UTF-16 code units. A `maxLength` cut can therefore differ for characters outside the Basic Multilingual Plane.
- The source mutates the mock arrays in place and returns the mutated records. The model returns a new store and a copy of each record, so aliasing between a returned record and the store is not modelled.
- `Api.FetchAllCommunities` and `Api.FetchAllPosts` return the store's lists unchanged and carry no contract.
- `handleSubmitReply` only simulates posting and calls no API. `CommentSection.SubmitReply` reports a posted reply as a flag and does not change any store.
- Not modelled:
  - `src/pages/Settings.tsx`: toasts and FileReader I/O;
  - routing and layout files: `App.tsx`, `Layout.tsx`, `Header.tsx`, `Sidebar.tsx`, `Post.tsx`, `Community.tsx`;
  - `CommunityCard.tsx`: its two-way callback dispatch is `Membership.Toggle`.
- The redirect-to-login effects of `CreateCommunity.tsx` and `CreatePost.tsx` (navigation only) are not modelled, and neither is the privacy radio of `CreateCommunity.tsx`.
- `Community.tsx` passes a community id where `fetchCommunityPosts` expects a slug. This is left as written; the model only covers `fetchCommunityPosts` itself.
- Auth.Merge: a `Partial<User>` key present with the value `undefined` overwrites the field in JavaScript. The model treats such a key as absent.
