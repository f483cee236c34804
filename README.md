# Student portal core, modelled in Dafny

The portal is a React single-page application for the students of a university: a resource library,
a discussion forum, an events calendar and a community directory. Almost all of its behaviour is
rendering. The little logic it has is modelled and proved here:

- the shared resource catalogue (`ResourceContext`): type, subject and text queries, the like and
  download counters, and the toasts they raise;
- the listing filters of the Forum, Events, Community and Resources pages, and the Forum sort;
- the decisions the event and resource cards make: defaults, the fully-booked test, the footer button,
  the icon and type label;
- the small stateful handlers: the tag list of the new-discussion form, the reply list of a discussion
  page, and the session gate and toasts of logout;
- the avatar initials of the navigation bar;
- the watermarking download helper. Its fetch, object URL, anchor click and toasts are recorded as a
  trace of events.

Each listing filter is specified in the same way. The result is a subsequence of the input, so order
is kept. Every value occurs in it exactly as often as in the input when it passes the page's predicate,
and not at all otherwise. The Forum sort is proved to be a stable, descending sort on the chosen key:
it is a permutation, it is ordered, and posts with equal keys keep their relative order. For an
unknown key it is the identity.

Text handling follows the JavaScript operations the code calls. `toLowerCase`/`toUpperCase` are
modelled on ASCII letters only. `includes` is substring search. `trim` removes the ECMAScript white-space and
line-terminator characters. `split(' ')` splits on single spaces.

The event pages contain an inconsistency, stated as lemmas in `Events`. An event with a stored
capacity of 0 passes the "available" view, because `0 || Infinity` is unbounded. Its card still shows
"Fully Booked", because `attendees >= 0`, and it hides the attendee line, because `0` is falsy.
In that case `{maxAttendees && (...)}` yields the number 0 itself, which React renders as a stray "0"
where the line would be. That text is rendering and is not modelled.

The help pages say that downloads need a signed-in user. The catalogue's `downloadResource` checks
no user at all, and nothing in the application calls the watermarking helper. See "## Findings".

## Model

| member | source | states |
|---|---|---|
| ResourceContext.ResourcesByType | src/context/ResourceContext.tsx:88-91 | no type gives the whole catalogue; a type gives, in order, exactly the resources of that type |
| ResourceContext.ResourcesBySubject | src/context/ResourceContext.tsx:93-95 | in order, exactly the resources whose subject equals the argument |
| ResourceContext.SearchResources | src/context/ResourceContext.tsx:153-163 | an empty query gives the whole catalogue; otherwise, in order, exactly the resources whose lower-cased title, description or subject contains the lower-cased query |
| ResourceContext.EmptyQueryMatchesAll | src/context/ResourceContext.tsx:153-163 | every resource passes the search test for the empty query, so filtering by it keeps everything |
| ResourceContext.IncrementWhere | src/context/ResourceContext.tsx:113-117 | the list keeps its length; resources with another id are untouched; a resource with the id has the chosen counter raised by one and every other field equal |
| ResourceContext.IncrementRaisesTotal | src/context/ResourceContext.tsx:113-117 | the counter's total over the catalogue grows by the number of resources carrying the id |
| ResourceContext.IncrementKeepsOtherTotal | src/context/ResourceContext.tsx:113-117 | bumping one counter leaves the other counter's total unchanged |
| ResourceContext.FindById | src/context/ResourceContext.tsx:101 | nothing exactly when no resource has the id; otherwise the first resource with it |
| ResourceContext.UnknownIdIncrementIsNoop | src/context/ResourceContext.tsx:101-102 | when no resource has the id, the update changes nothing |
| ResourceContext.ResourceStore.constructor | src/context/ResourceContext.tsx:82-84 | the store starts with the given catalogue, not loading, with no toasts and no saves |
| ResourceContext.ResourceStore.LikeResource | src/context/ResourceContext.tsx:134-151 | without a signed-in user: the catalogue is unchanged and "Authentication required" is toasted; with one: the resource's likes go up by one |
| ResourceContext.ResourceStore.DownloadResource | src/context/ResourceContext.tsx:97-132 | unknown id: catalogue unchanged, one "Download failed" toast, nothing saved; known id: downloads up by one, one save of its url under its title, one "Download started" toast; loading is off at the end either way |
| ResourceContext.AnonymousDownloadIsSaved | src/context/ResourceContext.tsx:97-132 | as written, a fresh catalogue with nobody signed in saves the requested resource |
| ResourceContext.ResourceStore.DownloadResourceAs | src/pages/support/FAQ.tsx:14 | with nobody signed in the download is refused with "Authentication required" and nothing is saved; otherwise it is `DownloadResource`; a file is saved only for a signed-in user |
| ResourceContext.AnonymousGatedDownloadIsRefused | src/pages/support/FAQ.tsx:14 | with the check in place, the same anonymous request saves nothing and asks the user to log in |
| Forum.FilteredPosts | src/pages/Forum.tsx:135-147 | in order, exactly the posts matching search (title, content or any tag), category and solved filter |
| Forum.UnfilteredListingIsEverything | src/pages/Forum.tsx:135-147 | empty search, "All Categories" and "all" list every post |
| Forum.SolvedTabsPartitionAll | src/pages/Forum.tsx:142-144 | the "solved" and "unsolved" tabs share no post and together hold exactly the posts of the "all" tab |
| Forum.UnknownFilterShowsNothing | src/pages/Forum.tsx:142-144 | a filter value other than all, solved and unsolved lists nothing |
| Forum.SortedPosts | src/pages/Forum.tsx:150-160 | a permutation of the filtered posts; "popular" orders by likes and "replied" by replies, from high to low; the sort is stable; any other key keeps the order |
| Forum.SortKey | src/pages/Forum.tsx:151-159 | "popular" orders by likes, "replied" by replies, and any other key makes all posts compare equal |
| Seqs.SortDesc | src/pages/Forum.tsx:150-160 | the stable descending sort the comparators describe: a permutation, non-increasing in the key, equal keys in input order |
| Seqs.ConstantKeySortIsIdentity | src/pages/Forum.tsx:151-153 | a comparator that always answers 0 leaves the list as it is |
| Events.FilteredEvents | src/pages/Events.tsx:105-116 | in order, exactly the events matching search, category and view |
| Events.SearchSeesTitleAndDescriptionOnly | src/pages/Events.tsx:106-107 | two events with equal title and description match every search term alike |
| Events.RegisteredAndAvailableDisjoint | src/pages/Events.tsx:111-113 | no event is listed under both "registered" and "available" |
| Events.UnfilteredListingIsEverything | src/pages/Events.tsx:105-116 | empty search, "All Categories" and "all" list every event |
| Events.AvailableMeansRegisterNow | src/pages/Events.tsx:113 | for an unregistered event with positive or no capacity, being listed as available is the same as its card offering "Register Now" |
| Events.ZeroCapacityAvailableButFullyBooked | src/pages/Events.tsx:113 | an unregistered event of capacity 0 is listed as available, yet its card shows "Fully Booked" |
| CardEvent.Attendees | src/components/ui/card-event.tsx:30 | the attendee count defaults to 0 |
| CardEvent.IsRegistered | src/components/ui/card-event.tsx:33 | registered exactly when the flag is present and true |
| CardEvent.IsFullyBooked | src/components/ui/card-event.tsx:35 | full exactly when a capacity is given and the attendees reach it; never full without a capacity; with the attendee count left out, full only at a capacity of 0 or below |
| CardEvent.ShowsAttendeeCount | src/components/ui/card-event.tsx:85 | the attendee line shows exactly when a capacity is given and it is not 0 |
| CardEvent.Footer | src/components/ui/card-event.tsx:96-107 | "View Details" to /events/id exactly when registered; otherwise "Fully Booked" exactly when booked; otherwise "Register Now" to /events/id/register |
| CardEvent.ZeroCapacityIsBookedButUncounted | src/components/ui/card-event.tsx:35 | a capacity of 0 counts as fully booked while the attendee line stays hidden |
| Community.FilteredGroups | src/pages/Community.tsx:165-173 | in order, exactly the groups whose name, description or any tag contains the search term, in the chosen category |
| Community.FilteredAmbassadors | src/pages/Community.tsx:176-181 | in order, exactly the ambassadors whose name, role, department or bio contains the search term |
| Community.FilteredStudyGroups | src/pages/Community.tsx:184-187 | in order, exactly the study groups whose subject or leader contains the search term |
| Community.AmbassadorSearchFields | src/pages/Community.tsx:176-181 | ambassadors alike in name, role, department and bio match every search term alike |
| Community.StudyGroupSearchFields | src/pages/Community.tsx:184-187 | study groups alike in subject and leader match every search term alike |
| Community.UnfilteredListsAreEverything | src/pages/Community.tsx:165-187 | an empty search (and "All Categories") lists every group, ambassador and study group |
| Community.StudyGroupButton | src/pages/Community.tsx:281-285 | the button is disabled exactly when members reach capacity, reads "Group Full" exactly then, and otherwise reads "Join Group" |
| CardResource.IconFor | src/components/ui/card-resource.tsx:34-44 | the file icon exactly for pdf, the video icon exactly for video, the book icon for the rest |
| CardResource.TypeLabel | src/components/ui/card-resource.tsx:46-57 | pdf gives "PDF", video "Video", article "Article", and every other type "Resource"; no other label occurs |
| CardResource.LabelsAreDistinct | src/components/ui/card-resource.tsx:46-57 | distinct named types get distinct labels |
| CardResource.IconFollowsLabel | src/components/ui/card-resource.tsx:34-57 | article and other share the book icon, which is shown exactly when the label is "Article" or "Resource" |
| CardResource.View | src/components/ui/card-resource.tsx:27-30 | absent uploader, date, likes and downloads show as "Admin", "2 days ago", 0 and 0; present ones show as given |
| ResourcesPage.FilteredResources | src/pages/Resources.tsx:102-111 | in order, exactly the resources matching search, subject and type |
| ResourcesPage.SubjectIsNotSearched | src/pages/Resources.tsx:103-104 | a resource whose title and description miss the term is never listed, whatever its subject |
| ResourcesPage.UnfilteredListingIsEverything | src/pages/Resources.tsx:102-111 | empty search, "All Subjects" and "all" list every resource |
| ResourcesPage.TypeFilterFixesLabel | src/pages/Resources.tsx:108 | under a type filter every listed resource has exactly that type, and its card shows that type's label |
| Navbar.Split | src/components/layout/Navbar.tsx:124 | at least one piece, and no piece contains a space |
| Navbar.FirstChars | src/components/layout/Navbar.tsx:125-126 | at most one character per piece; when no piece is empty, exactly the first character of each piece, in order |
| Navbar.JoinSplit | src/components/layout/Navbar.tsx:124 | joining the pieces with single spaces gives the name back |
| Navbar.FirstCharsOfSplit | src/components/layout/Navbar.tsx:123-126 | the first characters of the pieces are the first letters of the words, in order; empty pieces add nothing |
| Navbar.GetInitials | src/components/layout/Navbar.tsx:121-129 | "U" for an absent or empty name; otherwise the upper-cased word initials cut to two; never more than two characters and never a lower-case letter |
| Navbar.SpacesOnlyNameHasNoInitials | src/components/layout/Navbar.tsx:122-128 | every non-empty name made only of spaces gets neither the "U" fallback nor any initial: the result is empty |
| Navbar.HandleLogout | src/components/layout/Navbar.tsx:83-119 | the session is read first; without one sign-out never happens and one destructive "Logout failed" is shown; with one sign-out happens and either success is toasted and home is opened, or the error's message (or "Something went wrong") is toasted; always exactly one toast |
| ForumNew.AddTag | src/pages/ForumNew.tsx:41-46 | the tags either stay and the input stays, or gain the trimmed input at the end and the input clears; blank input adds nothing; an input whose trim is already a tag changes neither tags nor input; non-blank input is a tag afterwards |
| ForumNew.AddTagKeepsWellFormed | src/pages/ForumNew.tsx:41-46 | a tag list without duplicates, blanks or untrimmed entries keeps that shape |
| ForumNew.AddTagTwiceAddsOnce | src/pages/ForumNew.tsx:42 | adding the same text again adds nothing |
| ForumNew.TagForm.constructor | src/pages/ForumNew.tsx:26-27 | no tags, empty input, a well-formed list |
| ForumNew.TagForm.SetTagInput | src/pages/ForumNew.tsx:121 | only the input changes |
| ForumNew.TagForm.HandleTagAdd | src/pages/ForumNew.tsx:41-46 | the new tags and input are those of `AddTag`, and a well-formed list stays well formed |
| ForumPostView.FindPost | src/pages/ForumPostView.tsx:13-16 | nothing exactly when no post has the id; otherwise the first post with it |
| ForumPostView.RepliesForPost | src/pages/ForumPostView.tsx:168 | in order, exactly the replies to the post |
| ForumPostView.LoadedRepliesBelong | src/pages/ForumPostView.tsx:168 | every loaded reply answers the post |
| ForumPostView.SubmitDisabledIffTrimEmpty | src/pages/ForumPostView.tsx:296 | the button's blank test is the page's test: disabled exactly when the trimmed reply text is empty |
| ForumPostView.NewReply | src/pages/ForumPostView.tsx:180-191 | the new reply answers the given post, carries the text as typed, has 0 likes, the id "r" followed by the time stamp, the current user as author and "Just now" as date |
| ForumPostView.PostView.constructor | src/pages/ForumPostView.tsx:155-158 | no post, no replies, loading, empty box |
| ForumPostView.PostView.Load | src/pages/ForumPostView.tsx:159-173 | without an id nothing changes; with one the post and its replies are loaded and loading ends |
| ForumPostView.PostView.SetReplyText | src/pages/ForumPostView.tsx:292 | only the reply text changes |
| ForumPostView.SubmitReplyTo | src/pages/ForumPostView.tsx:176-196 | blank text leaves list and box as they are; otherwise the new reply (id "r" + stamp, route id, current user, untrimmed text, 0 likes) goes in front, the box clears, and the list grows by exactly one |
| ForumPostView.SubmitKeepsBelonging | src/pages/ForumPostView.tsx:176-196 | a submission on the routed post keeps every listed reply answering that post |
| ForumPostView.PostView.SubmitReply | src/pages/ForumPostView.tsx:176-196 | the new replies and reply text are those of `SubmitReplyTo`; post and loading flag are untouched; a list answering the routed post keeps answering it |
| WatermarkPdf.ApplyWatermark | src/utils/watermarkPdf.ts:5-42 | the payload comes back unchanged on both paths; "Watermark Applied" on success, destructive "Watermark Failed" on error |
| WatermarkPdf.DownloadWithWatermark | src/utils/watermarkPdf.ts:45-93 | a failed or not-ok fetch gives fetch then one "Download Failed" toast, with no watermark call and no save; otherwise fetch, watermark, object URL, click, revoke and "Download Started" in that order; saves only after an ok fetch, under the given file name, of the fetched bytes, with every URL revoked; it always returns |
| Text.Lower | src/context/ResourceContext.tsx:156 | same length; each upper-case ASCII letter becomes its lower-case letter and every other character stays; no upper-case ASCII letter remains |
| Text.Upper | src/components/layout/Navbar.tsx:127 | same length; each lower-case ASCII letter becomes its upper-case letter and every other character stays; no lower-case ASCII letter remains |
| Text.Contains | src/pages/Forum.tsx:136 | true exactly when the needle occurs at some position of the text |
| Text.Trim | src/pages/ForumNew.tsx:42 | removes a blank prefix and a blank suffix and leaves no white space at either end |
| Text.TrimIdempotent | src/pages/ForumNew.tsx:42 | trimming twice is trimming once |
| Text.TrimEmptyIffBlank | src/pages/ForumPostView.tsx:178 | the trim is empty exactly when the text is all white space |
| Seqs.Find | src/context/ResourceContext.tsx:101 | nothing exactly when no element passes; otherwise the first element that passes |
| Seqs.FilterSelects | src/pages/Forum.tsx:135 | a filter keeps order and keeps each passing value with its full multiplicity, and nothing else |

## Left out

- Rendering, layout, styling, icons as images and navigation menus are not modelled. Only the values the components compute are.
- Supabase, authentication and profile storage are external services. The session and the sign-out answer are parameters of `Navbar.HandleLogout`.
- ResourceContext.ResourceStore.DownloadResource: the browser download through a temporary anchor is recorded as a save request of the url under the title. The functional state update is applied to the list the handler read, which is the same list when nothing interleaves.
- `setTimeout` delays and async interleaving (the post-view load, the new-discussion submit, the watermark delay) are left out. Each handler runs to completion as one step.
- Time-stamped identifiers: `Date.now()` in the reply id is a parameter.
- Text.Lower: case mapping covers ASCII letters only, not the full Unicode tables `toLowerCase`/`toUpperCase` use.
- Strings are sequences of Unicode scalar values, while JavaScript strings are sequences of UTF-16 code units. Indexing, lengths and `substring` therefore differ for characters outside the Basic Multilingual Plane. For the name "😀 Bob", `getInitials` returns a lone high surrogate followed by "B", where `Navbar.GetInitials` returns "😀B".
- Console output is dropped everywhere: the `console.log`/`console.error` calls of `handleLogout` (Navbar.tsx lines 84, 88, 101 and 112), of `downloadWithWatermark` (watermarkPdf.ts line 85) and of `applyWatermark`. None of them affects state or the trace.
- JavaScript numbers are modelled as unbounded integers. Likes, downloads, attendees and capacities never approach 2^53 in this code.
- WatermarkPdf.ApplyWatermark: the simulated delay and the console output are left out. No bytes are stamped, because the code stamps none.
- WatermarkPdf.DownloadWithWatermark: a failure of `response.blob()` or `URL.createObjectURL` is not modelled. Those lines are covered only in the sense that the method always returns.
- The object URL the browser mints is a parameter (`handle`). The anchor's creation, insertion and removal are folded into the single `Click` event.
- Nothing in the application calls `downloadWithWatermark`, so it is modelled on its own. The catalogue's `downloadResource` neither checks for a signed-in user nor watermarks (see "## Findings").
- ResourceContext.ResourceStore.DownloadResourceAs: the wording of its refusal toast follows the like handler's toast, because the code has no such toast to copy.
- Forum submission (`handleSubmit`) only waits and navigates, so it is not modelled.
- The Forum "recent" sort compares nothing, so it is modelled as the identity.

## Findings

| source | as written | input that shows it | evidently intended | confidence | as-written member | corrected member |
|---|---|---|---|---|---|---|
| src/context/ResourceContext.tsx:97-132 | `downloadResource` saves any catalogued file without looking at the signed-in user and without a watermark, while the FAQ (src/pages/support/FAQ.tsx:14) says a download needs a logged-in user | a catalogue holding one resource `x` and a call `downloadResource(x.id)` with nobody signed in: `x` is saved | refuse the download with an "Authentication required" toast when nobody is signed in, as `likeResource` does for likes | not executed; high that the code lacks the check, medium that the FAQ states the intent | ResourceContext.AnonymousDownloadIsSaved | ResourceContext.ResourceStore.DownloadResourceAs |
