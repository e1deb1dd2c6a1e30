# SocialVersity page logic in Dafny

SocialVersity is a client-side prototype of a campus social platform. Its React pages work on
in-memory mock data. This project models the logic behind those pages. That logic is the event
handlers that change page state and the lists the pages derive from that state:

- **Connect**: the student directory's search box and filter tabs, and connecting to or
  disconnecting from a student.
- **Groups**: searching groups, the category and tag filters (v2 only), joining and leaving a
  group through a confirmation dialog, the selection toggles and the filter badge.
- **Forum**: liking a post, creating a post through a validated form, and the category tabs.
- **Onboarding**: the three-step wizard with its final loading state, the interest picker, the
  progress bar and the step indicators.
- **Messages**: sending a reply to the chat log and choosing a conversation.
- **Toast context**: the notification queue (add, remove) and `useToast` outside a provider.
- **Version context**: the UI variant derived from the URL path.
- **Dashboard**: the first two events, the first two unjoined groups and the greeting name.

Each source file is one module (`Connect`, `Groups`, `Forum`, `Onboarding`, `Messages`,
`Toasts`, `Versions`, `Dashboard`). Three helper modules support them:

- `Lists` holds `filter`, `slice(0, n)` and the toggle that four handlers share.
- `Text` holds `trim`, `toLowerCase` and `includes`.
- `Wrappers` holds `Option` (a value or `null`) and `Result` (a value or a thrown error).

A page whose handlers update state is a class. Its fields are the component's `useState`
variables, and each handler is a method. The method's `ensures` clauses give the new field
values as a function of the old ones, and its `modifies` frame lists only the fields the
handler may set. Where a page has an invariant, `Valid()` states it and every handler keeps it:

- Connect and Groups: the selection lists have no duplicates.
- Forum: every like counter is consistent with its flag.
- Onboarding: the step stays in 1..3, and the wizard loads only on step 3.
- Messages: the chat ids are 1..n.

The derived lists are functions. The lemmas relate them to each other and to the handlers.
When a handler raises a toast, the toast it would raise is an out-parameter.

Two observations came out of the proofs:

- **Toggling twice does not always restore the list.** A selection toggle removes a present
  value and appends an absent one. On a duplicate-free list, toggling the same value twice
  restores the list exactly when the value was absent or was the last element. Otherwise the
  value comes back at the end (`Lists.ToggleTwiceRestores`, `Connect.ReconnectReorders`). The
  set of selected values is always restored.
- **The "My Groups" tab does not filter.** It sets `activeTab`, but `filteredGroups` never reads
  that variable. So the model has no tab parameter for groups.

## Model

| member | source | states |
|---|---|---|
| `Connect.ConnectPage.constructor` | social-versity/src/pages/Connect.jsx:217-219 | the page starts on the 'all' tab with an empty search and no connections |
| `Connect.ConnectPage.Filtered` | social-versity/src/pages/Connect.jsx:236-254 | the list shown for the page's current search and tab holds exactly the students of the directory that match both, each as often as in the directory, as an order-preserving subsequence of it |
| `Connect.ConnectPage.HandleConnect` | social-versity/src/pages/Connect.jsx:221-229 | a connected id is removed (every occurrence) and any other id is appended at the end; the list stays duplicate-free; the toast says "Disconnected from …" or "Connected with …!" accordingly |
| `Lists.Toggle` | social-versity/src/pages/Connect.jsx:222-226 | a present value is filtered out; an absent one is appended after the unchanged old list; the value is present afterwards iff it was absent before |
| `Lists.RemoveAll` | social-versity/src/pages/Connect.jsx:223 | the value is gone, every other value stays as many times as it occurred, and the result is an order-preserving subsequence |
| `Connect.ConnectTwice` | social-versity/src/pages/Connect.jsx:221-229 | on a duplicate-free list, handling the same student twice restores the list iff the student was not connected or was the most recent connection |
| `Connect.ReconnectReorders` | social-versity/src/pages/Connect.jsx:222-226 | disconnecting and reconnecting the first of two connections yields [2, 1] from [1, 2] |
| `Connect.FilteredStudents` | social-versity/src/pages/Connect.jsx:236-254 | exactly the students that match both the search and the active tab are kept, each as often as in the directory, as an order-preserving subsequence of it |
| `Connect.EmptySearchMatchesAll` | social-versity/src/pages/Connect.jsx:237 | the empty term on the 'all' tab shows the whole directory |
| `Connect.SearchIsCaseInsensitiveSubstring` | social-versity/src/pages/Connect.jsx:237-240 | a student matches iff the term is empty or its lower-cased form occurs at some offset of the lower-cased name, major or some interest |
| `Connect.TabNarrowsAll` | social-versity/src/pages/Connect.jsx:242-253 | for the same term, every tab's result is an order-preserving subsequence of the 'all' result |
| `Connect.UnknownTabIsAll` | social-versity/src/pages/Connect.jsx:253 | an id other than the three named tabs filters exactly like 'all' |
| `Connect.NamedTabs` | social-versity/src/pages/Connect.jsx:243-252 | 'sameMajor' requires Computer Science; 'sameCourses' requires CS 101 or MATH 201; 'sameGroups' requires Tech Club or Gaming Society |
| `Connect.ResultsNoun` | social-versity/src/pages/Connect.jsx:302 | the noun is "students" iff the count is not 1 |
| `Text.Pluralize` | social-versity/src/pages/Groups.jsx:304 | the word gains one trailing 's' exactly when the count is not 1 |
| `Lists.Filter` | social-versity/src/pages/Dashboard.jsx:11 | the result holds exactly the elements that satisfy the predicate, each as many times as in the input, in their original order (an order-preserving subsequence) |
| `Lists.FilterMonotone` | social-versity/src/pages/Connect.jsx:242-253 | a stronger predicate keeps an order-preserving subsequence of what a weaker one keeps |
| `Lists.FilterCongruent` | social-versity/src/pages/Groups.jsx:34-39 | predicates that agree on every element of the list filter it identically |
| `Lists.Take` | social-versity/src/pages/Dashboard.jsx:10 | `slice(0, n)` has min(n, length) elements, each equal to the element at the same index |
| `Lists.ToggleKeepsNoDup` | social-versity/src/pages/Groups.jsx:71-85 | toggling keeps a selection duplicate-free |
| `Lists.ToggleTwiceRestores` | social-versity/src/pages/Groups.jsx:71-85 | on a duplicate-free selection, toggling twice is the identity iff the item was absent or last |
| `Lists.ToggleAbsentTwice` | social-versity/src/pages/Onboarding.jsx:36-42 | selecting an unselected item and deselecting it restores the selection exactly |
| `Lists.ToggleTwiceSameElements` | social-versity/src/pages/Onboarding.jsx:36-42 | toggling twice never changes which items are selected |
| `Lists.RemoveAbsent` | social-versity/src/pages/Connect.jsx:223 | filtering out a value the list does not hold changes nothing |
| `Text.Trim` | social-versity/src/pages/Forum.jsx:103 | the result is a slice `s[i..j]` of the input with only white space before `i` and after `j`, and it is empty or starts and ends with a non-whitespace character, so exactly the leading and trailing white space is cut |
| `Text.BlankIffAllWhitespace` | social-versity/src/pages/Messages.jsx:20 | `!s.trim()` holds exactly when every character is ECMAScript white space or a line terminator |
| `Text.Lower` | social-versity/src/pages/Connect.jsx:238 | same length, and each character is lower-cased individually |
| `Text.IncludesIffOccurs` | social-versity/src/pages/Groups.jsx:30-31 | `includes` holds exactly when the needle occurs at some offset of the haystack |
| `Groups.FilteredGroups` | social-versity/src/pages/Groups.jsx:28-42 | exactly the groups that pass the search, category and tag conditions are kept, each as often as in the list, in order |
| `Groups.SearchResults` | social-versity/src/pages/Groups.jsx:30-31 | exactly the groups whose lower-cased name or category contains the lower-cased term, each as often as in the list, in order |
| `Groups.EmptySearchMatchesAll` | social-versity/src/pages/Groups.jsx:30-31 | the empty term keeps every group |
| `Groups.SelectionsIgnoredOutsideV2` | social-versity/src/pages/Groups.jsx:34-39 | when the version is not 'v2', the result equals the search-only result whatever is selected |
| `Groups.EmptySelectionsAreSearchOnly` | social-versity/src/pages/Groups.jsx:87-90 | with both selections empty the result equals the search-only result in every version |
| `Groups.V2Selections` | social-versity/src/pages/Groups.jsx:34-39 | in v2 a group is shown iff it matches the search, its category is selected or none is, and some selected tag occurs in its lower-cased description or none is selected |
| `Groups.MoreCategoriesWiden` | social-versity/src/pages/Groups.jsx:34-35 | enlarging a non-empty category selection keeps the previous result as an order-preserving subsequence |
| `Groups.Joined` | social-versity/src/pages/Groups.jsx:44-50 | same length and order; groups with the id become members with one more member; every other group is unchanged |
| `Groups.Left` | social-versity/src/pages/Groups.jsx:60-66 | same length and order; groups with the id stop being members with one member fewer; every other group is unchanged |
| `Groups.JoinThenLeaveRestores` | social-versity/src/pages/Groups.jsx:44-68 | joining a group the user is not in and then leaving it restores the list exactly |
| `Groups.LeaveThenJoinRestores` | social-versity/src/pages/Groups.jsx:44-68 | leaving a group the user is in and joining it again restores the list exactly |
| `Groups.FilterBadge` | social-versity/src/pages/Groups.jsx:125-128 | the badge is shown iff the version is v2 and something is selected, and it shows the number of selected categories plus tags |
| `Groups.GroupsPage.constructor` | social-versity/src/pages/Groups.jsx:13-25 | the page starts with the given groups, an empty search, no pending leave, the filter dialog closed and nothing selected |
| `Groups.GroupsPage.HandleJoinClick` | social-versity/src/pages/Groups.jsx:44-54 | only `localGroups` changes, to the joined list; a success toast is raised iff the version is v2 |
| `Groups.GroupsPage.HandleLeaveClick` | social-versity/src/pages/Groups.jsx:56-58 | the group becomes the one pending confirmation |
| `Groups.GroupsPage.CancelLeave` | social-versity/src/pages/Groups.jsx:213-214 | closing the dialog clears the pending group and nothing else |
| `Groups.GroupsPage.ConfirmLeave` | social-versity/src/pages/Groups.jsx:60-69 | the pending group's id is left, the pending group is cleared, and the toast names the group |
| `Groups.GroupsPage.HandleCategoryToggle` | social-versity/src/pages/Groups.jsx:71-77 | the category selection is toggled and stays duplicate-free; nothing else changes |
| `Groups.GroupsPage.HandleTagToggle` | social-versity/src/pages/Groups.jsx:79-85 | the tag selection is toggled and stays duplicate-free; nothing else changes |
| `Groups.GroupsPage.ClearAllFilters` | social-versity/src/pages/Groups.jsx:87-90 | both selections become empty and the list shown is then the search-only result |
| `Groups.GroupsPage.Filtered` | social-versity/src/pages/Groups.jsx:151 | the list shown holds exactly the page's groups that pass the current search, category and tag conditions, each as often as in `localGroups`, as an order-preserving subsequence of it |
| `Forum.ToggledLike` | social-versity/src/pages/Forum.jsx:92-96 | the flag flips, the counter moves down if the post was liked and up otherwise, and no other field changes |
| `Forum.LikeToggled` | social-versity/src/pages/Forum.jsx:89-100 | same length and order; posts with the id are toggled; every other post is unchanged |
| `Forum.LikeTwice` | social-versity/src/pages/Forum.jsx:89-99 | liking the same post twice restores the post list exactly |
| `Forum.LikePreservesConsistency` | social-versity/src/pages/Forum.jsx:89-99 | if every post has likes ≥ 0 and liked ⇒ likes ≥ 1, that still holds after a like |
| `Forum.InitialPostsConsistent` | social-versity/src/pages/Forum.jsx:11-75 | the seeded posts satisfy the like invariant |
| `Forum.NewPost` | social-versity/src/pages/Forum.jsx:108-120 | a new post has id `now`, timestamp "Just now", no likes, no replies, is not liked, and keeps the form's title, content, category and anonymity flag; an anonymous post is authored "Anonymous" with no avatar, any other "Current User" with the current user's avatar URL |
| `Forum.FilteredPosts` | social-versity/src/pages/Forum.jsx:131-133 | 'All' keeps every post; any other category keeps exactly the posts of that category, each as often as in the list, in order |
| `Forum.NewPostOnTop` | social-versity/src/pages/Forum.jsx:122 | a prepended post is first under 'All' and under its own category |
| `Forum.ForumPage.constructor` | social-versity/src/pages/Forum.jsx:81-87 | the page starts with the seeded posts, the 'All' tab, the dialog closed and the form's defaults |
| `Forum.ForumPage.HandleLike` | social-versity/src/pages/Forum.jsx:89-100 | only `posts` changes, to the liked list, and the like invariant is kept |
| `Forum.ForumPage.HandleCreatePost` | social-versity/src/pages/Forum.jsx:102-129 | a blank title or content raises the error toast and changes nothing; otherwise the new post is prepended to the old list, the dialog closes and the form resets to '', '', 'General', not anonymous |
| `Forum.ForumPage.Publish` | social-versity/src/pages/Forum.jsx:108-128 | the post built from the form and `now` is prepended to the unchanged old list, the dialog closes, the form resets to '', '', 'General', not anonymous, and the like invariant is kept |
| `Onboarding.Next` | social-versity/src/pages/Onboarding.jsx:25-34 | below step 3 the step goes up by one and loading is unchanged; at step 3 the step stays and loading starts; reachable states stay reachable |
| `Onboarding.Press` | social-versity/src/pages/Onboarding.jsx:135 | a press while loading changes nothing; otherwise it is `handleNext` |
| `Onboarding.PressesFromStart` | social-versity/src/pages/Onboarding.jsx:21-34 | after n presses from the start the step is min(n + 1, 3), and the wizard is loading iff n ≥ 3 |
| `Onboarding.LoadingIsTerminal` | social-versity/src/pages/Onboarding.jsx:135 | once loading, any number of presses leaves the state unchanged |
| `Onboarding.ButtonLabel` | social-versity/src/pages/Onboarding.jsx:137 | the loading text while loading, else 'Finish' on step 3, else 'Continue' |
| `Onboarding.ProgressWidth` | social-versity/src/pages/Onboarding.jsx:61 | 0, 50 and 100 per cent on steps 1, 2 and 3, and within 0..100 on every step |
| `Onboarding.IndicatorsFollowStep` | social-versity/src/pages/Onboarding.jsx:48-52 | in every reachable state the highlighted indicators among 1, 2, 3 are the first `step` and the checked ones the first `step - 1`, so the current step is the only highlighted indicator without a check mark |
| `Onboarding.OnboardingFlow.constructor` | social-versity/src/pages/Onboarding.jsx:21-23 | step 1, not loading, nothing selected |
| `Onboarding.OnboardingFlow.HandleNext` | social-versity/src/pages/Onboarding.jsx:25-34 | the step and the loading flag move as `Next` says, and the wizard stays in a reachable state |
| `Onboarding.OnboardingFlow.ClickButton` | social-versity/src/pages/Onboarding.jsx:132-138 | the button is disabled while loading, so it changes nothing then, and runs `handleNext` otherwise |
| `Onboarding.OnboardingFlow.ToggleInterest` | social-versity/src/pages/Onboarding.jsx:36-42 | the interest selection is toggled and stays duplicate-free |
| `Messages.Sent` | social-versity/src/pages/Messages.jsx:22-29 | exactly one message is appended after the unchanged history, with id length + 1, sender 'me' and the untrimmed text |
| `Messages.SendKeepsIdsSequential` | social-versity/src/pages/Messages.jsx:23 | if the ids are 1..n before a send they are 1..n+1 after it, so they are unique |
| `Messages.LengthIdCanCollide` | social-versity/src/pages/Messages.jsx:23 | a history whose ids are not 1..n can receive a duplicate id |
| `Messages.InitialHistorySequential` | social-versity/src/pages/Messages.jsx:12-16 | the seeded chat log has ids 1, 2, 3 |
| `Messages.MessagesPage.constructor` | social-versity/src/pages/Messages.jsx:10-16 | the first conversation is active, the reply is empty and the log is the seeded one |
| `Messages.MessagesPage.HandleSend` | social-versity/src/pages/Messages.jsx:18-31 | a blank reply changes nothing; otherwise the reply is sent and the input cleared; the ids stay 1..n |
| `Messages.MessagesPage.SelectChat` | social-versity/src/pages/Messages.jsx:45 | only `activeChat` changes |
| `Toasts.KindOrDefault` | social-versity/src/context/ToastContext.jsx:21 | an omitted type is 'info'; a given one is kept |
| `Toasts.WithoutId` | social-versity/src/context/ToastContext.jsx:30-32 | every toast with the id is dropped and every other toast is kept as many times as it occurred, in order |
| `Toasts.UseToast` | social-versity/src/context/ToastContext.jsx:8-14 | without a provider the result is the error "useToast must be used within a ToastProvider"; with one it is the provider's value |
| `Toasts.ToastProvider.constructor` | social-versity/src/context/ToastContext.jsx:19 | the queue starts empty |
| `Toasts.ToastProvider.AddToast` | social-versity/src/context/ToastContext.jsx:21-23 | exactly one toast `{id: now, message, type}` is appended after the unchanged queue |
| `Toasts.ToastProvider.RemoveToast` | social-versity/src/context/ToastContext.jsx:30-32 | the queue becomes the one without that id |
| `Toasts.RemoveIdempotent` | social-versity/src/context/ToastContext.jsx:31 | removing an id twice is removing it once |
| `Toasts.RemoveAbsentId` | social-versity/src/context/ToastContext.jsx:31 | removing an id no toast has leaves the queue unchanged |
| `Toasts.AddThenRemove` | social-versity/src/context/ToastContext.jsx:21-32 | adding a toast under a fresh id and removing that id restores the queue |
| `Toasts.SameMillisecondRemovesBoth` | social-versity/src/context/ToastContext.jsx:22 | two toasts created in the same millisecond share an id, so one removal drops both |
| `Versions.VersionOf` | social-versity/src/context/VersionContext.jsx:9 | the version is 'v1' or 'v2', and it is 'v2' exactly when the path's first three characters are '/v2' |
| `Versions.UseVersion` | social-versity/src/context/VersionContext.jsx:4 | without a provider the value is 'v1' |
| `Versions.V3PathsReadAsV1` | social-versity/src/context/VersionContext.jsx:9 | every '/v3…' path yields 'v1' |
| `Versions.PrefixNotSegmentAware` | social-versity/src/context/VersionContext.jsx:9 | every '/v2…' path yields 'v2', including '/v2x…' |
| `Versions.V1Paths` | social-versity/src/context/VersionContext.jsx:9 | the empty path and every '/v1…' path yield 'v1' |
| `Dashboard.UpcomingEvents` | social-versity/src/pages/Dashboard.jsx:10 | the first min(2, number of events) events, as a prefix of the list |
| `Dashboard.RecommendedGroups` | social-versity/src/pages/Dashboard.jsx:11 | at most two groups, all of them unjoined, forming a prefix of the unjoined groups |
| `Dashboard.RecommendationsOrdered` | social-versity/src/pages/Dashboard.jsx:11 | the recommendations are an order-preserving subsequence of the groups, and they are two unless fewer than two groups are unjoined |
| `Dashboard.FirstName` | social-versity/src/pages/Dashboard.jsx:19 | a space-free prefix of the name that is either the whole name or followed by a space |
| `Dashboard.GreetsJohn` | social-versity/src/data/mockData.js:3 | the mock user "John Doe" is greeted as "John" |

## Left out

- Markup, styling, icons and the other pages are not modelled. Layout, Navbar, Sidebar, the UI components, App routes, Landing, VersionSelect, Profile, Events, Map and Safety only render data or flip view flags.
- Plain setters bound to inputs and tabs are not modelled. Examples are `setSearchTerm`, `setActiveFilter`, `setActiveTab`, `setActiveCategory`, `setIsNewPostOpen`, `setIsFilterOpen` and the form fields' `onChange`. Each assigns one field from the event and nothing else.
- Timers are not modelled. A toast's auto-dismiss after 3000 ms is the explicit `RemoveToast(id)`. The onboarding redirect 1500 ms after loading starts is not modelled.
- Navigation is not modelled. This covers `handleMessage` on the Connect page (a `navigate` call plus a toast) and the onboarding redirect to '/'.
- Clocks and locale formatting are parameters. `Date.now()` is the `now` argument of `AddToast` and `HandleCreatePost`. The formatted reply time is the `time` argument of `HandleSend`.
- Lower-casing covers only ASCII. `Text.Lower` lower-cases 'A'..'Z' and leaves every other character unchanged. JavaScript's Unicode case mapping (for example 'É' to 'é') is not modelled. `trim` uses ECMAScript's full white-space and line-terminator set.
- DOM effects are not modelled: the body scroll lock in Modal and the toast portal.
- React scheduling is not modelled. Each handler is one atomic step. State batching and stale closures are left out, for example `handleLike` reading `posts` rather than the pending state.
- The mock data of the Connect page and mockData.js is not modelled. Only the seeded forum posts and chat log are used, as initial states.
- Groups.GroupsPage.ConfirmLeave: requires a pending group. The source reads `groupToLeave.id` and `groupToLeave.name` without a null check. Its only caller is the dialog's confirm button, which is rendered only while `groupToLeave` is set.
- Messages.MessagesPage.constructor: requires a non-empty conversation list. The page opens on `initialMessages[0]`.
