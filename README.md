# Idea portal core, modelled in Dafny

This project models the decision logic of an internal "idea portal" web application. Employees
submit process-improvement ideas through a six-step wizard and vote them up or down in a feed.
A single administrator moves ideas between five status columns on a kanban board, and a
dashboard summarises the ideas. The hosted document store becomes a class holding three maps:
ideas by id, the per-idea up/down votes, and the top-level toggle records. Each backend
transaction is one method on that class, and it applies all of its writes or none of them.

The modules follow the program's structure:

- `Base`, `Types`: optional values, JavaScript truthiness (`||`), and the `Idea` and `User` records with the five statuses.
- `VoteRules`: the up/down decision table shared by the optimistic update and the transaction. It also holds the tally of retained votes, and replays of casts.
- `Voting`: the toggle vote with its `{ideaId}_{userId}` record keys.
- `Store`: the document store, with the vote, toggle and status transactions as methods. Value-level lemmas show that each transaction keeps scores equal to their tallies and counts equal to their records.
- `Feed`: the feed page's local state, the optimistic update, vote hydration and the click handler.
- `Kanban`: columns, the per-column filter, and the drag handlers, together with the status write they issue.
- `Schema`, `IdeaService`, `Wizard`: the form schema, record construction in the idea service and in the wizard, and the wizard's step gates, file list and submit.
- `Analytics`: the dashboard counters, count-by-key with its fallback bucket and sort, and label truncation.
- `Auth`, `Guard`, `Dock`: the sign-in domain test and auth state, the route guard's redirect table, and the dock's items.

Backend failures, uploads and the sign-in provider are parameters: `networkFails`, `fetchFails`, `failure`,
`signOutFailure`, `upload` and `RedirectResult`. The store's own failures follow the source: a missing idea
document makes the write fail.

The up/down vote has two properties worth stating precisely:

- **Casting the same direction twice.** This restores the score and the vote map exactly when the voter did not already hold the opposite direction (`VoteRules.CastTwiceRestores` proves the if-and-only-if). From a down vote, two up votes end at +1 with no record.
- **Score minus tally.** Every cast leaves score minus (ups − downs) unchanged. So an idea that starts at zero always scores the tally of its retained votes.

The toggle's record key `{ideaId}_{userId}` is injective only for idea ids without `_`.
`Voting.VoteKeyCollision` exhibits two different pairs that share a key. Store-generated ids are
alphanumeric, so the count invariant is proved for ids without `_`.

## Model

| member | source | states |
|---|---|---|
| Types.StatusNamesExact | lib/types.ts:10 | a status is exactly one of five distinct names, and each name belongs to exactly one status |
| VoteRules.NextVote | app/feed/page.tsx:71-81 | the retained vote is cleared exactly when the voter repeats their current direction, and is otherwise the requested direction |
| VoteRules.Delta | app/feed/page.tsx:71-81 | the score change equals the weight of the new vote minus the weight of the old, and is never zero |
| VoteRules.DecisionTable | app/feed/page.tsx:105-115 | the six rows: repeat up −1 / repeat down +1, switch to up +2 / switch to down −2, new up +1 / new down −1 |
| VoteRules.NetAfterAssign | lib/types.ts:21 | replacing one voter's entry moves ups minus downs by exactly the weight difference |
| VoteRules.CastKeepsDrift | app/feed/page.tsx:105-117 | one cast moves the tally by exactly the delta the score receives |
| VoteRules.CastTwiceRestores | app/feed/page.tsx:105-117 | two casts of the same direction restore score and vote map if and only if the voter did not hold the opposite direction |
| VoteRules.ReplayKeepsDrift | app/feed/page.tsx:93-118 | any sequence of casts, by any voters in any order, keeps score minus tally unchanged |
| VoteRules.FreshIdeaScoreIsTally | lib/types.ts:21 | from score 0 and no votes, the score is always upvotes minus downvotes of the retained votes |
| VoteRules.Scenario | app/feed/page.tsx:105-117 | A up gives 1, then A down gives −1, then A down gives 0 with no record, and B up gives 1 |
| Voting.VoteKeyInjective | lib/firebase/voting.ts:6 | for idea ids without `_`, equal record keys imply equal (idea, user) pairs |
| Voting.VoteKey | lib/firebase/voting.ts:6 | the key is the idea id, one `_`, then the user id, and both ids can be read back at fixed positions |
| Voting.VoteKeyCollision | lib/firebase/voting.ts:6 | ("a_b", "c") and ("a", "b_c") share the record key "a_b_c" |
| Voting.OneBallotPerPair | lib/firebase/voting.ts:6 | in a well-keyed record map, two records with the same pair have the same key |
| Voting.KeyedRecordIsPair | lib/firebase/voting.ts:20-24 | for underscore-free idea ids, the record stored under a pair's key is that pair |
| Voting.ToggleWellKeyed | lib/firebase/voting.ts:12-24 | a toggle keeps every record stored under the key of its own pair |
| Voting.Toggled | lib/firebase/voting.ts:12-24 | the pair's record is present afterwards exactly when it was absent before, and is then that pair; every other key is unchanged |
| Voting.ToggleCountsOwn | lib/firebase/voting.ts:12-28 | a toggle changes the idea's record count by exactly the ±1 applied to its counter |
| Voting.ToggleCountsOther | lib/firebase/voting.ts:12-28 | a toggle leaves every other idea's records unchanged |
| Voting.ToggleTwice | lib/firebase/voting.ts:12-28 | toggling twice restores the pair's presence and nets zero on the counter; for well-keyed maps and underscore-free ids it restores the whole record map |
| Store.CastKeepsScores | app/feed/page.tsx:105-117 | a committed vote keeps the idea set and every idea's score-minus-tally, so scores that matched tallies still match |
| Store.CastIdeas | app/feed/page.tsx:102-117 | keeps the idea set; the voted idea's score (missing as 0) moves by the weight of the voter's new record minus that of the old, nothing else of it changes, and every other idea is unchanged |
| Store.CastVotes | app/feed/page.tsx:105-113 | the voter's record on the idea becomes the decision table's next vote; other voters and other ideas keep theirs |
| Store.CastKeepsCounts | app/feed/page.tsx:117 | a committed up/down vote keeps `voteCount` equal to the toggle-record count |
| Store.ToggleIdeas | lib/firebase/voting.ts:15-27 | a toggle keeps the idea set and every score; the toggled idea's `voteCount` moves by −1 when the pair's record existed and +1 otherwise, nothing else of it changes, and every other idea is unchanged |
| Store.ToggleKeepsCounts | lib/firebase/voting.ts:12-28 | for underscore-free ids, a committed toggle keeps every `voteCount` equal to its number of records |
| Store.StatusKeepsConsistency | lib/firebase/ideas.ts:38-42 | a status write keeps scores equal to tallies and counts equal to records |
| Store.IdeaStore.CastVote | app/feed/page.tsx:93-118 | fails with "Idea does not exist!" and changes nothing when the idea is missing; otherwise the new ideas and votes are the decision table applied to the stored record |
| Store.IdeaStore.ToggleVote | lib/firebase/voting.ts:9-29 | fails and changes nothing when the idea is missing; otherwise the record is toggled and `voteCount` moves by the matching ±1 |
| Store.IdeaStore.SetStatus | lib/firebase/ideas.ts:35-42 | fails on a missing document; otherwise only status changes, plus review notes when given (ideas.ts:38-42 always passes notes; the board's `updateDoc` at AdminKanban.tsx:184 passes none and keeps the old notes) |
| Feed.WithScore | app/feed/page.tsx:83 | same length and order; cards of the idea get the new score, with every other field and every other card unchanged |
| Feed.Fetched | app/feed/page.tsx:40-48 | holds exactly the listed ideas on which the user has a stored vote, with that vote |
| Feed.FeedPage.HydrateVotes | app/feed/page.tsx:36-54 | no-op without a user or ideas, and no change when any one read fails (the joint fetch rejects before the merge); otherwise fetched entries override and unfetched entries are kept |
| Feed.FeedPage.ApplyOptimistic | app/feed/page.tsx:64-90 | the clicked card's score (missing counts as 0) moves by the decision-table delta, and the user's entry is set, switched or deleted |
| Feed.CommitKeepsAgreement | app/feed/page.tsx:64-117 | from an agreeing view of a listed idea, the optimistic update and the committed transaction agree again |
| Feed.OptimisticAloneDisagrees | app/feed/page.tsx:119-122 | the optimistic update alone, against an unchanged store, breaks agreement |
| Feed.HandleVote | app/feed/page.tsx:57-122 | without a user, only the sign-in alert; otherwise the optimistic state is kept in every outcome, and the view still agrees with the store if and only if no alert was raised; after a click with no alert the idea existed, the store's ideas and votes are the committed cast and the toggle records are unchanged |
| Feed.HandleVoteReverting | app/feed/page.tsx:119-122 | on failure the pre-click list and vote map are restored, so agreement with the store survives every outcome; after a click with no alert the idea existed, the store's ideas and votes are the committed cast and the toggle records are unchanged |
| Kanban.ColumnsAreStatuses | components/features/admin/AdminKanban.tsx:22-28 | the five column ids are exactly the five status names, in board order, all distinct |
| Kanban.ColumnView | components/features/admin/AdminKanban.tsx:207 | a column shows only ideas of its status, no more than the list |
| Kanban.ColumnViewMembership | components/features/admin/AdminKanban.tsx:207 | an idea is in a column exactly when it is listed and has that status |
| Kanban.ColumnViewAppend | components/features/admin/AdminKanban.tsx:207 | the filter distributes over concatenation |
| Kanban.DropMoves | components/features/admin/AdminKanban.tsx:180-182 | a drop that is acted on has a target, and that target is one of the declared statuses |
| Kanban.ColumnsPartition | components/features/admin/AdminKanban.tsx:203-207 | the five column sizes add up to the number of ideas with a column status |
| Kanban.ExactlyOneColumn | components/features/admin/AdminKanban.tsx:203-207 | a listed idea appears in column c exactly when its status is c, and in no column when its status is none of them |
| Kanban.WithStatus | components/features/admin/AdminKanban.tsx:183 | only the status of the dragged idea's cards changes |
| Kanban.DropGuardQuirk | components/features/admin/AdminKanban.tsx:180-182 | the "different target" test compares the card id with the column id: a card whose id is "Done" cannot be dropped on Done; unknown targets and no target are ignored |
| Kanban.AnyStatusToAnyColumn | components/features/admin/AdminKanban.tsx:180-184 | from any status, a drop on any column is acted on, and the card then shows in that column and no other |
| Kanban.Board.DragStart | components/features/admin/AdminKanban.tsx:172-174 | records the dragged id |
| Kanban.Board.DragEnd | components/features/admin/AdminKanban.tsx:176-187 | always clears the dragged id; a status write is issued exactly for valid drops, and then the local list is the dragged card with its new status |
| Kanban.DropCard | components/features/admin/AdminKanban.tsx:176-187 | a valid drop writes only the idea's status to the store and fails when the document is missing; an invalid drop changes nothing |
| Schema.OptionalFieldsMayBeAbsent | lib/types/schema.ts:3-14 | a valid form stays valid without an optional field and becomes invalid without a required one |
| Schema.ListsExact | lib/types/schema.ts:18-45 | the option lists have 7, 4, 5, 11 and 12 distinct entries |
| Schema.FieldValid | lib/types/schema.ts:3-14 | a valid value of a required or enumerated text field is a non-empty string, so JavaScript treats it as truthy |
| Schema.FormValid | lib/types/schema.ts:3-14 | a valid form holds a truthy value for every required field |
| IdeaService.NewIdeaRecord | lib/firebase/ideas.ts:8-25 | status Submitted, zero counters, stage Backlog, creator copied, other fields unchanged; hours stored as null exactly when absent or zero |
| IdeaService.StatusUpdate | lib/firebase/ideas.ts:38-41 | the patch sets the status; its notes are non-empty exactly when non-empty notes were given, and are then those notes |
| IdeaService.UpdateIdeaStatus | lib/firebase/ideas.ts:35-42 | fails on a missing idea; otherwise writes the status and the notes, or "" when none were given |
| Wizard.OptionsMatchSchema | components/features/submit/SubmitWizard.tsx:268-375 | the frequency options and the impact buttons are exactly the schema's enumerations |
| Wizard.NextEnabled | components/features/submit/SubmitWizard.tsx:206-397 | on an empty form, Next is blocked exactly on the four gated steps (title, problem, metrics, solution) |
| Wizard.EditTouchesOneGate | components/features/submit/SubmitWizard.tsx:64-66 | editing a field changes no step gate except the gate that reads it |
| Wizard.ProblemGateIsSchemaRule | components/features/submit/SubmitWizard.tsx:239 | the problem step's gate coincides with the schema's problem rule |
| Wizard.SchemaValidPassesGatesButFrequency | components/features/submit/SubmitWizard.tsx:333 | a form the schema accepts passes the title, problem and outcome gates, but passes the frequency gate exactly when it has the frequency the schema leaves optional |
| Wizard.GatesWeakerThanSchema | components/features/submit/SubmitWizard.tsx:206 | a form with a 4-character title passes every gate yet fails the schema |
| Wizard.DropIndexRemovesOne | components/features/submit/SubmitWizard.tsx:74-76 | removing by index drops exactly that file, and an index out of range changes nothing |
| Wizard.AttachmentsFor | components/features/submit/SubmitWizard.tsx:87-101 | one attachment per file, in file order, with name, type and size copied and the uploaded URL |
| Wizard.SubmittedRecord | components/features/submit/SubmitWizard.tsx:105-116 | status Submitted and zero votes; author name, or "Anonymous"; impact type defaults to "Other" and automation fit to "Unsure"; other fields unchanged |
| Wizard.SubmitWizard.HandleNext | components/features/submit/SubmitWizard.tsx:56-58 | advances one step unless on the last step |
| Wizard.SubmitWizard.HandleBack | components/features/submit/SubmitWizard.tsx:60-62 | goes back one step unless on the first, and keeps every passed gate |
| Wizard.SubmitWizard.ClickNext | components/features/submit/SubmitWizard.tsx:205-206 | advances only when the step's gate holds, so every step behind the current one has its gate satisfied |
| Wizard.SubmitWizard.UpdateField | components/features/submit/SubmitWizard.tsx:64-66 | sets one field and keeps the others; gates already passed still hold when the edited field is read by no gate or by the current step's gate or a later one |
| Wizard.SubmitWizard.AddFiles | components/features/submit/SubmitWizard.tsx:68-72 | appends the picked files in order |
| Wizard.SubmitWizard.RemoveFile | components/features/submit/SubmitWizard.tsx:74-76 | removes exactly the file at the index |
| Wizard.SubmitWizard.Submit | components/features/submit/SubmitWizard.tsx:78-123 | without a user, only asks for sign-in; on failure both busy flags are cleared and nothing is written; otherwise writes the built record with one attachment per file, and stays submitting |
| Wizard.ReviewStepHasAnswers | components/features/submit/SubmitWizard.tsx:397 | a wizard that reached the review step through its buttons has an answer for each of the five fields the schema requires, and a frequency, with a problem text of at least 20 characters |
| Analytics.CountStatus | components/features/home/AnalyticsDashboard.tsx:94 | a filter count never exceeds the list length |
| Analytics.ComputeMetrics | components/features/home/AnalyticsDashboard.tsx:84-96 | no metrics for an empty list; otherwise the total is the list length and completed plus in-progress never exceeds it |
| Analytics.CountersMatchColumns | components/features/home/AnalyticsDashboard.tsx:94-96 | completed equals the Done and Approved columns together, and in-progress equals the In Progress column |
| Analytics.Bucket | components/features/home/AnalyticsDashboard.tsx:101 | an idea's bucket is the fallback name, or else its own non-empty key value |
| Analytics.FallbackSliceCount | components/features/home/AnalyticsDashboard.tsx:100-104 | the fallback slice counts the ideas whose key value is missing, empty, or already the fallback name |
| Analytics.EmptyStatusJoinsUnknown | components/features/home/AnalyticsDashboard.tsx:108 | an idea with an empty status and one with status "Unknown" are counted in one "Unknown" slice |
| Analytics.Buckets | components/features/home/AnalyticsDashboard.tsx:101 | one bucket name per idea, in list order |
| Analytics.GroupBy | components/features/home/AnalyticsDashboard.tsx:99-106 | one slice per bucket that occurs, each name once, with that bucket's idea count (positive); non-increasing counts adding up to the list length |
| Analytics.SortPerm | components/features/home/AnalyticsDashboard.tsx:106 | the sort is a permutation of the slices |
| Analytics.SortSorted | components/features/home/AnalyticsDashboard.tsx:106 | the sort orders slices by non-increasing count |
| Analytics.SortTotal | components/features/home/AnalyticsDashboard.tsx:106 | the sort keeps the sum of the counts |
| Analytics.SortNames | components/features/home/AnalyticsDashboard.tsx:106 | the sort keeps names distinct |
| Analytics.SumCountsCovers | components/features/home/AnalyticsDashboard.tsx:100-104 | distinct names covering every bucket have counts summing to the number of ideas |
| Analytics.ShortName | components/features/home/AnalyticsDashboard.tsx:110 | never longer than the width; short names unchanged; long ones are their first width−3 characters followed by "..." |
| Analytics.CategoryShortName | components/features/home/AnalyticsDashboard.tsx:109-111 | category labels over 22 characters become their first 19 and "..." |
| Analytics.DepartmentShortName | components/features/home/AnalyticsDashboard.tsx:114-116 | department labels over 18 characters become their first 15 and "..." |
| Auth.IndexOf | lib/context/AuthContext.tsx:45 | the position of the first occurrence, or none exactly when the character is absent |
| Auth.UpTo | lib/context/AuthContext.tsx:45 | the longest prefix before the first occurrence |
| Auth.EmailDomain | lib/context/AuthContext.tsx:45 | `split('@')[1]`: present exactly for an address that contains `@`, and never contains `@` |
| Auth.DomainAccepted | lib/context/AuthContext.tsx:43-47 | an accepted address exists and contains `@` |
| Auth.DecompositionDecides | lib/context/AuthContext.tsx:44-47 | for any split local@domain[@rest], the address is accepted if and only if the domain is one of the two allowed domains |
| Auth.AcceptedSplits | lib/context/AuthContext.tsx:44-47 | every accepted address splits as local@domain[@rest] with an allowed domain |
| Auth.SecondAtIgnored | lib/context/AuthContext.tsx:45 | text after a second `@` does not affect acceptance |
| Auth.TrailingDomainAccepted | lib/context/AuthContext.tsx:45 | `a@gmail.com@other.org` is accepted |
| Auth.CaseSensitive | lib/context/AuthContext.tsx:47 | `x@Gmail.com` is rejected |
| Auth.NoDomainRejected | lib/context/AuthContext.tsx:45-47 | an address without `@`, or a missing address, is rejected |
| Auth.AuthState.constructor | lib/context/AuthContext.tsx:26-28 | starts with no user, loading and no error |
| Auth.AuthState.OnAuthStateChanged | lib/context/AuthContext.tsx:31-34 | stores the user and ends loading |
| Auth.AuthState.HandleRedirectResult | lib/context/AuthContext.tsx:41-56 | requests a sign-out exactly for a redirected user outside the allowed domains; the error then becomes the restriction message, or the sign-out's own message when the sign-out is rejected; a failed redirect stores its message; the user is not changed here |
| Auth.AuthState.SignInWithGoogle | lib/context/AuthContext.tsx:59-70 | clears the error and starts loading; a failure stores its message and stops loading |
| Guard.AtMostOneRedirect | components/auth/RouteGuard.tsx:13-30 | one evaluation issues at most one redirect, and none while loading |
| Guard.DecisionTable | components/auth/RouteGuard.tsx:14-29 | /login exactly for no user off /login; / exactly for a user on /login; /feed exactly for a non-admin under the /admin prefix; nothing else |
| Guard.TargetsAreFixedPoints | components/auth/RouteGuard.tsx:17-29 | re-evaluating at a redirect's target with the same user redirects no further |
| Guard.AdminPrefix | components/auth/RouteGuard.tsx:27-29 | /admin, /admin/check and /administrator all send a non-admin to /feed |
| Guard.Redirects | components/auth/RouteGuard.tsx:13-30 | nothing while loading; every issued target is /login, / or /feed |
| Guard.Redirect | components/auth/RouteGuard.tsx:13-30 | no redirect exactly when no rule fires; otherwise, not loading and one of the fired targets |
| Guard.ChildrenRenderAlongsideRedirect | components/auth/RouteGuard.tsx:32-48 | whenever a redirect is issued the children render too; with `Guard.AdminPrefix`, a signed-in non-administrator gets the /admin page rendered while being sent to /feed |
| Dock.Items | components/layout/Dock.tsx:48-65 | nothing before mounting or without a user; otherwise Home, Feed and Submit in order, plus Admin last exactly for the admin e-mail |
| Dock.AtMostOneActive | components/layout/Dock.tsx:89 | at most one item is active on any path |
| Dock.AdminItemMatchesGuard | components/layout/Dock.tsx:64 | the Admin item shows exactly when the guard lets the signed-in user stay on /admin |

## Left out

- Network, storage and authentication calls are not modelled as I/O. The store is three maps, and failures are parameters. Each transaction is atomic, and concurrent transactions, retries and contention are not modelled.
- The timestamps `createdAt`, `updatedAt` and the vote `timestamp` are left out. So are the upload path with `Date.now()`, and the dashboard's monthly timeline, which is built from dates.
- Feed.FeedPage.HydrateVotes: the per-idea fetches run concurrently and can race with a vote click; the model applies their merged result atomically. A failed read is one flag for the whole fetch, and the unhandled promise rejection it causes is not modelled.
- Analytics.ComputeMetrics: the average score is a floating-point division formatted with `toFixed(1)`; the model keeps the integer sum of scores (a missing score counts as 0) and not the division.
- Analytics.GroupBy: does not state the order among buckets with equal counts. The model keeps first-seen order, which is what `Object.entries` gives except for keys that look like integers.
- Plain JavaScript objects used as dictionaries (the dashboard's counting object, the feed's vote map) would read an inherited member such as `constructor` for a key of that name; the model's maps have no inherited keys. Store-generated ids and the built-in lists never hit such a key.
- Lengths are counted in characters. JavaScript counts UTF-16 code units, so labels and form texts outside the Basic Multilingual Plane may differ.
- The form's numeric field is a real number. The `Number(...)` conversion of a string-typed value and NaN are not modelled.
- `logout`, the idea detail modal, the login page, the `/admin/check` page, theme toggling, hover state and all rendering and styling are not part of this model.
- The wizard's category and department lists can be replaced by lists loaded from the backend (`fetchConfig`); only the built-in lists are modelled.
- Store.IdeaStore.ToggleVote: its count invariant is proved only for idea ids without `_`, because `{ideaId}_{userId}` keys collide otherwise (`Voting.VoteKeyCollision`).
- Store.ToggleKeepsCounts: requires the toggled idea id to hold no `_`, for the same reason.
- Voting.VoteKeyInjective: requires both idea ids to hold no `_`; `Voting.VoteKeyCollision` shows the key is not injective otherwise.
- Auth.AuthState.HandleRedirectResult: the sign-out itself is a request in the result. Its effect reaches the state through `OnAuthStateChanged(None)`; after a rejected sign-out no such call comes, and the user stays signed in.
- Kanban.DropCard: the store write comes after the local move and its failure is not caught. A failed write leaves the board moved, and the model does not reconcile the two.

## Findings

On a failed vote the handler alerts "Vote failed. Reverting..." (app/feed/page.tsx:121), yet it
restores nothing: the optimistic score and vote stay on screen. The model
follows the code in `Feed.HandleVote`, and gives the intended behaviour in `Feed.HandleVoteReverting`.

| source | as written | input that shows it | evidently intended | confidence | as-written member | corrected member |
|---|---|---|---|---|---|---|
| app/feed/page.tsx:119-122 | a failed transaction alerts "Vote failed. Reverting..." but leaves the optimistic score and vote in place | a signed-in user with no vote clicks up on an idea scored 0 while the transaction fails: the card shows 1 with an up vote, and the store still has 0 and no vote | restore the pre-click list and vote map on failure | high; not executed | Feed.HandleVote | Feed.HandleVoteReverting |
