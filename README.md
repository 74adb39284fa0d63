# Weekly GitHub status report — a Dafny model

This project models the logic of a small tool that turns one user's GitHub
activity into a weekly status report. The tool does four things in turn:

- It keeps the events created strictly inside a time window.
- It sorts each event by kind and sub-action into six sets of
  `[title](url)` keys: merged, abandoned, under review, in progress,
  reviewed, issues.
- It reconciles the sets so that merged and abandoned dominate under review
  and in progress, and under review dominates in progress.
- It renders a nested markdown outline with one section per non-empty set.

The model also covers the default start of the window: the Monday that began
the last completed week.

Modules, one file each:

- `events.dfy` (`Events`): the decoded event kinds as a closed datatype, and
  the key of an issue or pull request.
- `window.dfy` (`Window`): the time-window filter, as a specification
  function and as the loop that implements it.
- `weekdays.dfy` (`Weekdays`): the weekday table of `lastCompletedWeekMonday`
  over day numbers.
- `buckets.dfy` (`Buckets`): the six sets as a value (`Report`) and the
  order of the sections.
- `classifier.dfy` (`Classifier`): the decision table for one event
  (`Classify`) and its fold over a sequence of events (`Collect`).
- `reconciler.dfy` (`Reconciler`): the three ordered deletion passes
  (`Reconciled`) and the invariant they establish (`Settled`).
- `formatter.dfy` (`Formatter`): sections, the outline, joining and tab
  expansion, and `PrintSection`.
- `organizer.dfy` (`Organizer`): the mutable `EventSets` object with its
  `Record`, `CleanUp` and `Markdown` methods, `OrganizeEvents`, and lemmas
  about the whole classify-then-reconcile pipeline.

Go leaves the iteration order of a map unspecified. The loops that walk a set
(`CleanUp`, `PrintSection`) therefore pick an arbitrary remaining element each
time. The formatter's contracts hold for every enumeration of each set, so they
state counts and membership of lines, never their order within a section.

The `[title](url)` key is not injective in general: two different title/url
pairs can share a key (`KeyCollision`). The model proves it injective only for
urls without `]` (`KeyInjective`). An issues event on a pull request goes to
reviewed whatever its action, because the switch on the action
(main.go:161-167) has empty branches.

## Model

| member | source | states |
|---|---|---|
| `Events.Key` | main.go:254-260 | The key is the title in brackets followed by the url in parentheses: its length is the title's plus the url's plus four (the read-back is `KeyLayout`) |
| `Events.PrKey` | main.go:254-256 | `prTitle`: the key of a pull request is built from its title and url, and is four characters longer than they are together |
| `Events.IssueKey` | main.go:258-260 | `issueTitle`: the key of an issue is built from its title and url, and is four characters longer than they are together |
| `Events.KeyLayout` | main.go:254-260 | A key is `[`, the title, `](`, the url and `)`: its length is the sum of theirs plus four, and title and url can be read back from it |
| `Events.KeyInjective` | main.go:254-260 | Equal keys come from equal titles and equal urls, provided the urls contain no `]` |
| `Events.KeyCollision` | main.go:254-260 | Without that proviso, two different title/url pairs can produce the same key |
| `Events.SameSubjectSameKey` | main.go:254-260 | An issue and a pull request with the same title and url get the same key, so events about one pull request deduplicate across event kinds |
| `Window.FilterEventsForTime` | main.go:101-111 | The loop returns exactly the specification filter `Filtered` of its input |
| `Window.FilteredCounts` | main.go:101-111 | Every event strictly inside (start, start+duration) is kept as often as it occurs; every other event, including one exactly at either bound, is dropped |
| `Window.FilteredMembers` | main.go:101-111 | An event is in the output iff it is in the input and start < createdAt < start+duration |
| `Window.FilteredIsSubsequence` | main.go:101-111 | The output is a subsequence of the input: the original order is kept |
| `Weekdays.MondayOffset` | main.go:31-46 | The offset for each weekday is 7 plus the number of days since Monday (7 for Monday up to 13 for Sunday) |
| `Weekdays.LastCompletedWeekMonday` | main.go:28-46 | The result is a Monday, 7 to 13 days before today, exactly 7 days before the Monday of today's week |
| `Weekdays.LastCompletedWeekMondayUnique` | main.go:28-46 | It is the only Monday between 13 and 7 days before today |
| `Weekdays.DefaultWindowIsPast` | main.go:16-25 | With the default start and the default one-week duration, the window ends at the midnight that begins the Monday of today's week (no later than today's midnight): an event is kept iff it lies strictly between the two Mondays' midnights, so nothing of the current week is kept |
| `Buckets.Report.Add` | main.go:153 | Inserting a key into one set adds exactly that key to that set and leaves the other five unchanged |
| `Buckets.SectionOrderCoversBuckets` | main.go:230-235 | The section order lists all six sets, and the six headings are distinct |
| `Classifier.Contains` | main.go:177 | `strings.Contains`: true iff the piece occurs in the text at some index |
| `Classifier.Classify` | main.go:139-206 | Every placement files the key of the event's own issue or pull request. An event is ignored iff its kind has no subject (commit comment, create, push, unknown, undecodable) or it is a pull-request event whose action is not opened, edited, closed or reopened |
| `Classifier.Apply` | main.go:139-206 | After one event, each set is the old set plus whatever key the event places in it |
| `Classifier.Collect` | main.go:139-207 | The classification loop as a fold of `Apply` from six empty sets: every key in any set is the key of the issue or pull request of one of the events (the exact membership is `CollectMembership`) |
| `Classifier.TerminalRoutes` | main.go:184-190 | A key goes to merged iff the event closes a pull request with merged set, and to abandoned iff it closes one without |
| `Classifier.UnderReviewRoutes` | main.go:150-201 | A key goes to under review iff the event opens a pull request without "WIP" in its title, or is an issue comment or a review comment on a pull request authored by the tracked user (who wrote the comment is not looked at) |
| `Classifier.InProgressRoutes` | main.go:174-195 | A key goes to in progress iff the event opens a pull request whose title contains "WIP", or edits or reopens a pull request |
| `Classifier.ReviewedRoutes` | main.go:150-201 | A key goes to reviewed iff the event is an issues event on a pull request (any action), or a comment on a pull request whose author is not the tracked user |
| `Classifier.IssuesRoutes` | main.go:150-173 | A key goes to issues iff the event is an issue comment or issues event on a plain issue, whoever wrote it |
| `Classifier.TrackedUserRoutes` | main.go:150-201 | Changing the tracked user changes the outcome only for comments on pull requests, and then only between under review and reviewed |
| `Classifier.CollectMembership` | main.go:139-207 | After classifying a sequence, a key is in a set iff some event of the sequence places it there |
| `Classifier.SameEventsSameReport` | main.go:139-207 | The classified sets depend only on which events occur, not on their order or on how often they repeat |
| `Classifier.ProcessedTwice` | main.go:139-207 | Processing an event twice gives the same sets as processing it once |
| `Classifier.SameSubjectSingleEntry` | main.go:150-201 | Two events about the same issue or pull request that land in the same set leave exactly one entry there |
| `Reconciler.Reconciled` | main.go:212-225 | After the three passes, merged and abandoned are each disjoint from under review and from in progress, and under review is disjoint from in progress. Merged, abandoned, reviewed and issues are unchanged; under review and in progress only shrink |
| `Reconciler.ReconciledMembership` | main.go:212-225 | A key stays under review iff it was there and is neither merged nor abandoned; it stays in progress iff it was there and is neither merged, abandoned nor under review |
| `Reconciler.ReconciledFixpoint` | main.go:212-225 | Reconciling leaves the sets unchanged iff they already satisfy the disjointness invariant |
| `Reconciler.ReconciledIdempotent` | main.go:212-225 | Running the reconciliation a second time changes nothing |
| `Reconciler.ReconciledKeepsMostUnderReview` | main.go:212-225 | Any settled result with the same terminal sets keeps no more under review than the reconciler does: it removes only what the invariant forces |
| `Formatter.PrintSection` | main.go:242-252 | An empty set yields no lines. A non-empty one yields its header, then one `\t\t* key` line per key, each key once in some order: exactly size + 1 lines |
| `Formatter.SectionShape` | main.go:242-252 | A section has 0 lines for an empty set and size + 1 otherwise. It starts with its header, holds a key's line iff the key is in the set, and has no repeated line |
| `Formatter.Outline` | main.go:228-235 | The lines `markdown` builds: `* GitHub` first, then the six sections in fixed order |
| `Formatter.OutlineHeaders` | main.go:227-235 | The outline's first line is `* GitHub`, and a set's header line appears iff the set is non-empty |
| `Formatter.OutlineMembers` | main.go:227-252 | A key's member line appears in the outline iff the key is in one of the six sets |
| `Formatter.OutlineLength` | main.go:227-252 | The outline has 1 line plus, for each non-empty set, its size plus one |
| `Formatter.EmptyOutline` | main.go:227-252 | With all six sets empty, the outline is `* GitHub` alone |
| `Formatter.Join` | main.go:237 | `strings.Join`: the joined text is as long as all pieces together plus one separator between each two neighbours |
| `Formatter.ExpandTabs` | main.go:238 | Replacing every tab by four spaces leaves no tab in the text |
| `Formatter.ExpandTabsJoin` | main.go:237-238 | Expanding tabs after joining with newlines equals expanding each line and then joining, so tabs inside keys become spaces too |
| `Formatter.ExpandedTopLine` | main.go:229 | The top line `* GitHub` is printed as it is |
| `Formatter.ExpandedLines` | main.go:238-247 | Once tabs are expanded, a header reads `    * <Name>` and a member line reads `        * <key>` |
| `Organizer.EventSets.constructor` | main.go:131-138 | The six sets start empty |
| `Organizer.EventSets.Record` | main.go:140-206 | One step of the classification switch updates the sets exactly as `Apply` says |
| `Organizer.EventSets.CleanUp` | main.go:212-225 | The three in-place deletion loops leave the sets equal to `Reconciled` of the sets before |
| `Formatter.RenderedOutlineStart` | main.go:227-240 | The rendered report starts with `* GitHub`, and is exactly `* GitHub` when all six sets are empty |
| `Organizer.EventSets.Markdown` | main.go:227-240 | The text is the outline for some enumeration of each set, joined by newlines with tabs expanded. It holds no tab, starts with `* GitHub`, and is `* GitHub` alone when every set is empty |
| `Organizer.OrganizeEvents` | main.go:122-210 | If some payload fails to decode, the run stops at the first such event. Otherwise it returns fresh sets equal to the reconciled classification of all the events |
| `Organizer.FinalReportTerminalMembership` | main.go:122-225 | The final sets satisfy the disjointness invariant. A key is in merged, abandoned, reviewed or issues iff some event places it there |
| `Organizer.ClosedPullRequestIsTerminal` | main.go:184-225 | Once some event closes a pull request, its key ends in merged (or abandoned if that close did not merge it) and is neither under review nor in progress |
| `Organizer.OpenWorkIsUnderReview` | main.go:174-225 | A key some event puts under review, and that no event closes, ends under review and not in progress |

## Left out

- Command-line flags and the globals `user` and `duration` (main.go:21-26). The tracked user, the window start and the duration are plain parameters.
- Reading the clock (`time.Now`) and parsing the start date (`time.Parse`). "Today" is a day number counted from 1970-01-01. Instants are integers in nanoseconds. Calendar arithmetic beyond whole days is not modelled.
- Reading the token file and building the OAuth client (main.go:68-81): file I/O and a foreign library.
- Fetching events page by page from the GitHub API (`listEvents`, main.go:83-99): network I/O. The model receives the fetched sequence.
- Payload decoding (`ParsePayload`). Events arrive decoded. A payload that fails to decode is the `Malformed` variant, and `OrganizeEvents` reports the first one as `Fatal` instead of exiting the process.
- `log.Printf` diagnostics and the final `fmt.Println`: output with no effect on the sets or the text.
- Nil pointers. A missing login reads as the empty string, as go-github's getters return. Dereferencing a nil creation time (`e.CreatedAt`, main.go:106), issue, pull request or ref type would panic in the source; this is not modelled.
- Integer width. `time.Time` and `time.Duration` are 64-bit with saturating addition; the model uses unbounded integers.
- Strings are sequences of characters rather than UTF-8 bytes. `strings.Contains` and the tab replacement behave the same on both for the texts involved.
- `Organizer.EventSets.Markdown`: the line facts are stated about the lines before they are joined. A key that itself contains a newline would print as more than one text line.
- The order of member lines within a section follows Go's map iteration, which is unspecified. The model states no order there.
