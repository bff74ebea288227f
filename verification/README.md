# Builder-upgrade planner and image-superscale limiter, in Dafny

This project models the logic of a Clash of Clans upgrade planner and of a
client-side image-superscale helper, and proves properties of the models.

The planner has four parts:

- **The greedy scheduler.** It sorts the building queue stably by priority. It
  gives each builder a next-available instant. Then it places every upgrade,
  in order, on the builder at the head of the availability array, after a
  stable re-sort of that array.
- **The per-builder timeline.** It is derived from the schedule and filtered
  to the selected tasks.
- **The editors.** These are the builder list, the two building-queue forms,
  and the task-selection lists of the two schedule views.
- **The view helpers.** These are the schedule and timeline guards, grouping
  by builder, the timeline window, the duration texts, progress, bar
  geometry and bar colour.

The superscale helper is a rate limiter with a one-hour window of 20
requests. It also keeps a history of the ten most recent results, which
doubles as a cache.

Modules, one per file:

| module | file | contents |
|---|---|---|
| `Wrappers` | wrappers.dfy | `Option`, `Result` |
| `Seqs` | seqs.dfy | `Filter`, `MapSeq`, `NoDuplicates` and their lemmas |
| `StableSort` | stable_sort.dfy | an insertion sort that is the model of the stable `Array.prototype.sort`, with sortedness, permutation and stability |
| `Text` | text.dfy | ECMAScript `trim` and the decimal rendering of integers |
| `JsMath` | js_math.dfy | `Math.floor(a / b)`, the truncating `%`, millisecond constants |
| `PlannerTypes` | planner_types.dfy | builders, queue items, schedule items, timeline entries |
| `Scheduler` | scheduler.dfy | durations, the sleep-window test, one scheduling round, the schedule and the timeline |
| `ScheduleProperties` | scheduler_props.dfy | invariants of the scheduling loop |
| `ScheduleTheorems` | schedule_theorems.dfy | what the schedule and the timeline promise |
| `BuilderEdits` | builder_status.dfy | resizing the builder list and editing one builder |
| `Selection` | selection.dfy | toggling one task and one builder's tasks |
| `ScheduleViews` | schedule_views.dfy | guards, grouping by builder, the create/clear buttons and the empty-state message |
| `TimelineView` | timeline_view.dfy | window bounds, duration texts, progress, width/position, colour |
| `DurationText` | duration_text.dfy | a reader for "1d 2h 3m" texts, against which both timelines' duration texts are checked |
| `QueueEdits` | queue_edits.dfy | both queue editors |
| `Superscale` | superscale.dfy | rate limit, history, one superscale call |
| `SuperscaleProperties` | superscale_props.dfy | what the limiter and the cache promise across calls |

Time conventions:

- Planner instants are whole minutes on one clock. The current instant is one
  parameter `now`.
- The timeline's duration texts, widths and positions take milliseconds, as
  the views compute them. A task's length in milliseconds is
  `(endTime - startTime) * 60000`.
- The superscale helper also works in milliseconds, with one `now` per call.
- Ids that the original takes from the clock (a new queue item's id) are
  parameters.

Stored state is an explicit record:

- the superscale `Store` holds the rate-limit record and the history;
- the planner editors are records of their form fields and selections.

The HTTP request of a superscale call is a `FetchOutcome` parameter. It is
one of:

- a response, whose body may lack its `result` field;
- a non-OK status;
- a thrown error.

Two behaviours of the code that a reader may not expect:

- The scheduler, given queued upgrades and no builders, reads the head of an
  empty array and throws. It does not return an empty schedule.
  `GenerateUpgradeSchedule` returns `Failure(NoBuilders)` in exactly that case.
  Every view guards its call so that the failure cannot arise there; the
  guards' contracts state this.
- The scheduler's tie-break is not "lowest builder id". Ties go to the builder
  that is earlier in the array the previous round's re-sort left behind
  (`StepChoosesFirstEarliest`).

## Model

| member | source | states |
|---|---|---|
| Scheduler.DurationToMinutes | src/app/toolkit/coc-planner/utils/scheduler.ts:6-8 | a duration measures 0 minutes exactly when all its parts are 0, and at least the minutes of each part at its weight |
| Scheduler.AddMinutes | src/app/toolkit/coc-planner/utils/scheduler.ts:13-17 | an instant moved by a number of minutes, on the integer-minute clock |
| Scheduler.MinutesToDuration | src/app/toolkit/coc-planner/utils/scheduler.ts:6-8 | the normalised duration of a minute count has hours below 24 and minutes below 60 and measures exactly that many minutes |
| Scheduler.DurationRoundTrip | src/app/toolkit/coc-planner/utils/scheduler.ts:6-8 | a normalised duration converted to minutes and back is itself: the day/hour/minute weights are 1440, 60 and 1 |
| Scheduler.IsInSleepPeriod | src/app/toolkit/coc-planner/utils/scheduler.ts:43-53 | the window is half-open: its start minute counts as asleep, and for a length of 1 to 23 hours its end minute does not |
| Scheduler.SleepPeriodIsWindowAfterStart | src/app/toolkit/coc-planner/utils/scheduler.ts:43-53 | for a start on the clock and a length of 1 to 24 hours, the same-day/past-midnight test is exactly "less than the length after the most recent start" |
| Scheduler.ZeroSleepDurationCoversWholeDay | src/app/toolkit/coc-planner/utils/scheduler.ts:45-53 | a zero-hour window has its end equal to its start and so takes the wrapping branch: every instant counts as asleep |
| Scheduler.ReadyAt | src/app/toolkit/coc-planner/utils/scheduler.ts:77-95 | an idle builder is available at `now`; a busy one at `now` plus its remaining minutes, a missing remaining time counting as 0; never before `now` |
| Scheduler.InitialAvailability | src/app/toolkit/coc-planner/utils/scheduler.ts:77-95 | one entry per builder, in builder order, carrying its id and its `ReadyAt` instant |
| Scheduler.Step | src/app/toolkit/coc-planner/utils/scheduler.ts:98-119 | one round: the item gets the given id, the building, no selection, a start no later than any entry of the array, and an end one duration later; the chosen entry moves to the head with the end as its instant |
| Scheduler.StepChoosesFirstEarliest | src/app/toolkit/coc-planner/utils/scheduler.ts:100-101 | the chosen builder is the first entry of the array holding the minimum instant |
| Scheduler.StepKeepsOtherEntries | src/app/toolkit/coc-planner/utils/scheduler.ts:100-109 | a round replaces the chosen entry and keeps every other entry of the array |
| Scheduler.StepKeepsIds | src/app/toolkit/coc-planner/utils/scheduler.ts:100-109 | a round keeps the multiset of builder ids in the array |
| Scheduler.AssignAll | src/app/toolkit/coc-planner/utils/scheduler.ts:98-120 | one item per upgrade, and the availability array keeps its length; what each item is comes from the `ScheduleProperties.AssignAll` lemmas |
| Scheduler.Schedule | src/app/toolkit/coc-planner/utils/scheduler.ts:64-120 | one item per queued upgrade, for a non-empty list of builders |
| Scheduler.GenerateUpgradeSchedule | src/app/toolkit/coc-planner/utils/scheduler.ts:59-123 | the call fails exactly when there are queued upgrades and no builders; otherwise there is one item per queued upgrade |
| Scheduler.GenerateBuilderTimeline | src/app/toolkit/coc-planner/utils/scheduler.ts:128-163 | the timeline fails exactly when the schedule does |
| Scheduler.GroupByBuilder | src/app/toolkit/coc-planner/utils/scheduler.ts:141-162 | no more entries than builders, and none without tasks; that each builder has at most one entry is `ScheduleTheorems.GroupByBuilderIsFilterThenMap` |
| ScheduleProperties.AssignAllPrefix | src/app/toolkit/coc-planner/utils/scheduler.ts:98-120 | the items of the first `n` upgrades do not depend on the upgrades after them |
| ScheduleProperties.AssignAllItem | src/app/toolkit/coc-planner/utils/scheduler.ts:98-120 | item `i` is the round applied to the array as it stood after the first `i` upgrades |
| ScheduleProperties.AssignAllKeepsIds | src/app/toolkit/coc-planner/utils/scheduler.ts:98-120 | the array keeps its multiset of builder ids through the whole loop |
| ScheduleProperties.StepNotBefore | src/app/toolkit/coc-planner/utils/scheduler.ts:104-109 | a round never moves an entry before `now` |
| ScheduleProperties.AssignAllNotBefore | src/app/toolkit/coc-planner/utils/scheduler.ts:98-120 | no entry of the array is ever before `now` |
| ScheduleProperties.AssignAllItemFacts | src/app/toolkit/coc-planner/utils/scheduler.ts:98-120 | item `k` has id `k + 1`, names building `k`, is unselected, lasts its duration, starts no earlier than `now` and is on one of the initial builders |
| ScheduleProperties.RoundKeepsEntriesNotBeforeItems | src/app/toolkit/coc-planner/utils/scheduler.ts:104-109 | when builder ids are distinct, each builder's next instant stays at or after the end of each of its placed items, across one round |
| ScheduleProperties.AdvanceKeepsEntriesNotBeforeItems | src/app/toolkit/coc-planner/utils/scheduler.ts:104-109 | the same invariant across one appended item of the loop |
| ScheduleProperties.AssignAllEntriesNotBeforeItems | src/app/toolkit/coc-planner/utils/scheduler.ts:98-120 | the invariant holds after every prefix of the loop |
| ScheduleProperties.NoOverlapPair | src/app/toolkit/coc-planner/utils/scheduler.ts:104-109 | an earlier item on a builder ends no later than a later item on the same builder starts |
| ScheduleProperties.AssignAllNoOverlap | src/app/toolkit/coc-planner/utils/scheduler.ts:98-120 | no two items of one builder overlap, for the whole loop |
| ScheduleTheorems.InitialIds | src/app/toolkit/coc-planner/utils/scheduler.ts:77-95 | the initial array lists the builder ids in builder order |
| ScheduleTheorems.ScheduleItemFacts | src/app/toolkit/coc-planner/utils/scheduler.ts:73-120 | item `i` of the schedule has id `i + 1`, names the `i`-th upgrade of the priority-sorted queue, is unselected, lasts its duration, starts no earlier than `now`, and is on a given builder |
| ScheduleTheorems.SchedulePriorityOrder | src/app/toolkit/coc-planner/utils/scheduler.ts:64-71 | the items follow the sorted queue, which is a permutation of the queue with High before Medium before Low, each priority's upgrades in queue order |
| ScheduleTheorems.ScheduleIsGreedy | src/app/toolkit/coc-planner/utils/scheduler.ts:100-109 | each item starts at the minimum instant of the array before it was placed, on the first builder of that array holding that instant |
| ScheduleTheorems.IdleBuilderStartsFirstUpgradeNow | src/app/toolkit/coc-planner/utils/scheduler.ts:77-82 | with any idle builder, the first upgrade starts at `now` |
| ScheduleTheorems.ScheduleNoOverlap | src/app/toolkit/coc-planner/utils/scheduler.ts:104-109 | with distinct builder ids, two items on the same builder never overlap |
| ScheduleTheorems.GroupByBuilderIsFilterThenMap | src/app/toolkit/coc-planner/utils/scheduler.ts:141-162 | the timeline is the builders that have items, in builder order, each with its items in schedule order |
| ScheduleTheorems.TimelineTaskOrigin | src/app/toolkit/coc-planner/utils/scheduler.ts:144-158 | every task of an entry comes from an item of that entry's builder |
| ScheduleTheorems.TimelineKeepsItem | src/app/toolkit/coc-planner/utils/scheduler.ts:144-158 | every item of a listed builder appears as a task of that builder's entry |
| ScheduleTheorems.TimelineOnlySelected | src/app/toolkit/coc-planner/utils/scheduler.ts:133-139 | every timeline task is selected and comes from the schedule item of the same builder; unknown ids add nothing |
| ScheduleTheorems.EmptySelectionEmptyTimeline | src/app/toolkit/coc-planner/utils/scheduler.ts:133-162 | with nothing selected the timeline is empty |
| Superscale.GetRateLimitInfo | src/utils/superscale.ts:29-38 | the stored record when there is one; otherwise count 0 and a window ending one hour after `now` |
| Superscale.UpdateRateLimit | src/utils/superscale.ts:41-61 | the stored record after counting: past the reset instant, count 1 and a reset one hour from `now`; otherwise the count plus one and the same reset; the history is untouched |
| SuperscaleProperties.UpdateCountsOneRequest | src/utils/superscale.ts:41-61 | a closed window counts as empty: the count becomes the open window's count plus one, the reset moves to an hour from `now` only for a closed window, and the counted window always contains `now` |
| SuperscaleProperties.CountedWindowWithinAnHour | src/utils/superscale.ts:45-58 | counting never pushes a reset that was at most an hour away further than an hour away |
| Superscale.IsRateLimited | src/utils/superscale.ts:64-73 | a call is limited exactly when counting it would take the window past 20 requests |
| Superscale.CeilDiv | src/utils/superscale.ts:79 | the least multiple count covering the dividend: `Math.ceil` for non-negative operands |
| Superscale.RemainingMinutes | src/utils/superscale.ts:76-79 | 0 exactly when the reset instant has passed; otherwise the least number of whole minutes that covers the time left |
| Superscale.ResetTimeText | src/utils/superscale.ts:76-88 | the text is "sekarang" exactly when the window has already reset |
| SuperscaleProperties.ResetTimeTextNamesStartedMinutes | src/utils/superscale.ts:76-88 | before the reset the text is "N menit" with N the remaining time in minutes rounded up |
| Superscale.SaveResult | src/utils/superscale.ts:91-103 | the record goes in front, the older records follow in order, and at most ten are kept |
| Superscale.FindCached | src/utils/superscale.ts:123-129 | a found record is in the history and is for the same image, scale and anime flag; nothing is found exactly when no record matches |
| SuperscaleProperties.FindCachedIsFirst | src/utils/superscale.ts:123-129 | the found record is the first matching one |
| Superscale.SuperscaleImage | src/utils/superscale.ts:111-184 | the returned record is always for the requested image, scale and anime flag |
| SuperscaleProperties.LimitedCallRecordsError | src/utils/superscale.ts:118-120 | a limited call returns and records the rate-limit error even when the request is cached, and counts nothing |
| SuperscaleProperties.CacheHitChangesNothing | src/utils/superscale.ts:123-134 | a cache hit returns the cached record whatever its status and changes neither the count nor the history |
| SuperscaleProperties.UncachedCallCountsOnce | src/utils/superscale.ts:137-182 | an uncached call is counted exactly once, success or failure; its record heads the history and is a success exactly when a response arrived |
| SuperscaleProperties.CallKeepsCountWithinLimit | src/utils/superscale.ts:64-73 | no call takes the stored count above 20 |
| SuperscaleProperties.CallKeepsHistoryBounded | src/utils/superscale.ts:98-99 | the history never exceeds ten records |
| SuperscaleProperties.LimitLastsUntilReset | src/utils/superscale.ts:64-73 | once limited, calls stay limited up to the reset instant |
| SuperscaleProperties.SavedResultIsFound | src/utils/superscale.ts:91-103 | a record just saved is what the next lookup of its request finds |
| SuperscaleProperties.RepeatedRequestIsCacheHit | src/utils/superscale.ts:116-134 | repeating a request while not limited returns the same record and changes nothing, error records included |
| BuilderEdits.Resized | src/app/toolkit/coc-planner/components/BuilderStatus.tsx:30-42 | the resized list has exactly the requested length |
| BuilderEdits.ResizeBuilders | src/app/toolkit/coc-planner/components/BuilderStatus.tsx:25-44 | exactly `count` builders; old ones kept in order where they exist; position `i` beyond them is a new idle builder with id `i + 1` |
| BuilderEdits.ResizeToSameCount | src/app/toolkit/coc-planner/components/BuilderStatus.tsx:30-42 | resizing to the current length changes nothing |
| BuilderEdits.ResizeTwice | src/app/toolkit/coc-planner/components/BuilderStatus.tsx:30-42 | two resizes equal the second one alone when the first keeps what the second needs |
| BuilderEdits.ShrinkThenGrowResetsBuilder | src/app/toolkit/coc-planner/components/BuilderStatus.tsx:33-41 | a builder dropped by shrinking comes back as a new idle builder |
| BuilderEdits.ResizeKeepsNumbering | src/app/toolkit/coc-planner/components/BuilderStatus.tsx:35-41 | a list numbered 1, 2, ... stays so after a resize, so its ids stay distinct |
| BuilderEdits.UpdateBuilderStatus | src/app/toolkit/coc-planner/components/BuilderStatus.tsx:46-72 | the length and every id are kept, other builders are unchanged; a matching builder gets the status, and when busy exactly the entered days, hours and minutes with a blank part as 0, and nothing else of it changes |
| BuilderEdits.UpdateBuilderStatusIdempotent | src/app/toolkit/coc-planner/components/BuilderStatus.tsx:53-71 | applying the same edit twice is applying it once |
| BuilderEdits.UpdatedBuilderReadyAt | src/app/toolkit/coc-planner/components/BuilderStatus.tsx:56-66 | an edited builder is available at `now` when idle, else after the entered time with missing parts as zero |
| BuilderEdits.SleepDurationInput | src/app/toolkit/coc-planner/components/BuilderStatus.tsx:294 | an input that parses to 0 or does not parse becomes 8; any other parsed number is kept |
| Selection.Toggle | src/app/toolkit/coc-planner/components/UpgradeSchedule.tsx:60-68 | a selected id is removed with all its occurrences and nothing else changes; an unselected id is appended after the selection |
| Selection.ToggleTwiceMembership | src/app/toolkit/coc-planner/components/UpgradeSchedule.tsx:60-68 | toggling the same id twice restores which ids are selected |
| Selection.ToggleTwice | src/app/coc-planner/components/UpgradeSchedule.tsx:31-37 | toggling an unselected id twice restores the list exactly; a selected id ends up once at the end |
| Selection.AppendMissing | src/app/toolkit/coc-planner/components/UpgradeSchedule.tsx:80-88 | the selection is kept as a prefix; the appended ids are exactly the missing ones, each once |
| Selection.ToggleAll | src/app/toolkit/coc-planner/components/UpgradeSchedule.tsx:71-90 | when all the builder's ids are selected exactly those are removed; otherwise the missing ones are appended without duplicates and the old order is kept |
| Selection.RemoveAppended | src/app/toolkit/coc-planner/components/UpgradeSchedule.tsx:77 | removing the ids from a selection that lacked them, after some were appended, gives that selection back |
| Selection.ToggleAllFromNone | src/app/toolkit/coc-planner/components/UpgradeSchedule.tsx:78-88 | a builder whose first task is unselected gets its missing ids appended |
| Selection.ToggleAllFromAll | src/app/toolkit/coc-planner/components/UpgradeSchedule.tsx:75-77 | a builder whose tasks are all selected has them removed |
| Selection.ToggleAllNoIds | src/app/toolkit/coc-planner/components/UpgradeSchedule.tsx:73-77 | a builder without tasks changes nothing |
| Selection.SecondToggleAllRestores | src/app/toolkit/coc-planner/components/UpgradeSchedule.tsx:71-90 | the second click after a first one that appended undoes it |
| Selection.ToggleAllTwice | src/app/toolkit/coc-planner/components/UpgradeSchedule.tsx:71-90 | two clicks on a builder with nothing selected restore the selection exactly |
| ScheduleViews.GuardedSchedule | src/app/toolkit/coc-planner/components/UpgradeSchedule.tsx:23-28 | empty when there are no builders or no queued upgrades; otherwise the scheduler's successful result |
| ScheduleViews.NoItemsNoTimeline | src/app/toolkit/coc-planner/utils/scheduler.ts:144-160 | with no items no builder gets a timeline entry |
| ScheduleViews.GuardedTimeline | src/app/toolkit/coc-planner/components/BuilderTimeline.tsx:19-24 | empty when builders, queue or selection is empty; otherwise the scheduler's successful timeline |
| ScheduleViews.ItemsOfAppend | src/app/toolkit/coc-planner/components/UpgradeSchedule.tsx:34-39 | one builder's items in a concatenation are its items in each part, in order |
| ScheduleViews.PushKeepsGroups | src/app/toolkit/coc-planner/components/UpgradeSchedule.tsx:35-38 | pushing one more item keeps every group equal to its builder's items |
| ScheduleViews.GroupPush | src/app/toolkit/coc-planner/components/UpgradeSchedule.tsx:32-39 | the grouping maps exactly the builders that have items, each to its items in schedule order |
| ScheduleViews.ScheduleByBuilder | src/app/toolkit/coc-planner/components/UpgradeSchedule.tsx:31-49 | the same keys; each group holds its builder's items with their multiplicities, sorted by start time |
| ScheduleViews.ItemInOwnGroup | src/app/toolkit/coc-planner/components/UpgradeSchedule.tsx:34-39 | every item is in the group of its own builder |
| ScheduleViews.GroupCounts | src/app/toolkit/coc-planner/components/UpgradeSchedule.tsx:34-39 | a group holds an item as often as the schedule does when the builder matches, never otherwise |
| ScheduleViews.ScheduleByBuilderPartitions | src/app/toolkit/coc-planner/components/UpgradeSchedule.tsx:31-49 | the groups partition the schedule: nothing lost, nothing in another builder's group, nothing duplicated |
| ScheduleViews.ScheduleGroupsAlreadyInOrder | src/app/toolkit/coc-planner/components/UpgradeSchedule.tsx:42-46 | on the scheduler's output with distinct builder ids, the sort changes nothing: each group is its builder's items in schedule order |
| ScheduleViews.ScheduleDisplay | src/app/toolkit/coc-planner/components/UpgradeSchedule.tsx:146-160 | the groups are drawn exactly when the schedule has items; otherwise the message is the nothing-to-schedule one when the flag is up and the prompt when it is down |
| ScheduleViews.CreateSchedule | src/app/toolkit/coc-planner/components/UpgradeSchedule.tsx:51-53 | raises the flag and keeps the selection |
| ScheduleViews.ClearSchedule | src/app/toolkit/coc-planner/components/UpgradeSchedule.tsx:55-58 | lowers the flag and empties the selection |
| ScheduleViews.ButtonsOnlyPickTheMessage | src/app/toolkit/coc-planner/components/UpgradeSchedule.tsx:51-58 | with a schedule, neither button changes what is drawn; without one, create shows the nothing-to-schedule message and clear the prompt |
| ScheduleViews.ClearedScheduleShowsNoTimeline | src/app/toolkit/coc-planner/components/UpgradeSchedule.tsx:55-58 | after clearing, the flag is down, the timeline of selected tasks is empty, and creating again brings no selection back |
| ScheduleViews.CreateScheduleItems | src/app/coc-planner/components/UpgradeSchedule.tsx:53-58 | the items are kept when either list is empty; otherwise they are the guarded schedule |
| ScheduleViews.CreateAfterRecomputeChangesNothing | src/app/coc-planner/components/UpgradeSchedule.tsx:22-29 | pressing create right after the effect recomputed the schedule from the same data changes nothing |
| ScheduleViews.ClearSelection | src/app/coc-planner/components/UpgradeSchedule.tsx:39-41 | drops the selection and keeps the schedule items |
| ScheduleViews.ClearSelectionKeepsSchedule | src/app/coc-planner/components/UpgradeSchedule.tsx:39-41 | clearing the selection keeps the schedule and empties the timeline |
| TimelineView.TimelineWindow | src/app/toolkit/coc-planner/components/BuilderTimeline.tsx:27-53 | with no data the window is seven days from `now`; otherwise it contains `now` and every task, and each bound is `now` or a task's start or end |
| TimelineView.SplitMillis | src/app/toolkit/coc-planner/components/BuilderTimeline.tsx:110-113 | for a non-negative length: days, hours below 24 and minutes below 60 |
| TimelineView.SplitMillisIsWholeMinutes | src/app/coc-planner/components/BuilderTimeline.tsx:40-43 | the split of a length equals the normalised duration of its whole minutes |
| TimelineView.NumeralHasNoLetter | src/app/toolkit/coc-planner/components/BuilderTimeline.tsx:116-118 | a rendered integer contains no unit letter |
| TimelineView.NumeralStartsVisible | src/app/coc-planner/components/BuilderTimeline.tsx:45-50 | a rendered integer does not start with whitespace |
| TimelineView.FormatDuration | src/app/toolkit/coc-planner/components/BuilderTimeline.tsx:109-121 | days are shown exactly when positive, hours exactly when hours or days are positive, and the text always ends with the minutes |
| TimelineView.TaskDurationText | src/app/coc-planner/components/BuilderTimeline.tsx:39-51 | the text is empty exactly when no component is positive, and holds each of 'd', 'h', 'm' exactly when that component is positive |
| TimelineView.PositiveLabelEmptyIffNoPart | src/app/coc-planner/components/BuilderTimeline.tsx:45-50 | the trimmed text of the positive parts is empty exactly when no part is positive |
| TimelineView.PositiveLabelLetters | src/app/coc-planner/components/BuilderTimeline.tsx:45-50 | each unit letter is in the trimmed text exactly when its part is positive |
| TimelineView.LetterMarksPart | src/app/coc-planner/components/BuilderTimeline.tsx:45-50 | one unit letter: in the text exactly when its part is positive, because numerals hold no letters and trimming keeps letters |
| TimelineView.LetterInPiece | src/app/coc-planner/components/BuilderTimeline.tsx:46-48 | a written piece such as "12h " holds a unit letter exactly when it is written and the letter is its own |
| DurationText.DurationLabelReadsBack | src/app/toolkit/coc-planner/components/BuilderTimeline.tsx:116-120 | the toolkit label of non-negative parts reads back as exactly those parts |
| DurationText.FormatDurationReadsBack | src/app/toolkit/coc-planner/components/BuilderTimeline.tsx:109-121 | for a non-negative length, the toolkit's text reads back as the split of the length: every numeral is its part's decimal numeral |
| DurationText.PositivePartsLabelReadsBack | src/app/coc-planner/components/BuilderTimeline.tsx:45-50 | the trimmed text reads back as the positive parts, with 0 for every part that is not positive |
| DurationText.TaskDurationTextReadsBack | src/app/coc-planner/components/BuilderTimeline.tsx:39-51 | for every length, the other timeline's text reads back as the positive parts of the split, with 0 for the rest |
| TimelineView.NoPartUnderAMinute | src/app/coc-planner/components/BuilderTimeline.tsx:40-43 | for a non-negative length, all parts are zero exactly when the length is under a minute |
| TimelineView.TaskDurationEmptyUnderAMinute | src/app/coc-planner/components/BuilderTimeline.tsx:39-51 | a non-negative task length gives "" exactly when it is under a minute |
| TimelineView.FormatDurationUnderAMinute | src/app/toolkit/coc-planner/components/BuilderTimeline.tsx:109-121 | a length under a minute is shown as "0m" |
| TimelineView.Progress | src/app/toolkit/coc-planner/components/BuilderTimeline.tsx:216-228 | 0 before the start, 100 after the end, between 0 and 100 while running, undefined exactly for a zero-length task at its instant |
| TimelineView.FloorDivMonotone | src/app/toolkit/coc-planner/components/BuilderTimeline.tsx:227 | the floored quotient does not decrease as the dividend grows |
| TimelineView.ProgressMonotone | src/app/toolkit/coc-planner/components/BuilderTimeline.tsx:216-228 | progress never decreases as time advances |
| TimelineView.TaskWidth | src/app/coc-planner/components/BuilderTimeline.tsx:53-63 | at least 5; above 5 exactly when the task is longer than a twentieth of seven days, and then its share of seven days in percent |
| TimelineView.TaskPosition | src/app/coc-planner/components/BuilderTimeline.tsx:65-75 | within [0, 100]; 0 exactly when the task has started; 100 exactly when it starts seven days or more ahead; otherwise the share in percent |
| TimelineView.FindBuilding | src/app/coc-planner/components/BuilderTimeline.tsx:78 | none exactly when no queued upgrade has the id; otherwise the first one that has it |
| TimelineView.TaskColor | src/app/coc-planner/components/BuilderTimeline.tsx:77-91 | gray exactly for an unknown building; otherwise primary, success, warning or info by category |
| QueueEdits.RemoveAppendedId | src/app/toolkit/coc-planner/components/BuildingQueue.tsx:41-43 | removing the id of the upgrade appended last, when no other has it, gives the queue back |
| QueueEdits.AddBuilding | src/app/toolkit/coc-planner/components/BuildingQueue.tsx:22-39 | nothing changes exactly when the name is all whitespace; otherwise one upgrade is appended with the typed name, blank durations as 0, and the form resets to empty, Defense, Medium, blank |
| QueueEdits.RemoveBuilding | src/app/toolkit/coc-planner/components/BuildingQueue.tsx:41-43 | every upgrade with the id is dropped and every other one kept with its multiplicity |
| QueueEdits.WithoutId | src/app/toolkit/coc-planner/components/BuildingQueue.tsx:41-43 | the queue with every upgrade of the id filtered out, in order |
| QueueEdits.RemoveBuildingAppend | src/app/toolkit/coc-planner/components/BuildingQueue.tsx:41-43 | removal from two concatenated parts is removal from each part, in order |
| QueueEdits.RemoveBuildingSingle | src/app/toolkit/coc-planner/components/BuildingQueue.tsx:41-43 | a single upgrade goes exactly when it has the id; with the append lemma this fixes the result, order included |
| QueueEdits.AddThenRemove | src/app/toolkit/coc-planner/components/BuildingQueue.tsx:22-43 | adding under a fresh id and removing that id restores the queue |
| QueueEdits.AddToQueue | src/app/coc-planner/components/BuildingQueue.tsx:25-47 | nothing changes exactly when the name is blank or every duration part is 0; otherwise one upgrade is appended, name and duration reset, category, priority and selection kept |
| QueueEdits.RemoveSelected | src/app/coc-planner/components/BuildingQueue.tsx:49-53 | exactly the unselected upgrades stay, with their multiplicities; the selection and the select-all box are cleared |
| QueueEdits.RemoveSelectedAppend | src/app/coc-planner/components/BuildingQueue.tsx:49-53 | removing the selection from two concatenated parts removes it from each part, in order |
| QueueEdits.RemoveSelectedSingle | src/app/coc-planner/components/BuildingQueue.tsx:49-53 | a single upgrade goes exactly when its id is selected; with the append lemma this fixes the remaining queue, order included |
| QueueEdits.SelectAll | src/app/coc-planner/components/BuildingQueue.tsx:55-62 | the box flips; ticking it selects the queued ids, one per queued upgrade in queue order, unticking it selects nothing |
| QueueEdits.SelectAllThenRemoveEmptiesQueue | src/app/coc-planner/components/BuildingQueue.tsx:49-62 | select-all followed by remove-selected empties the queue |
| QueueEdits.SelectAllTwice | src/app/coc-planner/components/BuildingQueue.tsx:55-62 | ticking select-all twice ends with no selection and the box unticked |
| QueueEdits.SelectItem | src/app/coc-planner/components/BuildingQueue.tsx:64-74 | the id is toggled; unticking clears the box; ticking sets it when the selection reaches the queue length and otherwise leaves it |
| QueueEdits.SelectItemTwice | src/app/coc-planner/components/BuildingQueue.tsx:64-74 | ticking and unticking an item restores the selection and leaves the box unticked |
| StableSort.Sort | src/app/toolkit/coc-planner/utils/scheduler.ts:64-71 | the result is a sorted permutation of the input |
| StableSort.SortIsStable | src/app/toolkit/coc-planner/utils/scheduler.ts:64-71 | for every key, the elements with that key keep their input order |
| StableSort.SortHeadIsFirstMinimum | src/app/toolkit/coc-planner/utils/scheduler.ts:100-101 | the head of the sorted array is the first element of the input with the minimum key |
| Text.Trim | src/app/coc-planner/components/BuildingQueue.tsx:26 | the trimmed text is a slice with only whitespace cut on either side, and it neither starts nor ends with whitespace |
| Text.TrimEmptyIffBlank | src/app/toolkit/coc-planner/components/BuildingQueue.tsx:23 | a text trims to "" exactly when it is all whitespace |
| Text.NatToStringRoundTrip | src/utils/superscale.ts:86 | reading back a rendered number gives the number |
| Text.NatToStringInjective | src/utils/superscale.ts:86 | distinct numbers render as distinct numerals, so two minute counts never share a text |
| Text.TrimKeepsVisible | src/app/coc-planner/components/BuilderTimeline.tsx:50 | trimming keeps exactly the visible characters a text had |
| Text.TrimOfTrimmed | src/app/coc-planner/components/BuilderTimeline.tsx:50 | a text that neither starts nor ends with whitespace trims to itself |
| Text.TrimDropsTrailingSpace | src/app/coc-planner/components/BuilderTimeline.tsx:50 | one space after a text without outer whitespace is trimmed away and nothing else is |

## Left out

- Calendar time is not modelled. `Date`, local time, daylight saving and `Date.setMinutes` are replaced by integer minutes, and `addMinutes` by addition.
- Every clock read is a parameter. The original reads the clock separately per builder, per view and per call. The model takes one `now` for each.
- Ids drawn from `Date.now()` for new queue items are a parameter.
- Numeric inputs are not parsed. Form durations are natural numbers, or `None` for a blank toolkit input. A `NaN`, a negative number or a fractional value from `parseInt` is not modelled.
- The builder-count select's `parseInt` is not modelled either: the count is a natural number.
- Scheduler.IsInSleepPeriod: takes the sleep start as two integers rather than parsing the "HH:MM" string. It has no caller in the scheduler. The `Date` objects it builds and never uses are left out.
- The network request is not modelled. `fetch`, `response.json()` and the request URL with its `resize.toString()` are reduced to a `FetchOutcome` supplied by the caller.
- `localStorage` is not modelled. Reads and writes of the rate-limit record and the history become the explicit `Store`. Malformed stored values are not modelled.
- Concurrency is not modelled. Calls to the superscale helper do not interleave, and React state updates are applied one at a time.
- Selection.ToggleAll: decides and updates from one selection. The original decides "all selected" from the rendered selection and updates the selection through the updater's `prev`, which are the same unless updates are batched.
- TimelineView.Progress: the in-progress percentage is an exact integer floor rather than an IEEE double. The zero-length case that divides by zero is `None` in place of `NaN`.
- TimelineView.TaskWidth: a real number rather than an IEEE double.
- DurationText.FormatDurationReadsBack: covers non-negative lengths only. A negative length gives negative numerals, which the reader does not accept. The scheduler never produces a task that ends before it starts.
- The toolkit schedule view's flag does not hide the schedule. The schedule is recomputed from the data whatever the flag says. Pressing clear empties the selection and switches the empty-state message, and nothing else; the model promises no more than that.
- TimelineView.TaskPosition: a real number rather than an IEEE double.
- The toolkit timeline's colour and name helpers, `getCategoryColor`, `getCategoryTextColor` and `getBuildingName`, are left out. They are fixed string tables for rendering. The planner's `getTaskColor` is modelled as the representative.
- Rendering is left out: JSX, class strings, `formatDate`/`formatDateTime` and the window's pixel layout.
- Page wiring is left out: the load/save effects of the two planner pages and the layouts.
