# Shift and worklog reconciliation — a Dafny model

This project models the core of the server controller
`server/controllers/appController.js`. That controller compares each user's
scheduled Microsoft Teams shifts with the time they logged in Jira for the
same week.

The two request handlers `getUsersWithLoggedShifts` and `BonusLoggedShifts`
do the following:
- compute the current week window;
- read the stored schedule snapshot and worklog snapshot for that week;
- keep each user's shifts whose display name or notes mention one of the
  handler's keywords;
- sum each user's logged time per UTC day from the `timeSpent` texts;
- mark a kept shift `validated` when its day has at least 7 logged hours;
- answer with the shifts grouped by scheduling-group name and user email.

The two handlers differ only in their keyword list. They are modelled as one
procedure, `Reconciliation.Reconcile`, with the keyword list as a parameter.
`GetUsersWithLoggedShifts` and `BonusLoggedShifts` are proved to be its two
instances.

The controller's smaller in-memory helpers are modelled as well:
- the archived-week helpers `isWeekDataComplete`, `updateIncompleteData` and
  `filterWorklogsData`;
- the email partition of `getCurrentWeekData`;
- the scan for users with a shift today in `getUsersWithShiftsToday`;
- the bucketing of fetched shifts by group and user in `connectMS`;
- the filing of Jira issues under their assignee's email in `getIssues`.

Modules, one per file:

| module | what it models |
|---|---|
| `Wrappers` | `Option` |
| `SeqFacts` | small facts about sequence slices, concatenation and a map-then-filter step used by the proofs |
| `Strings` | `toLowerCase` (ASCII), `includes`, `split('T')[0]`, decimal digits and `padStart(2, '0')` |
| `WeekWindow` | the Gregorian calendar, JavaScript's `setDate` overflow, the week window and its `YYYY-MM-DDT00:00:00.000Z` bounds |
| `Duration` | what one `timeSpent` text adds to its day: the first match of `\d+(\.\d+)?` and the `h` and `d` markers |
| `Snapshots` | the stored schedule and worklog documents, as the handlers read them; a shift keeps all eight fields `connectMS` stores |
| `ShiftClassifier` | the keyword filter on shifts |
| `Aggregation` | flattening, grouping by day and summing of worklogs into `worklogsData` |
| `Validation` | the join that marks and files the kept shifts into `validatedShiftsData` |
| `Reconciliation` | the unused first pass that can still throw, the error paths, and the two handlers |
| `WeekData` | `isWeekDataComplete`, `updateIncompleteData`, `filterWorklogsData` |
| `EmailPartition` | common, shifts-only and issues-only emails |
| `TodayScan` | the users with a shift overlapping today's UTC day |
| `ShiftBuckets` | `shiftsByGroup` in `connectMS` |
| `ProjectUsers` | `projectObject.users` in `getIssues` |

JavaScript objects iterated with `for…in` or `Object.values` become
sequences in iteration order. Objects used as dictionaries become `map`s.
Loops that update accumulators in place are `method`s with loop invariants.
Each such method's `ensures` equates its result with a recursive
specification function, and the properties are proved about that function
as lemmas. Hours are `real`.

Quirks of the source that the model keeps, each proved:
- The week starts on `today − weekday + 1`, so on a Sunday the window is
  the following week (`WeekWindow.SundayStartsNextWeek`).
- The end bound is "start day + 7" taken in today's month. When the start
  lies in the previous month, the end lands about a month late
  (`WeekWindow.WeekEndSkipsAMonth`, `WeekWindow.WeekEndIsStartPlusSevenIff`).
- Any `timeSpent` with a digit and a `d` counts as exactly 8 hours, and only
  the first number of the text counts. A text with no digit, such as
  "half day", adds nothing and is not counted.
- "Holiday" contains "day", so it is a standard shift.
- A user listed under several projects keeps only the last project's totals.
- The first pass of lines 163-209 builds an object that is never read.
  It still throws on an unreadable shift start. It also throws when a user
  with a kept shift has an email that is a group's name, and that group
  came before every user with a kept shift and the same email. The key then
  holds the group's `{}`, which has no `shifts` to push onto. When a user
  takes the key first, the later group reuses it and nothing throws
  (`Reconciliation.FirstPassFailsIff`, `Reconciliation.NameClashFails`,
  `Reconciliation.UserBeforeGroupSucceeds`).
- Emails are property keys: a user stored with `email: null` is filed
  under the key "null", one without an email under "undefined".
- In `getIssues`, an unassigned issue and an issue whose assignee has no
  email are filed under the same user.

## Model

| member | source | states |
|---|---|---|
| `Strings.ToLower` | server/controllers/appController.js:183 | lower-cases letter by letter; the length is unchanged |
| `Strings.Includes` | server/controllers/appController.js:183-184 | `includes` holds exactly when the keyword occurs at some index |
| `Strings.BeforeFirst` | server/controllers/appController.js:327 | `split('T')[0]`: the longest prefix without a `T`, followed by a `T` or by the end of the text |
| `Strings.NatToString` | server/controllers/appController.js:144-145 | the decimal digits of a number, read back to the same number |
| `Strings.Pad2` | server/controllers/appController.js:144-145 | `padStart(2, '0')`: two digits for numbers below 100, with the same value |
| `WeekWindow.DaysInMonth` | server/controllers/appController.js:136-142 | 28 to 31 days; 29 exactly for February of a leap year |
| `WeekWindow.Normalize` | server/controllers/appController.js:137 | `setDate(n)` rolls over into later or earlier months and lands n − 1 days after the first of the month |
| `WeekWindow.SetDate` | server/controllers/appController.js:137 | a valid date, n − day days from the original, its weekday moved on by as many days |
| `WeekWindow.AddDays` | server/controllers/appController.js:137 | a valid date exactly k days later, its weekday k further on |
| `WeekWindow.WeekStart` | server/controllers/appController.js:133-138 | always a Monday; the Monday on or before today, except that on a Sunday it is the next day |
| `WeekWindow.WeekEnd` | server/controllers/appController.js:140-142 | the start's day number + 7, taken in today's month |
| `WeekWindow.WeekEndIsStartPlusSevenIff` | server/controllers/appController.js:136-142 | the end is 7 days after the start exactly when the start lies in today's year and month |
| `WeekWindow.YearString` | server/controllers/appController.js:144 | the year text never contains a `T` |
| `WeekWindow.DateStringRoundTrip` | server/controllers/appController.js:144-148 | year, month and day can be read back from the `YYYY-MM-DD` bound |
| `WeekWindow.WeekBoundDatePart` | server/controllers/appController.js:146-148 | cutting a bound at its first `T` gives back the date string |
| `WeekWindow.IsoWeekStart` | server/controllers/appController.js:141 | the Monday on or before today, Sundays included: the Monday-to-Sunday week that the comment on line 141 describes |
| `WeekWindow.IsoWeekEnd` | server/controllers/appController.js:141 | a Monday exactly 7 days after `IsoWeekStart` |
| `WeekWindow.WeekStartIsIsoExceptSunday` | server/controllers/appController.js:134-138 | on every day but Sunday the controller's start is the ISO week's Monday |
| `WeekWindow.SundayStartsNextWeek` | server/controllers/appController.js:134-138 | on Sunday 2023-03-05 the start is Monday 2023-03-06, not 2023-02-27 |
| `WeekWindow.WeekEndSkipsAMonth` | server/controllers/appController.js:140-142 | on Wednesday 2023-03-01 the end is 2023-04-03, not 2023-03-06 |
| `Duration.DigitRun` | server/controllers/appController.js:258 | the maximal run of digits at an index |
| `Duration.FirstDigit` | server/controllers/appController.js:258 | the first digit at or after an index, or none |
| `Duration.MaximalDigitsUnique` | server/controllers/appController.js:258 | a greedy digit run at a given index is unique |
| `Duration.MatchOccurs` | server/controllers/appController.js:258 | the matched text occurs in the input where the match starts |
| `Duration.FirstNumber` | server/controllers/appController.js:258-260 | `match(/(\d+(\.\d+)?)/)`: none exactly when the text has no digit, else the leftmost greedy match |
| `Duration.FirstNumberUnique` | server/controllers/appController.js:258 | the first match is unique |
| `Duration.Value` | server/controllers/appController.js:261 | `parseFloat` of the match is a non-negative exact decimal |
| `Duration.SpentHours` | server/controllers/appController.js:258-271 | none exactly when there is no digit; 8 when the text has a `d`; the matched number for `h` without `d`; 0 otherwise |
| `Duration.HourEntry` | server/controllers/appController.js:263-264 | "3h" adds 3 |
| `Duration.DecimalMatch` | server/controllers/appController.js:258 | "1.5h" matches 1 with fraction 5 |
| `Duration.DecimalValue` | server/controllers/appController.js:261 | that match is worth exactly 1.5 |
| `Duration.DecimalHourEntry` | server/controllers/appController.js:258-264 | "1.5h" adds 1.5 |
| `Duration.HoursAndMinutesEntry` | server/controllers/appController.js:258-264 | "3h 30m" adds 3: only the first number counts |
| `Duration.DayEntries` | server/controllers/appController.js:265-267 | "1d", "2d" and "1d 4h" each add exactly 8 |
| `Duration.OtherEntries` | server/controllers/appController.js:260-270 | "30m" adds 0 but is counted; "abc" is not counted |
| `ShiftClassifier.SomeKeyword` | server/controllers/appController.js:183-184 | true exactly when some keyword, lower-cased, occurs in the lower-cased text |
| `ShiftClassifier.Kept` | server/controllers/appController.js:181-186 | a shift is kept exactly when it is in the list and its display name or notes match; no more shifts than the input |
| `ShiftClassifier.KeptAppend` | server/controllers/appController.js:181-186 | the filter distributes over concatenation, so the kept shifts keep schedule order |
| `ShiftClassifier.ToLowerIdempotent` | server/controllers/appController.js:183 | lower-casing twice is lower-casing once |
| `ShiftClassifier.CaseInsensitive` | server/controllers/appController.js:183-184 | matching ignores the case of both the text and the keywords |
| `ShiftClassifier.MidNightIsRedundant` | server/controllers/appController.js:182 | "mid-night" adds nothing to the standard list beyond "mid-" |
| `ShiftClassifier.StandardExamples` | server/controllers/appController.js:181-186 | "Day Shift" is kept and "Training" is not |
| `ShiftClassifier.NoStandardKeywordInTraining` | server/controllers/appController.js:182-184 | "Training" contains no standard keyword |
| `ShiftClassifier.HolidayIsStandard` | server/controllers/appController.js:181-186 | "Holiday" is kept as a standard shift |
| `ShiftClassifier.ListsOverlap` | server/controllers/appController.js:406-411 | "Vacation day" is kept by both handlers |
| `Aggregation.EntryOf` | server/controllers/appController.js:218-232 | an entry exists exactly when `timeSpent` is non-empty and the start has a non-empty UTC date key; it carries both |
| `Aggregation.IssueWorklogs` | server/controllers/appController.js:217-218 | a worklog is flattened exactly when it belongs to one of the issues |
| `Aggregation.EntriesOf` | server/controllers/appController.js:217-234 | fails exactly when some worklog fails; otherwise one entry per worklog, in order |
| `Aggregation.TimesOn` | server/controllers/appController.js:239-247 | the texts of one date are non-empty exactly when the date occurs |
| `Aggregation.WorklogsGrouped` | server/controllers/appController.js:237-247 | the grouped keys are exactly the entries' dates, each with a non-empty list |
| `Aggregation.DayTotal` | server/controllers/appController.js:254-277 | the total is non-negative and the count is at most the number of texts |
| `Aggregation.ProjectUsers` | server/controllers/appController.js:211-213 | the assignees of every project that has a `users` list |
| `Aggregation.EveryDateGetsATotal` | server/controllers/appController.js:250-279 | every date with an entry gets a total, even a zero total, and no other date does |
| `Aggregation.DayTotalAppend` | server/controllers/appController.js:254-272 | totals and counts add up over any split of a day's entries |
| `Aggregation.DayTotalSingle` | server/controllers/appController.js:257-271 | one text contributes its hours with count 1, or nothing when it has no digit |
| `Aggregation.DayTotalIsSumOfEntries` | server/controllers/appController.js:254-277 | `totalSpentTime` is the sum of the entries' hours and `shiftcount` the number of entries with a digit |
| `Aggregation.GroupedAppend` | server/controllers/appController.js:239-247 | one more entry extends only its own date's list |
| `Aggregation.LastAssigneeWins` | server/controllers/appController.js:281-284 | `worklogsData[email]` is the record of the last assignee with that email, across all projects |
| `Aggregation.WorklogsDataKeys` | server/controllers/appController.js:211-287 | `worklogsData` has exactly the assignees' emails |
| `Aggregation.FailsIffSomeAssigneeFails` | server/controllers/appController.js:217-240 | the aggregation throws exactly when one assignee's worklogs do |
| `Aggregation.MissingTimeSpentFails` | server/controllers/appController.js:220-240 | a worklog without `timeSpent` makes the aggregation throw |
| `Aggregation.FlattenWorklogs` | server/controllers/appController.js:217-234 | the loop yields the assignee's entries, or the failure |
| `Aggregation.GroupByDate` | server/controllers/appController.js:237-247 | the loop builds `worklogsGrouped` |
| `Aggregation.SumDay` | server/controllers/appController.js:254-272 | the accumulators end at the day's total and count |
| `Aggregation.SumByDate` | server/controllers/appController.js:250-279 | the loop builds `worklogsTotalTime` |
| `Aggregation.AggregateWorklogs` | server/controllers/appController.js:211-287 | the loops build `worklogsData` for every project's assignees, or fail |
| `Aggregation.AssigneeRecord` | server/controllers/appController.js:217-284 | one assignee's record of daily totals, or the failure exactly when their worklogs fail |
| `Aggregation.AddAssignees` | server/controllers/appController.js:213-286 | one project's assignees are added in order to the data of those before them |
| `Validation.ShiftDate` | server/controllers/appController.js:327 | the shift's date key is a prefix of `startDateTime` without a `T`; it is absent exactly when `startDateTime` is |
| `Validation.ValidateAll` | server/controllers/appController.js:326-338 | fails exactly when a kept shift has no `startDateTime`; otherwise each shift is marked by the 7-hour test on its own date |
| `Validation.PlaceUsers` | server/controllers/appController.js:305-307 | each user of a group paired with the group's name, in order |
| `Validation.Placements` | server/controllers/appController.js:296-307 | exactly the (group name, user) pairs of the schedule |
| `Validation.ValidateAllAppend` | server/controllers/appController.js:326-338 | marking distributes over concatenation |
| `Validation.JoinIsReference` | server/controllers/appController.js:293-343 | the join has exactly the group names; under each, the emails placed there; under each email, the first display name and all kept shifts of those users in schedule order, each marked |
| `Validation.ValidatedIff` | server/controllers/appController.js:327-335 | `validated` holds exactly when the user's total for the text before the first `T` is at least 7 |
| `Validation.ShiftsAreKept` | server/controllers/appController.js:311-337 | a user's shifts are the kept shifts of all their placements under that name, in order |
| `Validation.EveryUserHasAnEntry` | server/controllers/appController.js:301-324 | every group name and every user under it gets an entry, even with no kept shift |
| `Validation.NoOtherEntries` | server/controllers/appController.js:296-324 | only the groups' names and their users' emails get entries |
| `Validation.NoWorklogsNothingValidated` | server/controllers/appController.js:331-335 | with no worklog totals no shift is validated |
| `Validation.JoinFailsIff` | server/controllers/appController.js:326-327 | the join throws exactly when a kept shift has no `startDateTime` |
| `Validation.UsersFailIff` | server/controllers/appController.js:305-339 | one group's users fail exactly when one of their kept shifts lacks `startDateTime` |
| `Validation.ThresholdExamples` | server/controllers/appController.js:331 | 7.0 hours validate, 6.5 do not, and neither does another user's total |
| `Validation.MarkShifts` | server/controllers/appController.js:326-338 | the loop marks the kept shifts as `ValidateAll` does |
| `Validation.JoinUser` | server/controllers/appController.js:305-339 | one user: filter, create the entry on first sight, append the marked shifts |
| `Validation.JoinUsers` | server/controllers/appController.js:305-340 | all users of one group, in order |
| `Validation.JoinGroup` | server/controllers/appController.js:295-341 | one group: its name entry on first sight, then its users, as the specification adds them |
| `Validation.JoinSchedule` | server/controllers/appController.js:293-343 | the loops build `validatedShiftsData`, or fail |
| `Reconciliation.StartKey` | server/controllers/appController.js:197-200 | the UTC key of a shift exists only when it has a `startDateTime` |
| `Reconciliation.FirstPassReadable` | server/controllers/appController.js:165-209 | a first pass that does not throw went through readable starts only |
| `Reconciliation.FirstPassSecuresJoin` | server/controllers/appController.js:165-209 | after a first pass that does not throw, the join cannot throw |
| `Reconciliation.UnreadableStartFails` | server/controllers/appController.js:196-202 | a kept shift with an unreadable start fails the request with 500 |
| `Reconciliation.GroupSlotsAreGroupNames` | server/controllers/appController.js:170-172 | the `{}` slots of the first pass are keyed by group names only |
| `Reconciliation.FirstPassSucceeds` | server/controllers/appController.js:165-209 | readable starts and no email with a kept shift equal to any group name are enough for the first pass to go through |
| `Reconciliation.FirstPassFailsIff` | server/controllers/appController.js:165-209 | the first pass throws exactly when some user with a kept shift has an unreadable start, or has an email whose key a group's `{}` took before any user with a kept shift did |
| `Reconciliation.FirstPassSlots` | server/controllers/appController.js:165-209 | after a first pass that goes through, the keys are the group names and the emails with a kept shift, and `{}` sits exactly under the names a group took first |
| `Reconciliation.UsersSlots` | server/controllers/appController.js:174-204 | users add only user slots and never change which keys hold `{}` |
| `Reconciliation.FirstPassUsersFailIff` | server/controllers/appController.js:174-204 | one group's users throw exactly when one of them fails on the slots they start from |
| `Reconciliation.UserBeforeGroupSucceeds` | server/controllers/appController.js:170-202 | a user who takes the key before the group of that name does not make the first pass throw |
| `Reconciliation.UserBeforeGroupExample` | server/controllers/appController.js:170-202 | user "ops@x" of group "a", followed by a group named "ops@x", goes through |
| `Reconciliation.OnlyFirstSnapshots` | server/controllers/appController.js:165-211 | only the first document of each query matters |
| `Reconciliation.EmptyScheduleFails` | server/controllers/appController.js:165 | no schedule snapshot gives 500 |
| `Reconciliation.MissingTimeSpentFailsRequest` | server/controllers/appController.js:220-240 | a worklog without `timeSpent` gives 500 |
| `Reconciliation.NoWorklogSnapshot` | server/controllers/appController.js:211 | without a worklog snapshot the request succeeds once the first pass does, and nothing is validated |
| `Reconciliation.ResponseIsJoin` | server/controllers/appController.js:163-350 | the response is 200 exactly when neither the first pass nor the aggregation throws; its body is then the join of the first snapshots |
| `Reconciliation.NameClashFails` | server/controllers/appController.js:170-202 | a user with a kept shift whose email names a group that came before every user with a kept shift and that email, their own group included, gives 500 |
| `Reconciliation.FirstPassUserStep` | server/controllers/appController.js:175-204 | one user of the first pass |
| `Reconciliation.FirstPassGroupStep` | server/controllers/appController.js:170-206 | one group of the first pass: its `{}` slot on first sight, then its users |
| `Reconciliation.FirstPassCheck` | server/controllers/appController.js:165-209 | the loops of the first pass, or the failure |
| `Reconciliation.ReconcileWeek` | server/controllers/appController.js:163-350 | the handler body for a keyword list |
| `Reconciliation.GetUsersWithLoggedShifts` | server/controllers/appController.js:130-352 | the window bounds it queries with, and the response for the standard keywords |
| `Reconciliation.BonusLoggedShifts` | server/controllers/appController.js:356-577 | the same with the bonus keywords |
| `WeekData.MarkComplete` | server/controllers/appController.js:1138-1141 | each issue is kept with `isComplete` set |
| `WeekData.UpdateIncompleteData` | server/controllers/appController.js:1131-1145 | each assignee is kept with all issues marked complete |
| `WeekData.UpdateCompletes` | server/controllers/appController.js:1121-1145 | after the update the week is complete |
| `WeekData.UpdateKeepsShape` | server/controllers/appController.js:1136-1142 | names, emails, issue ids and worklogs are unchanged |
| `WeekData.UpdateIdempotent` | server/controllers/appController.js:1131-1145 | updating twice is updating once |
| `WeekData.UpdateFixesExactlyComplete` | server/controllers/appController.js:1121-1145 | the update changes nothing exactly when the week is already complete |
| `WeekData.FilterWorklogs` | server/controllers/appController.js:1157-1160 | exactly the in-range worklogs |
| `WeekData.FilterIssues` | server/controllers/appController.js:1156-1165 | the kept issues are exactly the given issues with their in-range worklogs, when any remain; never more than were given |
| `WeekData.FilterWorklogsData` | server/controllers/appController.js:1153-1166 | the kept assignees are exactly the reshaped assignees with an issue left; never more than were given |
| `WeekData.NothingLeftEmpty` | server/controllers/appController.js:1149-1168 | no kept assignee is left without issues, and no kept issue without worklogs |
| `WeekData.FilterWorklogsKeepsAll` | server/controllers/appController.js:1157-1160 | worklogs that are all in range are kept unchanged |
| `WeekData.FilterIssuesKeepsAll` | server/controllers/appController.js:1156-1165 | issues whose worklogs are all in range, and not empty, are kept unchanged |
| `WeekData.FilterDataKeepsAll` | server/controllers/appController.js:1153-1166 | assignees whose issues all survive, and are not empty, are kept unchanged |
| `WeekData.FilterSound` | server/controllers/appController.js:1149-1168 | everything kept is in range and comes from the same assignee and issue |
| `WeekData.FilterComplete` | server/controllers/appController.js:1149-1168 | every in-range worklog survives under its assignee and issue |
| `WeekData.FilterIdempotent` | server/controllers/appController.js:1149-1168 | filtering twice is filtering once |
| `EmailPartition.Select` | server/controllers/appController.js:1011-1015 | a row is selected exactly when its email's presence on the other side is as required |
| `EmailPartition.Classification` | server/controllers/appController.js:1011-1015 | common means on both sides; one-sided means only on that side |
| `EmailPartition.Disjoint` | server/controllers/appController.js:1011-1015 | no email is on two of the three lists |
| `EmailPartition.SplitsShiftRows` | server/controllers/appController.js:1011-1013 | common and shifts-only split the shift rows as a multiset |
| `EmailPartition.SelectCounts` | server/controllers/appController.js:1011-1015 | a selected email keeps its multiplicity |
| `EmailPartition.CommonExtremes` | server/controllers/appController.js:1011 | all shift rows are common when every email has worklogs, and none when none has |
| `EmailPartition.AbsentEmailsMatch` | server/controllers/appController.js:1011-1015 | two absent emails compare equal |
| `TodayScan.DayStart` | server/controllers/appController.js:1030-1031 | UTC midnight of the current day, at most the current instant |
| `TodayScan.DayEnd` | server/controllers/appController.js:1033-1034 | the last millisecond of the current UTC day |
| `TodayScan.Flatten` | server/controllers/appController.js:1044-1047 | every user of every group |
| `TodayScan.Today` | server/controllers/appController.js:1046-1065 | exactly the users with a shift overlapping the day |
| `TodayScan.TodayConcat` | server/controllers/appController.js:1046-1065 | scanning distributes over concatenation |
| `TodayScan.PushedOncePerAppearance` | server/controllers/appController.js:1059-1060 | a user with a shift today is pushed once per appearance, and any other user never |
| `TodayScan.ResponseMembers` | server/controllers/appController.js:1043-1065 | a user is in the response exactly when listed in some group and has a shift overlapping today |
| `TodayScan.OpenShiftNeverCounts` | server/controllers/appController.js:1055 | a shift without an end never counts |
| `TodayScan.OvernightShiftCounts` | server/controllers/appController.js:1056-1057 | a shift from 23:00 yesterday to 01:00 today counts: the test is an overlap |
| `TodayScan.FindShiftToday` | server/controllers/appController.js:1052-1062 | the scan with `break` finds a shift exactly when the user works today |
| `TodayScan.ScanGroup` | server/controllers/appController.js:1047-1064 | one group's users who work today are pushed, in order |
| `TodayScan.ScanToday` | server/controllers/appController.js:1027-1068 | the pushed users are the specification's |
| `ShiftBuckets.DisplayNameOf` | server/controllers/appController.js:642-661 | a failed lookup leaves the user id as the name |
| `ShiftBuckets.EmailOf` | server/controllers/appController.js:643-662 | a failed lookup leaves the email null |
| `ShiftBuckets.GroupNameOf` | server/controllers/appController.js:675-687 | a failed lookup leaves the group id as the name |
| `ShiftBuckets.BucketsDescribe` | server/controllers/appController.js:665-704 | one group per group id met, named by its lookup; one user per user id met there, with its looked-up name and email and exactly its shifts of that group, in order |
| `ShiftBuckets.EveryShiftBucketed` | server/controllers/appController.js:666-703 | every fetched shift is pushed into its group's and user's bucket |
| `ShiftBuckets.ShiftsForMember` | server/controllers/appController.js:694-703 | a shift's copy is among its user's shifts in its group |
| `ShiftBuckets.FallbackNames` | server/controllers/appController.js:642-687 | with failed lookups the group is named by its id and the user by theirs, with no email |
| `ShiftBuckets.FetchProfiles` | server/controllers/appController.js:638-662 | a name and an email for exactly the user ids, each from its lookup |
| `ShiftBuckets.BucketShifts` | server/controllers/appController.js:665-704 | the loop builds the specification's `shiftsByGroup` |
| `ShiftBuckets.OrganiseShifts` | server/controllers/appController.js:638-704 | the lookups and the bucketing together meet the bucket description |
| `ProjectUsers.InWeek` | server/controllers/appController.js:811-814 | exactly the worklogs of the week, in order |
| `ProjectUsers.IssueObjectOf` | server/controllers/appController.js:803-832 | an issue contributes exactly when its worklogs were fetched and one falls in the week; only in-week worklogs are copied |
| `ProjectUsers.FindUser` | server/controllers/appController.js:842 | the first user with the email, or none when no user has it |
| `ProjectUsers.UsersOfDescribes` | server/controllers/appController.js:793-851 | one user per email, named after its first issue, holding all its contributing issues in order; the emails are exactly those of the contributing issues |
| `ProjectUsers.EveryIssueFiled` | server/controllers/appController.js:834-847 | every contributing issue is filed under its assignee's email |
| `ProjectUsers.SkippedIssue` | server/controllers/appController.js:817-850 | an issue whose fetch failed or with no worklog in the week changes nothing |
| `ProjectUsers.UnassignedAndEmaillessMerge` | server/controllers/appController.js:795-842 | an unassigned issue and one whose assignee has no email share a user |
| `ProjectUsers.CollectUsers` | server/controllers/appController.js:793-851 | the loop builds the specification's users, one per email |

## Left out

- Network calls: the Microsoft Graph token, shift, user and group requests,
  and the Jira project, search and worklog requests with their pagination.
  Their results are parameters. `ShiftBuckets` takes the lookups as
  functions and `ProjectUsers` takes an issue's fetched worklogs as a field.
- Database access: the `find`, `findOne` and `aggregate` queries and the
  saves. The documents the queries return are inputs.
- `Date` internals: parsing, time zones, `toISOString` and `getTimezoneOffset`.
  The calendar date of "now" is a `WeekWindow.Date`. `toISOString().split('T')[0]`
  is the function parameter `UtcDateKey`, and `new Date(text)` in the today scan
  is the parameter `instant`.
- `moment().isBetween` in `filterWorklogsData` is the predicate parameter `inRange`.
  `getIssues`' week test on `started` is the parameter `inWeek`.
- Floating point: hours are exact decimals (`real`), so rounding of sums
  such as 0.1 + 0.2 is not modelled.
- `toLowerCase` is modelled for ASCII letters only.
- Property order: `for…in` and `Object.values` are modelled as sequences in
  the order the engine yields. Keys that collide with `Object.prototype`
  members are not modelled.
- Missing arrays: the model's lists are always present, so a missing array
  reads as empty. In the source that holds where the code guards or loops
  with `for…in`: a missing `group.users` (lines 175 and 305), a missing
  `projectUser.users` (line 212, modelled as `Project.users: Option`), a
  missing `issue.worklogs` in the aggregation (line 218) and a missing
  `shifts` in the today scan (line 1049). It does not hold where the source
  calls a method on the array: a missing `user.shifts` (lines 181 and 311)
  or `user.issues` (line 217) throws there and gives 500, and a missing
  `assignee.issues` or `issue.worklogs` throws in the archived-week helpers
  (lines 1124, 1138, 1156-1157).
- The today scan takes `shiftsByWeek.data.users` as given. The documents
  `connectMS` stores key `data` by scheduling-group id and have no `users`
  field there, so for those documents the real scan finds no users.
- `Validation.MarkShifts`: the source sets `validated` on the stored shift
  object in place; the model returns a marked copy. Each shift is visited
  once per request, so the response is the same.
- `ShiftBuckets.EmailOf`: `null` (failed lookup) and `undefined` (no `mail`
  field) are both `None`, so the distinction between them in the JSON
  response is not modelled.
- Concurrency: `Promise.all` over projects in `getIssues` is out of scope.
  `ProjectUsers` models one project's loop, and the order projects land in
  the response is not modelled.
- The login, registration, profile and one-time-password handlers, the
  `fakegetUsersWithLoggedShifts` and `worklogs` stubs, `getShiftsByDate`,
  `fetchShiftsData`'s moment-based bucketing, and the client components are
  not part of this model.
