# DailyForge in Dafny

DailyForge is a personal productivity application. Its React client keeps
habits, expenses, notes, Eisenhower-quadrant tasks, to-do lists, a Pomodoro
timer and achievements. A small Django REST backend stores them per user and
handles sign-in. This project models the logic of that application in
Dafny and proves what the code promises about it.

The modules follow the program's files:

- `Common` (common.dfy): Option and sequence utilities shared by the rest
  (filter, count, sum, split, trim, decimal and integer text, sorting by key).
- `Dates` (dates.dfy): calendar days as integers (day 0 is 1970-01-01, a
  Thursday), weekday, days in a month, civil dates and `YYYY-MM-DD` keys.
- `Store` (store.dfy): the application context of `src/context/AppContext.jsx`.
  It is a class whose fields are the habit, expense and note lists and the
  four quadrant buckets, with the `*Remote` helpers, `markTaskComplete`,
  `moveTask`, the reload normalisers, `computeStreak` and `filterBySpan`. The
  server's reply to each call is a parameter: `None` means the call failed.
- `HabitGrid`, `HabitsView` (habit_grid.dfy, habits_view.dfy): the habit
  week and month windows, the due-day rule, the window resize, completion
  rates, navigation, the three-step confirmation and the habits page's
  aggregates.
- `NotesEditor` (notes_editor.dfy): the note editor's key handling, input
  rewrites, formatting insertion and the note list filter. Each is a
  function from (text, selection) to the new text and cursor.
- `Quadrants`, `Todo`, `Expenses`, `Achievements`, `Dashboard`, `Timer`: the
  derived views and small state machines of the feature pages.
- `Api` (api.dfy): URL building, CSRF cookie parsing and the request
  header, body and error decisions.
- `Routing` (routing.dfy): the hash-routing guard, the tab switch and the
  avatar initials of `src/App.jsx`.
- `Ledger`, `Auth`, `Records` (ledger.dfy, auth.dfy, records.dfy): the
  backend's habit toggle, per-user querysets and create guards, the
  register/login/logout/current-user views over a user table, and the model
  defaults, choices, uniqueness constraints, orderings and `__str__`.

Time is an integer count of milliseconds since the epoch, and local time is
taken to be UTC. Amounts are whole cents. Functions the program calls but
does not define, such as date parsing, number parsing, password hashing,
locale formatting and `decodeURIComponent`, are parameters. "Now" and
random numbers are parameters too.

## Model

| member | source | states |
|---|---|---|
| Store.QuadrantName | src/context/AppContext.jsx:21-26 | the four bucket keys are distinct: each key reads back as its own quadrant |
| Store.QuadrantNameInjective | src/context/AppContext.jsx:282-287 | two quadrants with the same key are the same quadrant, so grouping by key cannot merge buckets |
| Store.Buckets.With | src/context/AppContext.jsx:89-93 | replacing one bucket changes that bucket only and adjusts the quadrant task total by the size difference |
| Store.FindTask | src/context/AppContext.jsx:73 | findIndex: the index of the first task with the id, or none exactly when no task has it |
| Store.ReplaceTask | src/context/AppContext.jsx:77 | every task with the id becomes the new task, all others stay, length kept |
| Store.RemoveTask | src/context/AppContext.jsx:539-542 | the kept tasks are exactly those whose id differs |
| Store.RemoveTaskCount | src/context/AppContext.jsx:539-542 | removing an id shortens the bucket by the number of tasks that carry it |
| Store.CountUniqueFound | src/context/AppContext.jsx:73-77 | with unique ids a found id occurs exactly once |
| Store.CompleteToggled | src/context/AppContext.jsx:70-81 | an unknown id leaves the bucket unchanged; other tasks keep their place and value |
| Store.CompleteToggledFlips | src/context/AppContext.jsx:74-77 | with unique ids, exactly the marked task has its completed flag negated |
| Store.CompleteToggledTwice | src/context/AppContext.jsx:70-81 | with unique ids, marking the same task twice restores the bucket |
| Store.Moved | src/context/AppContext.jsx:84-97 | no change when the quadrant task is missing or the quadrants are equal; otherwise the quadrant task leaves the source bucket and joins the end of the target with its quadrant set; other buckets untouched |
| Store.MovedTotal | src/context/AppContext.jsx:84-97 | with unique ids in the source bucket, a move keeps the number of tasks |
| Store.BucketOf | src/context/AppContext.jsx:290-291 | a missing quadrant counts as urgent_important; a key that is not one of the four is dropped |
| Store.GroupedBucket | src/context/AppContext.jsx:282-304 | each bucket holds, in input order, the normalised documents whose key names it |
| Store.GroupedStep | src/context/AppContext.jsx:289-304 | one more document adds at most itself to a bucket |
| Store.GroupedTotal | src/context/AppContext.jsx:282-304 | grouping keeps exactly the documents with a recognised quadrant |
| Store.TrailingRun | src/context/AppContext.jsx:35-41 | the streak is the length of the final run of true entries, bounded by the log length, with a false entry (or the start) right before it |
| Store.TrailingRunUnique | src/context/AppContext.jsx:35-41 | the streak is the only count with those properties |
| Store.ComputeStreak | src/context/AppContext.jsx:35-41 | the backward loop with its early break returns the trailing run |
| Store.AllFalse | src/context/AppContext.jsx:207 | `Array(n).fill(false)` has n entries, all false |
| Store.NormalizeHabit | src/context/AppContext.jsx:205-220 | reload: id and name kept, frequency `frequency || 1`, an empty log becomes seven false days, the date log or an empty one, the creation date or today, and the streak matches the log |
| Store.CreatedHabit | src/context/AppContext.jsx:325-332 | a created habit starts with seven false days, no streak, and the server's frequency or else the requested one |
| Store.ArrayIndex | src/context/AppContext.jsx:357-360 | a non-negative number addresses that array element; a negative one addresses none |
| Store.SetAt | src/context/AppContext.jsx:358-360 | assigning past the end grows the array, and the holes read as false; other entries keep their value |
| Store.ToggledHabit | src/context/AppContext.jsx:349-366 | a date key sets that date in the date log only; a number sets that entry of the positional log; identity fields kept; the streak is recomputed from the positional log |
| Store.DateToggleKeepsStreakBase | src/context/AppContext.jsx:353-355 | a date toggle leaves the streak as the trailing run of the unchanged positional log |
| Store.ToggleLastExtendsStreak | src/context/AppContext.jsx:357-363 | ticking the last entry gives one more than the streak of the log before it |
| Store.PatchedHabit | src/context/AppContext.jsx:427 | an update keeps id and date log, takes the patch's name, frequency, creation date and log, and recomputes the streak from the sent log |
| Store.StoredStreaksConsistent | src/context/AppContext.jsx:205-220 | every way a habit enters or changes in the store leaves a stored streak equal to its trailing run |
| Store.ExpenseCategoryOf | src/context/AppContext.jsx:231 | `title || category || 'Other'`: a title wins, then a non-zero category id, else Other, and only those cases give Other |
| Store.NormalizeExpense | src/context/AppContext.jsx:229-236 | reload keeps id, amount, description and flag, picks the category as above, keeps a present date and fills a missing one with today, and carries no time |
| Store.ReplaceHabits | src/context/AppContext.jsx:370 | `prev.map(updater)`: habits with the id are rewritten, the rest kept, length kept |
| Store.RemoveHabit | src/context/AppContext.jsx:390 | the kept habits are exactly those whose id differs |
| Store.ReplaceExpenses | src/context/AppContext.jsx:416 | expenses with the id are replaced, the rest kept |
| Store.RemoveExpense | src/context/AppContext.jsx:409 | the kept expenses are exactly those whose id differs |
| Store.ReplaceNotes | src/context/AppContext.jsx:449 | notes with the id are replaced, the rest kept |
| Store.RemoveNote | src/context/AppContext.jsx:458 | the kept notes are exactly those whose id differs |
| Store.MergeTaskReply | src/context/AppContext.jsx:517-524 | the reply's text, quadrant, deadline, time and completed flag replace the quadrant task's; id and creation time stay |
| Store.MergeTaskInBucket | src/context/AppContext.jsx:515-527 | only the tasks with the id in the named bucket are merged |
| Store.AppStore.constructor | src/context/AppContext.jsx:20-29 | the store starts with empty collections and four empty buckets |
| Store.AppStore.MarkTaskComplete | src/context/AppContext.jsx:70-81 | the bucket becomes CompleteToggled; an unknown id sends nothing; the quadrant task sent for saving is the marked task with its flag negated |
| Store.AppStore.MoveTask | src/context/AppContext.jsx:84-97 | the buckets become Moved; a task is sent for saving exactly when it was found and the quadrants differ, carrying the target quadrant |
| Store.AppStore.LoadQuadrantTasks | src/context/AppContext.jsx:274-309 | a failed load keeps the buckets; a successful one replaces them by the grouping, built one document at a time |
| Store.AppStore.ReloadAll | src/context/AppContext.jsx:188-251 | each collection whose request succeeded is replaced by its normalised documents, the others stay, the quadrant buckets are untouched |
| Store.AppStore.AddHabitRemote | src/context/AppContext.jsx:316-344 | a failed request changes nothing and returns none; a reply appends the created habit, which is returned |
| Store.AppStore.ToggleHabitRemote | src/context/AppContext.jsx:346-387 | the optimistic update applies ToggledHabit to every habit with the id, whatever the request's outcome |
| Store.AppStore.DeleteHabitRemote | src/context/AppContext.jsx:389-392 | the habit is removed before the request and never restored |
| Store.AppStore.UpdateHabitRemote | src/context/AppContext.jsx:424-433 | the patch is merged only after the server accepted it |
| Store.AppStore.AddExpenseRemote | src/context/AppContext.jsx:394-406 | on success the expense is appended with the server's id and, when given, its date; on failure nothing changes |
| Store.AppStore.DeleteExpenseRemote | src/context/AppContext.jsx:408-411 | optimistic removal of every expense with the id |
| Store.AppStore.UpdateExpenseRemote | src/context/AppContext.jsx:413-422 | on success the payload replaces the expense and the id becomes the server's; on failure nothing changes |
| Store.AppStore.AddNoteRemote | src/context/AppContext.jsx:435-444 | the created note is appended and returned; a failure changes nothing |
| Store.AppStore.UpdateNoteRemote | src/context/AppContext.jsx:446-455 | the payload replaces the note only after the server accepted it |
| Store.AppStore.DeleteNoteRemote | src/context/AppContext.jsx:457-460 | optimistic removal of every note with the id |
| Store.AppStore.AddTaskRemote | src/context/AppContext.jsx:475-504 | the created task joins the end of the bucket the reply names and the total grows by one; a failure changes nothing |
| Store.AppStore.UpdateTaskRemote | src/context/AppContext.jsx:506-535 | the reply is merged into the named bucket, whatever quadrant the reply gives, and the total is kept |
| Store.AppStore.DeleteTaskRemote | src/context/AppContext.jsx:537-547 | optimistic removal from the named bucket; the other buckets are untouched |
| Store.FilterBySpanAsWritten | src/context/AppContext.jsx:44-67 | the span filter as written keeps a sub-multiset of the items and all of them for an unknown span |
| Store.SundayMidnightExcludedAsWritten | src/context/AppContext.jsx:46-54 | as written, an item dated at midnight of this week's Sunday is dropped whenever the current time is past midnight |
| Store.SundayMidnightExample | src/context/AppContext.jsx:46-54 | 1970-01-04 (a Sunday) at noon drops that Sunday's items |
| Store.FilterBySpan | src/context/AppContext.jsx:44-67 | intended: the order-preserving subsequence of the items dated in the current Sunday-to-Saturday week, month or year, each in-span item kept and no other; an unknown span keeps everything |
| Store.FilterBySpanCounts | src/context/AppContext.jsx:44-67 | an item of the span is kept as many times as it occurs, an item outside it not at all |
| Store.InSpanWeekDays | src/context/AppContext.jsx:46-50 | the week is the seven calendar days from this Sunday to Saturday |
| Store.InSpanAgreesOutsideWeek | src/context/AppContext.jsx:55-65 | the corrected test agrees with the code for the month and year spans |
| Dates.DaysInMonth | src/features/habits/HabitGrid.jsx:29 | `new Date(year, month + 1, 0).getDate()`: 28 to 31 days, 29 exactly for February of a leap year, 30 exactly for April, June, September and November |
| Dates.Weekday | src/features/habits/HabitGrid.jsx:12 | `getDay()` is in 0..6 |
| Dates.WeekdayNext | src/features/habits/HabitGrid.jsx:12-16 | consecutive days have consecutive weekdays, Saturday wrapping to Sunday |
| Dates.WeekStart | src/features/habits/HabitGrid.jsx:12-16 | the start of a day's week is a Sunday at most six days before it |
| Dates.WeekStartUnique | src/features/habits/HabitGrid.jsx:12-16 | any Sunday within six days before a day is the start of its week |
| Dates.MonthShift | src/features/habits/HabitGrid.jsx:26-28 | moving by a month offset gives a month in 1..12 and shifts the month count by exactly the offset |
| Dates.MonthShiftZero | src/features/habits/HabitGrid.jsx:26-28 | offset 0 is the current month |
| Dates.MonthShiftBackFromJanuary | src/features/habits/HabitGrid.jsx:26-28 | one month back from January is December of the previous year |
| Dates.DaysFromCivilNextDay | src/features/habits/HabitGrid.jsx:31-32 | within a month the next day of the month is the next day number |
| Dates.PadInt2 | src/features/achievements/Achievements.jsx:10-11 | `String(n).padStart(2, '0')` of a non-negative number is at least two digits that read back as n |
| Dates.SplitDateKey | src/features/achievements/Achievements.jsx:7-13 | a key splits on '-' into its year, month and day pieces |
| Dates.ParseDateKeyRoundTrip | src/features/achievements/Achievements.jsx:7-13 | a date with a non-negative year and positive month and day reads back from its key |
| Dates.DateKeyInjective | src/features/achievements/Achievements.jsx:7-13 | distinct dates have distinct keys |
| Dates.Pad2TwoDigits | src/features/habits/HabitGrid.jsx:34-35 | a month or day below 100 is padded to exactly two digits |
| Dates.DateKeyLayout | src/features/habits/HabitGrid.jsx:553 | a key is the year, '-', two month digits, '-', two day digits |
| Dates.EpochDay | src/features/habits/HabitGrid.jsx:217 | the millisecond clock starts at 1970-01-01 |
| Dates.EpochDate | src/features/habits/HabitGrid.jsx:217 | day 0 is 1970-01-01 |
| Dates.EpochWeekday | src/features/habits/HabitGrid.jsx:12 | day 0 is a Thursday |
| Dates.JsRem | src/features/habits/HabitGrid.jsx:219 | JavaScript's `%`: for a non-negative dividend the remainder is non-negative and below the divisor; for a negative dividend it is not positive |
| Dates.JsRemZeroIffDivides | src/features/habits/HabitGrid.jsx:219 | `daysDiff % frequency === 0` holds exactly when the frequency divides the difference, negative differences included |
| Dates.FloorDiv | src/features/habits/HabitGrid.jsx:217 | `Math.floor(a / b)` is the largest q with q·b ≤ a |
| Dates.CeilDiv | src/features/tasks/Quadrants.jsx:156 | `Math.ceil(a / b)` is the smallest q with q·b ≥ a |
| HabitGrid.WeekWindowStart | src/features/habits/HabitGrid.jsx:10-14 | the shown week starts on the Sunday of the week holding today shifted by whole weeks |
| HabitGrid.MonthWindow | src/features/habits/HabitGrid.jsx:26-28 | the shown month is today's month shifted by the offset, always a month in 1..12 |
| HabitGrid.Keys | src/features/habits/HabitGrid.jsx:16-23 | n keys of consecutive days from the first |
| HabitGrid.WeekWindowDays | src/features/habits/HabitGrid.jsx:8-23 | the week window holds the keys of the seven days from its Sunday |
| HabitGrid.KeysAt | src/features/habits/HabitGrid.jsx:16-23 | the i-th key is the key of the i-th day after the first |
| HabitGrid.MonthWindowDays | src/features/habits/HabitGrid.jsx:24-37 | the month window holds one key per day of the month, from the 1st |
| HabitGrid.GetDaysArray | src/features/habits/HabitGrid.jsx:5-40 | getDaysArray yields the week or month window, and nothing for any other span |
| HabitGrid.PushKeys | src/features/habits/HabitGrid.jsx:16-23 | the push loop yields the keys of n consecutive days |
| HabitGrid.WeekWindowWeekday | src/features/habits/HabitGrid.jsx:12-18 | the i-th day of the week window is weekday i, Sunday first |
| HabitGrid.WeekWindowHoldsDay | src/features/habits/HabitGrid.jsx:10-18 | the shifted day itself sits in the window at the position of its weekday |
| HabitGrid.NextWeekWindow | src/features/habits/HabitGrid.jsx:11 | one week forward shifts the whole window by seven days |
| HabitGrid.MonthWindowKeys | src/features/habits/HabitGrid.jsx:31-37 | the month keys are distinct and each reads back as its own date |
| HabitGrid.MonthWindowOffsets | src/features/habits/HabitGrid.jsx:26 | offset 0 is this month; one back from January is December of the previous year |
| HabitGrid.CivilMonthInRange | src/features/habits/HabitGrid.jsx:28 | `getMonth() + 1` is in 1..12 |
| HabitGrid.IsDueOnDays | src/features/habits/HabitGrid.jsx:534-544 | for date-only keys a day is due exactly when its distance in days from the creation date is a multiple of the frequency, before the creation date too |
| HabitGrid.IsDueWithoutCreation | src/features/habits/HabitGrid.jsx:538 | a habit without a creation date is due on every valid day |
| HabitGrid.DueDaysPeriodic | src/features/habits/HabitGrid.jsx:540-543 | due days repeat every `frequency` days |
| HabitGrid.Resized | src/features/habits/HabitGrid.jsx:513-531 | the log cut or padded with false to the window length; the kept entries are unchanged |
| HabitGrid.ResizedIdempotent | src/features/habits/HabitGrid.jsx:511-532 | resizing twice to the same length is resizing once |
| HabitGrid.ResizedGrowShrink | src/features/habits/HabitGrid.jsx:519-526 | growing then shrinking back recovers the log |
| HabitGrid.ResizeCompleted | src/features/habits/HabitGrid.jsx:519-526 | the push loop and the length cut give Resized |
| HabitGrid.ResizedHabit | src/features/habits/HabitGrid.jsx:528 | a resized habit's log has the window's length |
| HabitGrid.ResizeEffect | src/features/habits/HabitGrid.jsx:511-532 | every habit's log takes the window length and nothing else in the store changes; the stored streak is not recomputed |
| HabitGrid.NonGridSpanEmptiesLogs | src/features/habits/HabitGrid.jsx:483 | while the shared span is neither week nor month, the window is empty and the resize empties every log |
| HabitGrid.DueCount | src/features/habits/HabitGrid.jsx:581-583 | the due days of the window are at most its days |
| HabitGrid.DoneDueCount | src/features/habits/HabitGrid.jsx:584-586 | the done due days are at most the due days |
| HabitGrid.RoundPercent | src/features/habits/HabitGrid.jsx:590 | `Math.round(c / d * 100)` computed exactly: in 0..100, 0 for none, 100 for all, and within half a point of 100c/d |
| HabitGrid.PercentBounds | src/features/habits/HabitGrid.jsx:590 | the rounding formula stays within 0..100 and within half a point |
| HabitGrid.CompletionRateOf | src/features/habits/HabitGrid.jsx:576-591 | the rate is in 0..100, 0 when no day is due, and 100 when some day is due and every due day is done |
| HabitGrid.GetCompletionRate | src/features/habits/HabitGrid.jsx:576-591 | the single counting pass returns CompletionRateOf |
| HabitGrid.DailyAllDue | src/features/habits/HabitGrid.jsx:535 | for a daily habit every day of the window is due |
| HabitGrid.NavigationLimits | src/features/habits/HabitGrid.jsx:508-509 | within the reachable offsets, forward is disabled exactly at offset 0 and backward exactly at 52 weeks or 24 months back |
| HabitGrid.PeriodNav.constructor | src/context/AppContext.jsx:30-33 | the shared span starts as month with both offsets 0 |
| HabitGrid.PeriodNav.ShowWeek | src/features/habits/HabitGrid.jsx:661-669 | Week View shows the current week and keeps the month offset |
| HabitGrid.PeriodNav.ShowMonth | src/features/habits/HabitGrid.jsx:670-678 | Month View shows the current month and keeps the week offset |
| HabitGrid.PeriodNav.SetSpan | src/features/habits/HabitGrid.jsx:478 | another view's span change keeps both offsets |
| HabitGrid.PeriodNav.Previous | src/features/habits/HabitGrid.jsx:685-695 | an enabled ← moves the shown span's offset back by one; a disabled one does nothing; offsets stay reachable |
| HabitGrid.PeriodNav.Next | src/features/habits/HabitGrid.jsx:699-709 | an enabled → moves the shown span's offset forward by one; a disabled one does nothing; offsets stay reachable |
| HabitGrid.CurrentPeriodLabel | src/features/habits/HabitGrid.jsx:486-506 | This/Last Week exactly at week offsets 0 and -1, This/Last Month at month offsets 0 and -1; otherwise the range of the shown week or the shown month |
| HabitGrid.WeekRangeLabelMatchesWindow | src/features/habits/HabitGrid.jsx:489-499 | a week range label names the first and last day of the shown window |
| HabitGrid.AddHabitName | src/features/habits/HabitGrid.jsx:548-559 | a blank name is ignored; any other is sent as typed |
| HabitGrid.ChangeFrequency | src/features/habits/HabitGrid.jsx:567-574 | an empty answer cancels; an answer that is not a decimal integer or is below 1 is rejected; otherwise the habit is sent with the parsed frequency and its other fields |
| HabitGrid.ChangeFrequencyOfNumber | src/features/habits/HabitGrid.jsx:570-573 | typing a positive number sends exactly that frequency |
| HabitGrid.ChangeFrequencyRejectsNonPositive | src/features/habits/HabitGrid.jsx:571 | typing zero or a negative number is refused |
| HabitGrid.FrequencyLabel | src/features/habits/HabitGrid.jsx:593-599 | 'Daily' exactly for 1, 'Weekly' exactly for 7, otherwise 'Every n days'; the cases written out for 2 and 3 agree with the general one |
| HabitGrid.IndexOf | src/features/habits/HabitGrid.jsx:604-607 | indexOf: the first position of the key, or -1 exactly when it is absent |
| HabitGrid.LoggedPrefix | src/features/habits/HabitGrid.jsx:609-619 | the habits after the first i toggles of the action, length kept |
| HabitGrid.LoggedPrefixAt | src/features/habits/HabitGrid.jsx:609-619 | with unique ids, the action sets today's position on exactly the habits that are due and not yet done, and leaves every other habit as it was |
| HabitGrid.LogAllMarksEligible | src/features/habits/HabitGrid.jsx:612-618 | every habit that was due and not done ends with today's position done |
| HabitGrid.LogAllDueHabits | src/features/habits/HabitGrid.jsx:601-620 | today's position is the index of the UTC date key in the local current week; the store ends as LoggedPrefix of the snapshot, unchanged when the key is not in the week |
| HabitGrid.NothingEligible | src/features/habits/HabitGrid.jsx:611 | when today is not in the week nothing is logged |
| HabitGrid.AuthChallenge.constructor | src/features/habits/HabitGrid.jsx:43-52 | the challenge starts at step 1 with a countdown of 5, empty inputs, the sum of the two numbers and the exact sentence to type |
| HabitGrid.AuthChallenge.TypeAnswer | src/features/habits/HabitGrid.jsx:44 | typing the sum changes only the answer |
| HabitGrid.AuthChallenge.TypeText | src/features/habits/HabitGrid.jsx:45 | typing the sentence changes only the text |
| HabitGrid.AuthChallenge.SubmitMath | src/features/habits/HabitGrid.jsx:61-69 | the answer is cleared either way; step 2 is reached exactly when it parses to the sum; otherwise an alert |
| HabitGrid.AuthChallenge.SubmitText | src/features/habits/HabitGrid.jsx:71-78 | step 3 is reached exactly when the text matches; a wrong text is cleared with an alert |
| HabitGrid.AuthChallenge.Tick | src/features/habits/HabitGrid.jsx:54-59 | in step 3 each second lowers a positive countdown by one; elsewhere nothing changes |
| HabitGrid.AuthChallenge.FinalConfirm | src/features/habits/HabitGrid.jsx:80-84 | the confirmation is accepted exactly when the countdown is over |
| HabitGrid.LogTodayModal.constructor | src/features/habits/HabitGrid.jsx:208 | no challenge is open |
| HabitGrid.LogTodayModal.HandleToggle | src/features/habits/HabitGrid.jsx:234-249 | refused exactly when the UTC date is not in the local week, or the habit is not due; the challenge opens exactly for a due habit not yet done, remembering its id and position |
| HabitGrid.LogTodayModal.HandleAuthConfirm | src/features/habits/HabitGrid.jsx:251-258 | a pending habit is logged for the UTC date by key and the challenge closes; with none pending nothing changes |
| HabitGrid.ConfirmMarksDate | src/features/habits/HabitGrid.jsx:255 | the confirmation marks the date done and leaves the positional log alone |
| HabitGrid.DueHabits | src/features/habits/HabitGrid.jsx:260 | exactly the habits due today, each drawn from the store and every due habit listed |
| HabitGrid.CompletedToday | src/features/habits/HabitGrid.jsx:261 | exactly the habits both due and done today, in the store's order, no longer than the due list |
| HabitsView.ShownDays | src/features/habits/Habits.jsx:47 | the panel shows the week window for the week span and the month window for every other span |
| HabitsView.GetDaysArray | src/features/habits/Habits.jsx:12-45 | the panel's own getDaysArray yields the week window for 'week' and the month window otherwise, where the grid's yields nothing |
| HabitsView.ShownDaysAreGridWindow | src/features/habits/Habits.jsx:12-45 | the panel shows seven days for a week and one day per day of the month otherwise |
| HabitsView.CompletedArray | src/features/habits/Habits.jsx:48 | one entry per shown day, true exactly when the date log marks that day done |
| HabitsView.CompletedArraySnoc | src/features/habits/Habits.jsx:48 | one more day adds one entry at the end |
| HabitsView.StreakOf | src/features/habits/Habits.jsx:61-69 | a habit's streak is the number of final shown days all done, stopped by the last day not done |
| HabitsView.HabitsWithStreaks | src/features/habits/Habits.jsx:60-71 | every habit, in order, with its streak over the shown days, computed by the backward loop |
| HabitsView.Streaks | src/features/habits/Habits.jsx:74 | the streaks of the habits in habit order |
| HabitsView.MaxOf | src/features/habits/Habits.jsx:73-75 | `Math.max` of the streaks: at least each of them and one of them; 0 for no habits |
| HabitsView.SumAtMost | src/features/habits/Habits.jsx:78 | streaks each at most m sum to at most n·m |
| HabitsView.RoundedMean | src/features/habits/Habits.jsx:77-79 | `Math.round(total / n)`: within half of total/n, halves rounded up; 0 for no habits |
| HabitsView.LongestStreak | src/features/habits/Habits.jsx:73-75 | the longest streak is at least every habit's streak, is one of them, is 0 for no habits and at most the number of shown days |
| HabitsView.AverageStreak | src/features/habits/Habits.jsx:77-79 | the average streak is 0 for no habits |
| HabitsView.AverageAtMostLongest | src/features/habits/Habits.jsx:73-79 | the rounded average never exceeds the longest streak |
| HabitsView.MeanAtMost | src/features/habits/Habits.jsx:78 | a total at most n·m has a rounded mean at most m |
| HabitsView.AverageOfEqualStreaks | src/features/habits/Habits.jsx:77-79 | when every habit has the same streak, that is the average |
| HabitsView.MeanOfEqual | src/features/habits/Habits.jsx:78 | the rounded mean of n equal values is that value |
| HabitsView.SumOfEqual | src/features/habits/Habits.jsx:78 | n equal values sum to n times the value |
| HabitsView.CountTrue | src/features/habits/Habits.jsx:82 | `filter(Boolean).length` is at most the length |
| HabitsView.DoneDays | src/features/habits/Habits.jsx:215-217 | completedDays is at most totalDays, and equal exactly when every shown day is done |
| HabitsView.AllTrueIffCountFull | src/features/habits/Habits.jsx:216 | the count of true entries is the length exactly when all entries are true |
| HabitsView.DoneDaysSnoc | src/features/habits/Habits.jsx:82 | one more shown day adds one completion exactly when it is done |
| HabitsView.TotalCompletions | src/features/habits/Habits.jsx:81-84 | the total is at most habits × shown days |
| HabitsView.DoneHabits | src/features/habits/Habits.jsx:89-92 | the habits done on a day are at most the habits |
| HabitsView.Trend | src/features/habits/Habits.jsx:86-94 | empty for no habits; otherwise one point per shown day, numbered from 1, counting the habits done that day |
| HabitsView.TrendSumIsColumnSum | src/features/habits/Habits.jsx:86-94 | the trend's completions sum to the per-day counts summed |
| HabitsView.ColumnSumAddHabit | src/features/habits/Habits.jsx:89-92 | one more habit adds its completed days to the per-day counts |
| HabitsView.ColumnSumIsTotal | src/features/habits/Habits.jsx:81-94 | summing by day and summing by habit give the same count |
| HabitsView.ColumnSumOfNone | src/features/habits/Habits.jsx:89-92 | no habits, no completions on any day |
| HabitsView.TrendAddsUpToTotal | src/features/habits/Habits.jsx:81-94 | the trend's daily completions add up to the total completions |
| Dashboard.TasksAdded | src/features/dashboard/Dashboard.jsx:44 | the tasks-added tile counts the tasks of all four quadrants |
| Dashboard.TasksAddedAfterMove | src/features/dashboard/Dashboard.jsx:44 | moving a task between quadrants leaves the count unchanged |
| Dashboard.TasksAddedAfterLoad | src/features/dashboard/Dashboard.jsx:44 | after a load the count is the number of documents whose quadrant is recognised, so never more than the documents |
| Dashboard.SignedSumSplits | src/features/dashboard/Dashboard.jsx:45 | the signed sum of amounts is income less spending |
| Dashboard.ThisPeriodIsIncomeLessSpending | src/features/dashboard/Dashboard.jsx:43-45 | the period figure is the span's income less its spending, and so never more than the income |
| Dashboard.LargestAt | src/features/dashboard/Dashboard.jsx:48 | the reduce ends on an expense of the largest size, and on the last such one |
| Dashboard.MostExpensiveCategory | src/features/dashboard/Dashboard.jsx:48 | no category exactly when the span has no expenses; otherwise the category of an expense of the span at least as large as every other |
| Dashboard.TieGoesToLater | src/features/dashboard/Dashboard.jsx:48 | of two equally large expenses the second is shown |
| Dashboard.LongestHabitStreak | src/features/dashboard/Dashboard.jsx:49 | the longest-streak tile is at least every habit's stored streak (0 when absent), is one of them, and is 0 for no habits |
| Dashboard.StoredStreaks | src/context/AppContext.jsx:122 | one streak per habit: the stored one, else the habit's trailing run |
| Dashboard.OverallAvgStreak | src/context/AppContext.jsx:122 | the average tile is within half of the mean streak, halves up; 0 for no habits |
| Dashboard.AvgStreakAtMostLongest | src/features/dashboard/Dashboard.jsx:47-49 | when habits without a stored streak have no trailing run, the average tile never exceeds the longest-streak tile |
| Dashboard.FallbackCategories | src/features/dashboard/Dashboard.jsx:52-54 | grey bars with no budget, their names distinct |
| Dashboard.FallbackHasBar | src/features/dashboard/Dashboard.jsx:52-54 | every expense of the span has a fallback bar for its category |
| Dashboard.BarHasExpense | src/features/dashboard/Dashboard.jsx:52-54 | every fallback bar names the category of an expense of the span |
| Dashboard.ChartCategories | src/features/dashboard/Dashboard.jsx:52-54 | the finance categories when there are any, else the fallback bars of the span's expenses |
| Dashboard.BarAmount | src/features/dashboard/Dashboard.jsx:56-59 | a bar's amount is never negative |
| Dashboard.ChartData | src/features/dashboard/Dashboard.jsx:56-59 | one bar per chart category, in order, whose amount is the summed size of the span's expenses filed exactly under that category's name, never negative |
| Dashboard.FallbackBarsAddUp | src/features/dashboard/Dashboard.jsx:52-59 | with fallback bars every expense lands in exactly one bar, so the bars add up to the span's total size |
| Dashboard.WeightInIsSumWhere | src/features/dashboard/Dashboard.jsx:56-59 | a bar's weight summed over the span equals the per-category sum |
| Dashboard.BarAmountIsSumWhere | src/features/dashboard/Dashboard.jsx:56-59 | a bar's amount is the per-category sum the grouping lemma adds up |
| Dashboard.TodaysHabits | src/features/dashboard/Dashboard.jsx:190-193 | the first three habits (fewer when there are fewer), each with its name, its day count and its done count `completed.filter(Boolean).length`, at most the day count |
| Api.BuildUrl | src/services/api.js:3-6 | the URL is the `/api` prefix followed by the endpoint with exactly one leading slash |
| Api.BuildUrlSameIff | src/services/api.js:6 | two endpoints reach the same URL exactly when they agree once a leading slash is added |
| Api.BuildUrlIgnoresLeadingSlash | src/services/api.js:6 | writing the leading slash or leaving it out reaches the same URL |
| Api.BuildUrlOfEmpty | src/services/api.js:6 | the empty endpoint is `/api/` |
| Api.FirstTokenPiece | src/services/api.js:14-20 | the first trimmed piece that starts with `csrftoken=`, none before it does; none when no piece does |
| Api.GetCSRFToken | src/services/api.js:9-24 | nothing for an empty cookie string; otherwise the decoded value of the first piece naming the token, left at the first match |
| Api.LongerNameIsNotToken | src/services/api.js:16 | a cookie whose name only begins with `csrftoken` is not the token |
| Api.SoleTokenCookie | src/services/api.js:9-24 | a cookie string holding just `csrftoken=v` yields the decoded v |
| Api.BuildConfig | src/services/api.js:45-67 | JSON content type and included credentials always; the CSRF header exactly for methods other than GET/HEAD with a non-empty token; a body exactly when data is given |
| Api.ReadsCarryNoToken | src/services/api.js:56 | GET and HEAD never carry the token |
| Api.ErrorMessage | src/services/api.js:88 | never empty: the detail when there is one, else the error, else `HTTP ` followed by digits that read back as the status |
| Api.Settle | src/services/api.js:82-90 | an ok response returns its body; any other raises with the non-empty error message |
| Routing.Router.constructor | src/App.jsx:15 | the first render is on the dashboard tab, whatever the address says |
| Routing.Router.Effect | src/App.jsx:28-51 | nothing while authentication loads; signed out only the auth pages, register exactly when asked for; signed in an auth page leads to the dashboard, a menu id becomes the tab, anything else keeps the tab; afterwards the fragment names the tab |
| Routing.Router.OnHashChange | src/App.jsx:53-70 | installed only once signed in: an auth page leads to the dashboard (the one write), a menu id becomes the tab, and an empty or unknown fragment changes nothing |
| Routing.Router.SetActiveTab | src/App.jsx:74-77 | the tab and the fragment become the id; the fragment is written exactly when it differed |
| Routing.Route | src/App.jsx:35-48 | signed out always an auth page; signed in a menu id, or none exactly when the fragment is empty or unknown |
| Routing.RouteIdempotent | src/App.jsx:42-48 | routing an already routed page changes nothing |
| Routing.FirstLetters | src/App.jsx:141 | the first letter of each non-empty word, in order, one per such word; empty exactly when every word is empty |
| Routing.Initials | src/App.jsx:141 | the first letters of the first two non-empty space-separated words (of 'G' for a missing name), upper-cased |
| Routing.InitialsOfOneWord | src/App.jsx:141 | a one-word name gives its own first letter, upper-cased |
| Routing.BlankNameHasNoInitials | src/App.jsx:141 | a name of only spaces has no initials |
| Routing.SplitOfSpaces | src/App.jsx:141 | splitting spaces on spaces gives only empty words |
| Achievements.AchievementsByDate | src/features/achievements/Achievements.jsx:52-62 | a date is a key exactly when some achievement was earned on it (undated ones skipped), and its count is the number earned on it |
| Achievements.TallyStep | src/features/achievements/Achievements.jsx:53-61 | one reduce step keeps the tally equal to the counts of the achievements seen so far |
| Achievements.DateCountIsSumWhere | src/features/achievements/Achievements.jsx:52-62 | a date's count is the dated weight summed over the achievements of that date |
| Achievements.DatedWeightCounts | src/features/achievements/Achievements.jsx:54-56 | the dated weight sums to the number of dated achievements |
| Achievements.CountsAddUp | src/features/achievements/Achievements.jsx:52-62 | over the distinct dates the counts add up to the number of dated achievements |
| Achievements.FilteredAchievements | src/features/achievements/Achievements.jsx:45-50 | all of the day's achievements for 'All', otherwise exactly those of the chosen category, in order |
| Achievements.FilterTwiceSame | src/features/achievements/Achievements.jsx:45-50 | choosing the same category again shows the same list |
| Achievements.AddedCategory | src/features/achievements/Achievements.jsx:112-125 | the trimmed name is appended when not blank and not yet listed; existing entries stay in order and no duplicate is introduced |
| Achievements.AddCategoryIdempotent | src/features/achievements/Achievements.jsx:118-123 | adding the same name twice is adding it once |
| Achievements.AchievementPayload | src/features/achievements/Achievements.jsx:64-75 | nothing for a blank title; otherwise the trimmed title, category and description, earned on the selected day |
| Achievements.FindItem | src/features/achievements/Achievements.jsx:138 | the index of the first planned item with the id, none when there is none |
| Achievements.FindByTitle | src/features/achievements/Achievements.jsx:159 | the first of the day's achievements with that title, none when there is none |
| Achievements.SetCompleted | src/features/achievements/Achievements.jsx:152-154 | every item with the id gets the flag; ids, texts and the other items are kept |
| Achievements.TickUntickRestores | src/features/achievements/Achievements.jsx:152-164 | ticking and then unticking an id whose items were all unticked restores the list |
| Achievements.PlannedPayload | src/features/achievements/Achievements.jsx:144-149 | the achievement a ticked item creates: its text, the form's category or 'General', no description, the selected day |
| Achievements.AchievementsPage.constructor | src/features/achievements/Achievements.jsx:26-38 | an empty form and inputs, no planned items, and today's key selected |
| Achievements.AchievementsPage.SelectDate | src/features/achievements/Achievements.jsx:36-38 | the selected key becomes the picked day's key |
| Achievements.AchievementsPage.AddCategory | src/features/achievements/Achievements.jsx:112-125 | the list becomes the added-category list and the input clears, unless the name is blank |
| Achievements.AchievementsPage.AddAchievement | src/features/achievements/Achievements.jsx:64-81 | nothing sent for a blank title; otherwise the payload is sent and the form clears exactly when creation succeeds |
| Achievements.AchievementsPage.AddPlannedItem | src/features/achievements/Achievements.jsx:127-135 | a non-blank input appends one unticked item with the trimmed text and clears the input; blank input changes nothing |
| Achievements.AchievementsPage.TogglePlannedItem | src/features/achievements/Achievements.jsx:137-167 | unknown id: nothing; unticked: creation sent, ticked only on success; ticked: unticked only when a same-day achievement with its title is found and deleted |
| Expenses.InPeriod | src/features/expenses/Expenses.jsx:42 | the span's expenses: each dated in the span, every expense dated in the span kept, none added |
| Expenses.TotalSpent | src/features/expenses/Expenses.jsx:41-46 | the total is the summed size of the span's spending expenses, never negative |
| Expenses.SpendingCounted | src/features/expenses/Expenses.jsx:42-44 | every spending expense of the span is part of the total |
| Expenses.TotalSplitsByCategory | src/features/expenses/Expenses.jsx:41-46 | the total splits into the spending of each distinct category of the span |
| Expenses.CategoryStatsAsWritten | src/features/expenses/Expenses.jsx:70-77 | as written, one statistic per category counting the span's spending expenses whose category equals the category's id |
| Expenses.AddedExpenseIgnoredAsWritten | src/features/expenses/Expenses.jsx:72 | an expense filed by name (as this page files them) is never counted: one spending of 5.00 in "Food" leaves "Food" at zero |
| Expenses.CategoryStats | src/features/expenses/Expenses.jsx:70-77 | intended: per category the count of the span's spending expenses filed under it, their total the summed size of that spending (at least one cent each, at most the whole spending), and their mean; zero for none |
| Expenses.StatBounds | src/features/expenses/Expenses.jsx:72-75 | a category's count is the number of its spending expenses in the span and its total their summed size, the count at most the total and the total at most the span's spending |
| Expenses.AddedExpenseCounted | src/features/expenses/Expenses.jsx:72-75 | intended: an expense added under a category's name counts towards that category |
| Expenses.CategoryNameAsWritten | src/features/expenses/Expenses.jsx:35-39 | as written: the name of the first category whose id is the stored non-zero id, and 'Other' for a zero id, an id no category has, or a stored name |
| Expenses.LabelAsWritten | src/features/expenses/Expenses.jsx:35-39 | the page's label: 'Other' for every category stored by name, and the looked-up name for a stored id |
| Expenses.LabelIntended | src/features/expenses/Expenses.jsx:35-39 | intended: a stored non-empty name is its own label, and a stored id is labelled as the page labels it |
| Expenses.FindCategoryById | src/features/expenses/Expenses.jsx:37 | the first category with the id, none when no category has it |
| Expenses.NamedCategoryShownAsOther | src/features/expenses/Expenses.jsx:35-39 | as written, a category stored by name shows as 'Other' whatever its name |
| Expenses.CategoryName | src/features/expenses/Expenses.jsx:35-39 | intended: a stored name shows as itself; an id is looked up as written; 'Other' exactly for an empty or unknown category |
| Expenses.SortedIsInOrder | src/features/expenses/Expenses.jsx:57-66 | a list sorted by the order's key is in that order |
| Expenses.Arranged | src/features/expenses/Expenses.jsx:57-67 | a permutation of the kept expenses in the chosen order; unchanged for the default comparator answering 0 |
| Expenses.ListedExpenses | src/features/expenses/Expenses.jsx:48-68 | under a category label: exactly the expenses matching the search and the category filter, whatever the span, each as often as it occurs, in the chosen order (unsorted: in stored order) |
| Expenses.EmptySearchListsAll | src/features/expenses/Expenses.jsx:49-55 | clearing the search and the filter lists every expense, under any label |
| Expenses.NamedExpenseHiddenAsWritten | src/features/expenses/Expenses.jsx:35-55 | as written, an expense stored by name is hidden by every category filter except 'all' and 'Other' |
| Expenses.NamedExpenseListedIntended | src/features/expenses/Expenses.jsx:48-55 | intended: an expense stored by name is listed under the filter of its own name |
| Expenses.ResolveCategory | src/features/expenses/Expenses.jsx:107-111 | the selected category, else the first category's name; a choice naming no category, or no choice ('Other'), must be created |
| Expenses.SignedAmount | src/features/expenses/Expenses.jsx:128 | the typed size, positive for income and negative for spending |
| Expenses.HandleAddExpense | src/features/expenses/Expenses.jsx:99-136 | nothing without an amount, a date or a number; a needed category not created stops the handler; otherwise the signed expense under the chosen name is sent and appended when the server answers |
| Expenses.RenameCategory | src/features/expenses/Expenses.jsx:138-156 | with a new name, an existing category under the old name and the update helper, each expense filed under the old name is renamed in turn as answered; otherwise nothing changes |
| Expenses.CascadeNext | src/features/expenses/Expenses.jsx:146-148 | one more update extends the cascade by one answered rename |
| Expenses.SameIdSameExpense | src/features/expenses/Expenses.jsx:147 | with unique ids an id determines the expense |
| Expenses.IdAmongSnoc | src/features/expenses/Expenses.jsx:145-148 | an id is among one more expense exactly when it was, or it is the new one's |
| Expenses.CascadeStep | src/features/expenses/Expenses.jsx:146-148 | one answered update renames one more expense |
| Expenses.CascadeAsRenaming | src/features/expenses/Expenses.jsx:146-148 | with every update answered under its own id, the cascade renames exactly the affected expenses |
| Expenses.RenameReachesEveryExpense | src/features/expenses/Expenses.jsx:145-148 | with unique ids and every update answered, the expenses filed under the old name are renamed and every other is kept |
| Expenses.AmongIffFiled | src/features/expenses/Expenses.jsx:145 | an expense is affected exactly when it is filed under the old name |
| Expenses.FindExpense | src/features/expenses/Expenses.jsx:160 | the first expense with the id, none when no expense has it |
| Expenses.EditedAmount | src/features/expenses/Expenses.jsx:160-164 | the amount the form was filled with, or the typed one (none when not a number), in size; positive only when the original was income |
| Expenses.UntouchedAmountKept | src/features/expenses/Expenses.jsx:160-164 | the amount the pencil button puts in the form is saved exactly as it was |
| Expenses.ZeroAmountBecomesSpending | src/features/expenses/Expenses.jsx:162-164 | a zero-sized expense becomes spending once a non-zero amount is typed |
| Expenses.EditedExpenseAsWritten | src/features/expenses/Expenses.jsx:158-170 | as written: the form's amount, category, date, time and description under the same id, with the recurring flag false because the form never holds it; none when the typed amount is not a number |
| Expenses.SaveClearsRecurringAsWritten | src/features/expenses/Expenses.jsx:158-170 | as written, saving the pre-filled form of a recurring expense unchanged clears its recurring flag and nothing else |
| Expenses.EditedExpense | src/features/expenses/Expenses.jsx:158-170 | intended: the form's fields and amount with the expense's own recurring flag; none exactly when the typed amount is not a number |
| Expenses.PrefilledEditIsIdentity | src/features/expenses/Expenses.jsx:158-170 | intended: saving the form as the pencil button filled it leaves the expense as it was |
| Expenses.EditDiffersOnlyInFlag | src/features/expenses/Expenses.jsx:158-170 | the intended edit and the one as written succeed together and differ in the recurring flag only |
| Expenses.HandleSaveEdit | src/features/expenses/Expenses.jsx:158-175 | as written: the edited expense (recurring flag cleared) replaces the original, under the answered id, when the server answers; an unknown id or a non-number amount changes nothing |
| Expenses.BarWidth | src/features/expenses/Expenses.jsx:316 | 0 without a budget; otherwise the spent share as a percentage, capped at 100 exactly when the budget is reached |
| Expenses.BarRatio | src/features/expenses/Expenses.jsx:316 | the percentage times the budget is the total times 100, below 100 exactly when under budget |
| Expenses.BarColor | src/features/expenses/Expenses.jsx:317 | red when past the budget, the category's colour otherwise |
| Expenses.RedBarIsFull | src/features/expenses/Expenses.jsx:316-317 | a red bar is always a full one |
| Todo.IdRoundTrip | src/features/tasks/Todo.jsx:59 | a row id stringified reads back through `parseInt` as the same number |
| Todo.ToCategory | src/features/tasks/Todo.jsx:9-15 | the category keeps its name, gets the default icon, and a blank colour becomes the default one |
| Todo.ToItem | src/features/tasks/Todo.jsx:70-77 | the item keeps title, flag and time stamp; a null description becomes '' |
| Todo.MappedIdsRoundTrip | src/features/tasks/Todo.jsx:9-15 | the client's string ids of an item, its category and a category row read back as the row's numbers |
| Todo.ToItemKeepsIdsApart | src/features/tasks/Todo.jsx:70-77 | rows with different ids map to items with different ids |
| Todo.AllItems | src/features/tasks/Todo.jsx:68-78 | one item per row, in order, each the row mapped |
| Todo.GetTaskCategoryItems | src/features/tasks/Todo.jsx:54-65 | exactly the mapped rows whose category prints as the id, as many as there are such rows |
| Todo.GroupItems | src/features/tasks/Todo.jsx:169-180 | the grouping loop: a key per category present, each bucket the items of that category in original order |
| Todo.BucketsStep | src/features/tasks/Todo.jsx:173-178 | pushing one more item keeps every bucket the filter of the items seen |
| Todo.BucketOfKey | src/features/tasks/Todo.jsx:177 | a bucket grows by the pushed item exactly when that is its category |
| Todo.NoneInBucket | src/features/tasks/Todo.jsx:174-176 | a category no item has gets no items |
| Todo.BucketIsSumWhere | src/features/tasks/Todo.jsx:177 | a bucket's size is the count of items of its category |
| Todo.SumOfOnes | src/features/tasks/Todo.jsx:177 | counting one per item gives the number of items |
| Todo.BucketSizesAreKeyedSums | src/features/tasks/Todo.jsx:173-178 | the bucket sizes over a list of keys are the per-key counts |
| Todo.GroupingCoversAll | src/features/tasks/Todo.jsx:169-180 | the keys are exactly the categories present, and the bucket sizes add up to the number of items |
| Todo.FilteredItems | src/features/tasks/Todo.jsx:294-305 | nothing for no bucket; otherwise a reordering of the items the filter keeps, incomplete before completed, each group newest first |
| Todo.Arrange | src/features/tasks/Todo.jsx:301-304 | a reordering with incomplete items first and, within each group, newest first |
| Todo.ShowAllIsReordering | src/features/tasks/Todo.jsx:294-305 | with 'all' the list is a reordering of the whole bucket |
| Todo.ActiveAndCompletedPartition | src/features/tasks/Todo.jsx:298-299 | the active and completed views together hold as many items as the bucket |
| Todo.StatsOf | src/features/tasks/Todo.jsx:307-314 | total is completed plus active, the bucket's size and count of done items; zeros for a missing bucket |
| Todo.AddItemBody | src/features/tasks/Todo.jsx:220-230 | nothing for a missing or blank text; otherwise the text, the category's note or '', incomplete, under the category's number |
| Todo.AddItemSendsCategoryId | src/features/tasks/Todo.jsx:82 | a category id received from the server goes back as that number |
| Todo.WireName | src/features/tasks/Todo.jsx:99-102 | text travels as `title`, note as `description`, category as `category` |
| Todo.BuildPatch | src/features/tasks/Todo.jsx:97-102 | the patch holds exactly the defined fields, renamed to their wire names |
| Todo.PatchRoundTrip | src/features/tasks/Todo.jsx:97-104 | a patch with a server-issued category id reads back as the update it came from |
| Todo.FindItem | src/features/tasks/Todo.jsx:242 | the item with the id in that category's bucket, none when absent |
| Todo.FindById | src/features/tasks/Todo.jsx:242 | the first item with the id, none when no item has it |
| Todo.ToggleUpdate | src/features/tasks/Todo.jsx:240-253 | nothing for an unknown item; otherwise the found item with its flag flipped |
| Todo.TogglePatchOfLoadedRow | src/features/tasks/Todo.jsx:240-247 | toggling an item loaded from a row sends back the row's title, note, flipped flag and own category number |
| Todo.PatchOfFullUpdate | src/features/tasks/Todo.jsx:97-102 | an update carrying the whole item patches all four fields |
| Todo.SaveEditUpdate | src/features/tasks/Todo.jsx:270-292 | nothing for blank text, no edit in progress, or a vanished item; otherwise the item with the new text and note |
| Todo.EditKeepsFlagAndCategory | src/features/tasks/Todo.jsx:278-282 | an edit keeps the item's flag and category and changes only its words |
| Todo.NewCategoryBody | src/features/tasks/Todo.jsx:18-22 | nothing for a blank name; otherwise the name and the colour, defaulted when blank |
| Todo.DeleteAsWrittenKeepsItems | src/features/tasks/Todo.jsx:208-218 | as written, a confirmed delete of a category with items leaves them listed |
| Todo.DeleteCategory | src/features/tasks/Todo.jsx:46-48 | intended: unless declined or unparsable, the category row goes and so does every task filed under it; every other row stays |
| Todo.DeleteCategoryRemovesAll | src/features/tasks/Todo.jsx:120-125 | after a confirmed delete of a listed category it and its items are gone and the other categories stay |
| Todo.DeleteCategoryAsWritten | src/features/tasks/Todo.jsx:208-218 | the confirmed delete as written leaves every table as it was |
| Quadrants.WithTime | src/features/tasks/Quadrants.jsx:151-154 | a time reading as hours and minutes moves the deadline to that hour and minute of its day; one that does not read gives an Invalid Date |
| Quadrants.AtTimeSameDay | src/features/tasks/Quadrants.jsx:153 | an hour and minute on the clock keep the day and set the time of day, keeping seconds and milliseconds |
| Quadrants.DaysUntil | src/features/tasks/Quadrants.jsx:146-157 | none without a deadline, Invalid for an Invalid Date, otherwise the days left rounded up |
| Quadrants.DueTodayMeansWithinADay | src/features/tasks/Quadrants.jsx:156 | due in 0 days exactly when the deadline is at most a day past and not ahead; overdue exactly when a full day or more has passed |
| Quadrants.DeadlineColor | src/features/tasks/Quadrants.jsx:159-165 | grey for no deadline, red past, orange today, yellow within three days, green beyond or for an Invalid Date |
| Quadrants.FormatDeadline | src/features/tasks/Quadrants.jsx:167-179 | '' exactly without a deadline; "Today"/"Tomorrow" plus the time when there is one, "Yesterday", "<n>d overdue", "<n>d" for two to seven days ahead, the short date beyond that or for an Invalid Date |
| Quadrants.WordingMatchesColor | src/features/tasks/Quadrants.jsx:159-179 | a red deadline, and only a red one, is worded with the warning sign; an orange one says "Today" |
| Quadrants.OverdueWording | src/features/tasks/Quadrants.jsx:174 | "n d overdue" shows exactly the number of days overdue |
| Quadrants.DueSoonWording | src/features/tasks/Quadrants.jsx:175 | "<n>d" for two to seven days ahead shows digits that read back as the days left |
| Quadrants.NearDeadlineShowsTime | src/features/tasks/Quadrants.jsx:171-172 | "Today" and "Tomorrow" end with a space and the time when there is one, and are the bare word otherwise |
| Quadrants.StatsOfSnoc | src/features/tasks/Quadrants.jsx:34-52 | one more task tallies into the counters once |
| Quadrants.AllTasks | src/features/tasks/Quadrants.jsx:33 | every task of the board, as many as the four buckets hold |
| Quadrants.FlattenBoard | src/features/tasks/Quadrants.jsx:33 | visiting the buckets in board order gives every task |
| Quadrants.TallyBucket | src/features/tasks/Quadrants.jsx:34-53 | the inner loop: the counters after one more bucket are those of the tasks so far plus the bucket |
| Quadrants.GetTaskStats | src/features/tasks/Quadrants.jsx:22-57 | the nested loops compute the counters of all tasks of the board |
| Quadrants.StatsBounds | src/features/tasks/Quadrants.jsx:35-51 | done and undated tasks are among all; overdue and due-today tasks are disjoint and open; due today implies due this week |
| Quadrants.StatsTotalIsBoardTotal | src/features/tasks/Quadrants.jsx:35 | the total is the number of tasks across the four buckets |
| Quadrants.FilteredTasks | src/features/tasks/Quadrants.jsx:181-188 | exactly the tasks the completion filter keeps, none added; 'all' keeps the list |
| Quadrants.ActiveAndCompletedSplit | src/features/tasks/Quadrants.jsx:184-185 | the active and completed views split the list between them |
| Quadrants.Board.constructor | src/features/tasks/Quadrants.jsx:125-127 | no task is being dragged |
| Quadrants.Board.HandleDragStart | src/features/tasks/Quadrants.jsx:125-127 | the dragged task and its quadrant are remembered |
| Quadrants.Board.HandleDrop | src/features/tasks/Quadrants.jsx:133-144 | a task dropped on another quadrant moves there, one dropped where it came from stays; the drag always ends |
| Quadrants.DropKeepsTotal | src/features/tasks/Quadrants.jsx:133-144 | a drop never changes how many tasks the board holds |
| Quadrants.SubmitDraft | src/features/tasks/Quadrants.jsx:59-70 | nothing for blank text; otherwise the text in the chosen quadrant, incomplete, with null for an empty deadline or time |
| Quadrants.SaveEdit | src/features/tasks/Quadrants.jsx:105-116 | nothing for blank text or a task not in the quadrant; otherwise the quadrant task with the new text, deadline and time, its id, quadrant and flag kept |
| NotesEditor.Substring | src/features/notes/Notes.jsx:70 | `substring` clamps both ends and is the plain slice for ordered ends inside the text |
| NotesEditor.Splice | src/features/notes/Notes.jsx:78 | the text with the stretch between the two positions replaced |
| NotesEditor.LastIndexUpTo | src/features/notes/Notes.jsx:68 | the last newline at or before a position, none after it, -1 when there is none |
| NotesEditor.LastIndexOf | src/features/notes/Notes.jsx:68 | `lastIndexOf` gives -1 or a position inside the text |
| NotesEditor.LineStart | src/features/notes/Notes.jsx:68 | the line start is inside the text |
| NotesEditor.LineEnd | src/features/notes/Notes.jsx:69-70 | the line end is the first newline at or after the cursor, or the text's end |
| NotesEditor.CurrentLineIsLine | src/features/notes/Notes.jsx:68-70 | the current line is the stretch between the newline before the cursor and the next newline or the end |
| NotesEditor.BulletRun | src/features/notes/Notes.jsx:92 | the length of the `/^• +/` match, at least 2 on a bullet line |
| NotesEditor.SpaceRun | src/features/notes/Notes.jsx:92 | the run of spaces at the start |
| NotesEditor.IndentLevel | src/features/notes/Notes.jsx:88 | `/^• /g` matches at most once |
| NotesEditor.HandleKeyDown | src/features/notes/Notes.jsx:63-207 | other keys are left to the browser, Tab is never typed, Enter always rewrites |
| NotesEditor.HandleTab | src/features/notes/Notes.jsx:73-118 | Tab is never typed: it rewrites the line or only prevents the default |
| NotesEditor.HandleEnter | src/features/notes/Notes.jsx:121-188 | Enter always rewrites the text |
| NotesEditor.HandleBackspace | src/features/notes/Notes.jsx:191-206 | Backspace rewrites or falls through to the browser, never only swallows |
| NotesEditor.ShiftTabNeverUnindents | src/features/notes/Notes.jsx:88-101 | Shift+Tab changes only a "-" line: the unindent branch is unreachable |
| NotesEditor.TabIndentsBullet | src/features/notes/Notes.jsx:102-115 | Tab on a bullet line makes it start with two bullets, dropping the spaces after the first |
| NotesEditor.DashTabLine | src/features/notes/Notes.jsx:76-86 | Tab on a "-" line replaces it with a bare bullet, cursor after the bullet |
| NotesEditor.BareBulletLine | src/features/notes/Notes.jsx:68-70 | the cursor after a bullet alone on its line sees that line as "• " |
| NotesEditor.BackspaceOnBareBullet | src/features/notes/Notes.jsx:191-205 | Backspace right after a bare bullet removes its two characters |
| NotesEditor.DashTabThenBackspace | src/features/notes/Notes.jsx:76-86 | Tab on a "-" line and then Backspace remove the line's text and leave the cursor at its start |
| NotesEditor.BackspaceAfterBareBullet | src/features/notes/Notes.jsx:191-205 | Backspace after a bullet alone on its line removes the bullet, cursor at the line start |
| NotesEditor.EnterContinuesBullet | src/features/notes/Notes.jsx:137-149 | Enter on a bullet line with text starts the next line with the same bullet run |
| NotesEditor.EnterNumbersNextLine | src/features/notes/Notes.jsx:151-163 | Enter on an `n. ` line opens the next line with `(n+1). ` |
| NotesEditor.EnterPlainLine | src/features/notes/Notes.jsx:164-185 | Enter on any other line inserts a plain newline |
| NotesEditor.EnterInserts | src/features/notes/Notes.jsx:141-184 | inserting Enter replaces the selection and puts the cursor after the inserted text |
| NotesEditor.EnterClearsBareBullet | src/features/notes/Notes.jsx:126-136 | Enter on a bare bullet line empties the line and leaves the cursor at its start |
| NotesEditor.BackspaceElsewhereIsNative | src/features/notes/Notes.jsx:191-206 | Backspace anywhere but right after a bullet with a collapsed cursor is the browser's |
| NotesEditor.Formatted | src/features/notes/Notes.jsx:257-277 | `• ` or `1. ` followed by the selection, or the selection between `**`, `*` or `` ` `` markers, by button; none exactly for an unknown type |
| NotesEditor.InsertFormatting | src/features/notes/Notes.jsx:248-286 | the text before the selection, then exactly the button's formatted selection, then the text after it, with the cursor at the start plus the formatted text's length; an unknown type changes nothing |
| NotesEditor.FormattingEmptySelection | src/features/notes/Notes.jsx:258-272 | with nothing selected the buttons insert `****`, `**`, two backticks, `• ` or `1. ` |
| NotesEditor.ArrowPass | src/features/notes/Notes.jsx:214 | the rewrite never lengthens the text |
| NotesEditor.ArrowPassLeavesNone | src/features/notes/Notes.jsx:214 | after the rewrite no `->` is left |
| NotesEditor.ArrowPassFixesArrowFree | src/features/notes/Notes.jsx:214 | a text without `->` is left alone |
| NotesEditor.PlainRun | src/features/notes/Notes.jsx:217 | the prefix free of `*` and newlines, ended by one of them or the text's end |
| NotesEditor.EraseAppend | src/features/notes/Notes.jsx:217 | erasing a character distributes over concatenation |
| NotesEditor.EraseFree | src/features/notes/Notes.jsx:217 | erasing an absent character changes nothing |
| NotesEditor.EraseInserted | src/features/notes/Notes.jsx:217 | inserting only erased characters is invisible after erasing |
| NotesEditor.StarWrap | src/features/notes/Notes.jsx:217 | doubling the stars around star-free text is invisible once stars are erased |
| NotesEditor.BoldPassOnlyAddsStars | src/features/notes/Notes.jsx:217 | the bold rewrite only adds asterisks |
| NotesEditor.BoldPassStarFree | src/features/notes/Notes.jsx:217 | a text without asterisks is left alone |
| NotesEditor.BoldPassExamples | src/features/notes/Notes.jsx:217 | `*hi*` becomes `**hi**` and `**hi**` stays |
| NotesEditor.NumberPassOnlyAddsSpaces | src/features/notes/Notes.jsx:220 | the numbering rewrite only adds spaces |
| NotesEditor.NumberPassExample | src/features/notes/Notes.jsx:220 | `1.x` becomes `1. x` |
| NotesEditor.HandleInput | src/features/notes/Notes.jsx:209-246 | the text is the arrow rewrite up to added stars and spaces; the cursor stays when nothing changed, else it stays where it fits in the new text and moves to its end otherwise |
| NotesEditor.BoldWrapsItalic | src/features/notes/Notes.jsx:217 | any leading `*x*`, x one line without asterisks and not followed by a `*`, becomes `**x**` |
| NotesEditor.NumberGetsSpace | src/features/notes/Notes.jsx:220 | at a line start any number, dot and non-space non-digit character get a space after the dot |
| NotesEditor.NumberPassMidLine | src/features/notes/Notes.jsx:220 | inside a line the numbering rewrite changes nothing |
| NotesEditor.HandleInputBolds | src/features/notes/Notes.jsx:209-217 | typing `*x*`, x one line without asterisks or dashes, gives `**x**` |
| NotesEditor.HandleInputNumbers | src/features/notes/Notes.jsx:209-220 | typing a numbered line `n.x…` without asterisks or dashes gives `n. x…` |
| NotesEditor.EraseSpacesThenStars | src/features/notes/Notes.jsx:217-220 | equal up to stars stays equal up to spaces and stars |
| NotesEditor.EraseCommutes | src/features/notes/Notes.jsx:217-220 | erasing two characters in either order gives the same text |
| NotesEditor.FilteredNotes | src/features/notes/Notes.jsx:374-385 | exactly the notes of the category matching the search, pinned first, each group newest first |
| NotesEditor.EverythingShownByDefault | src/features/notes/Notes.jsx:374-380 | an empty search in 'all' shows every note |
| NotesEditor.Categories | src/features/notes/Notes.jsx:25 | the distinct non-empty categories of the notes, each from some note |
| NotesEditor.AddNotePayload | src/features/notes/Notes.jsx:27-37 | rejected exactly when title and content are both blank; otherwise the trimmed fields, unpinned, stamped now |
| Timer.BreakAfter | src/features/timer/Timer.jsx:73-88 | a work session is followed by a break, a long one exactly when the count before it plus one is a multiple of four |
| Timer.LongBreakEveryFourth | src/features/timer/Timer.jsx:74 | over n work sessions the long breaks number n div 4 |
| Timer.FocusTimer.constructor | src/features/timer/Timer.jsx:9-29 | 25 minutes, stopped, no sessions, default settings, a daily goal of 120 |
| Timer.FocusTimer.Begin | src/features/timer/Timer.jsx:122-156 | a fresh active, unpaused countdown of m minutes of the given kind; sessions and count untouched |
| Timer.FocusTimer.StartTimer | src/features/timer/Timer.jsx:122-128 | a work countdown of the custom duration, Pomodoro mode untouched |
| Timer.FocusTimer.StartPomodoro | src/features/timer/Timer.jsx:130-138 | Pomodoro mode on, a work countdown of the work duration |
| Timer.FocusTimer.StartBreak | src/features/timer/Timer.jsx:140-156 | a break countdown of its configured length |
| Timer.FocusTimer.Pause | src/features/timer/Timer.jsx:158 | paused, and every other part of the state as it was; the invariant kept |
| Timer.FocusTimer.Resume | src/features/timer/Timer.jsx:159 | unpaused, and every other part of the state as it was; the invariant kept |
| Timer.FocusTimer.Snooze | src/features/timer/Timer.jsx:161-163 | m more minutes on the clock and nothing else changed, the recorded duration included |
| Timer.FocusTimer.Stop | src/features/timer/Timer.jsx:389-394 | the countdown and Pomodoro mode end and the label and notes clear; nothing else changes, nothing is recorded, paused stays |
| Timer.FocusTimer.SetMinutesInput | src/features/timer/Timer.jsx:419 | the custom duration becomes the typed positive number, else 1; nothing else changes |
| Timer.FocusTimer.SetDailyGoalInput | src/features/timer/Timer.jsx:429 | the daily goal becomes the typed positive number, else 1; nothing else changes |
| Timer.FocusTimer.SetSettingInput | src/features/timer/Timer.jsx:438-456 | one duration setting takes the clamped input; nothing else changes |
| Timer.FocusTimer.DeleteSession | src/features/timer/Timer.jsx:532 | the sessions with that id go, the rest stay in order; nothing else changes, the count included |
| Timer.DeleteSessionRemovesOnlyIt | src/features/timer/Timer.jsx:532 | no session with the id remains, every other one does, and exactly those with the id are gone |
| Timer.FocusTimer.Complete | src/features/timer/Timer.jsx:44-104 | a finished work session is recorded (label defaulting to 'Focus Session') and counted, a break is not; then the Pomodoro cycle starts the next session or stops with an alert, reading the count from before; outside Pomodoro mode it stops |
| Timer.FocusTimer.Advance | src/features/timer/Timer.jsx:71-100 | in Pomodoro mode the next session starts when its auto-start setting is on, else the timer stops with an alert; outside it, it stops; a stop changes nothing but the running flag |
| Timer.FocusTimer.LogSession | src/features/timer/Timer.jsx:49-69 | a work session is appended and counted, a break is not |
| Timer.FocusTimer.Step | src/features/timer/Timer.jsx:32-42 | running, unpaused and above zero: one second off and nothing else; at zero while active: the session is logged and counted, the inputs clear, and the next countdown (the break chosen by the count, or work) starts exactly when Pomodoro mode's auto-start allows, else an alert with the clock left as it was; otherwise nothing changes |
| Timer.RunToEnd | src/features/timer/Timer.jsx:32-42 | running a started countdown to its end takes one step per second plus one and records exactly one session for work, none for a break |
| Timer.FormatTime | src/features/timer/Timer.jsx:165-169 | minutes, a colon, and the seconds |
| Timer.Pad2BelowHundred | src/features/timer/Timer.jsx:168 | padding a number below 100 gives two digits |
| Timer.FormatTimeRoundTrip | src/features/timer/Timer.jsx:165-169 | the clock face reads back as exactly the remaining seconds |
| Timer.ClampSetting | src/features/timer/Timer.jsx:419-456 | at least 1: the fallback for an unreadable or zero entry, the number itself when positive |
| Timer.ApplySettingInput | src/features/timer/Timer.jsx:438-456 | the work, short and long durations fall back to 25, 5 and 15 and stay at least 1 |
| Timer.SettingTakesPositiveNumber | src/features/timer/Timer.jsx:419-456 | a typed positive number sets exactly that many minutes |
| Timer.SpanSessions | src/features/timer/Timer.jsx:173 | intended week: the sessions dated in the span, every one of them kept and no other; all of them for the open span |
| Timer.SpanSessionsCounts | src/features/timer/Timer.jsx:173 | a session of the span is counted as often as it was logged, any other not at all |
| Timer.Stats | src/features/timer/Timer.jsx:172-188 | the span's minutes and number of sessions and their mean; today's minutes and count over all sessions, whatever the span |
| Timer.MeanAtLeastOne | src/features/timer/Timer.jsx:175 | with every session at least a minute, the mean is at least a minute |
| Timer.ChartData | src/features/timer/Timer.jsx:191-206 | one bar per charted day with that day's minutes and count |
| Timer.ChartAddsUpToSessionsOnDays | src/features/timer/Timer.jsx:191-206 | the bars add up to the per-day minutes |
| Timer.SessionsOnDistinctDays | src/features/timer/Timer.jsx:191-206 | on distinct days each session on one of them is counted once |
| Timer.KeyedSumIsFilteredSum | src/features/timer/Timer.jsx:197-198 | summing per distinct key equals summing the sessions whose key is listed |
| Timer.SumOverKeysNone | src/features/timer/Timer.jsx:197-198 | no sessions sum to nothing |
| Ledger.CoerceValue | backend/accounts/views.py:66-70 | an absent value is true, a string is true exactly when it is one of '1', 'true', 'yes', 'on' in any case, a boolean is itself, null is false |
| Ledger.CoercionIgnoresCase | backend/accounts/views.py:70 | whether a string reads as true does not depend on its letter case |
| Ledger.CoercionExamples | backend/accounts/views.py:70 | 'TRUE', 'Yes', 'on' are true; 'false', '0', '' are false |
| Ledger.LowerUpper | backend/accounts/views.py:70 | lower-casing an upper-cased string is lower-casing it |
| Ledger.ApplyToggle | backend/accounts/views.py:74-83 | a true value marks the date done, a false one removes it; every other date keeps its entry |
| Ledger.ApplyToggleIdempotent | backend/accounts/views.py:74-83 | the same edit twice is the edit once |
| Ledger.ClearAbsentIsNoOp | backend/accounts/views.py:80-81 | clearing a date that is not there changes nothing |
| Ledger.SetThenClear | backend/accounts/views.py:77-81 | setting then clearing a date the ledger did not hold restores the ledger |
| Ledger.FindOwned | backend/accounts/views.py:26-33 | the found row has that id and belongs to the user; none found means no such row for the user |
| Ledger.HabitTable.constructor | backend/accounts/views.py:22-24 | the table holds the given rows |
| Ledger.HabitTable.Toggle | backend/accounts/views.py:44-90 | 401 anonymous, 404 not the user's habit, 400 without a date, each with nothing changed; 200 exactly otherwise, with only that habit's ledger edited |
| Ledger.ToggleTwice | backend/accounts/views.py:74-84 | two identical toggles both answer 200 and leave the table as one does |
| Ledger.FindOwnedAfterUpdate | backend/accounts/views.py:58 | editing a found row's ledger does not change which row is found |
| Ledger.OwnRows | backend/accounts/views.py:97-100 | every listed row is the user's, every row of the user is listed, and an anonymous request lists none |
| Ledger.OwnRowsSeparate | backend/accounts/views.py:26-33 | a row of one user is never listed for another |
| Ledger.ThoughtQuery | backend/accounts/views.py:237-252 | exactly the user's thoughts of the asked category, active only unless 'active' is given and not a true word; none when anonymous |
| Ledger.InactiveListedWhenAsked | backend/accounts/views.py:248-250 | '?active=false' lists an inactive thought that the default query hides |
| Ledger.AchievementQuery | backend/accounts/views.py:267-275 | none when anonymous; all the user's without a date; those earned on the date otherwise; an unreadable date is an error |
| Ledger.AnonymousPolicy | backend/accounts/views.py:35-42 | anonymous creation is silently skipped exactly by the expense and note view sets, and raises in all others |
| Ledger.Table.constructor | backend/accounts/views.py:93-95 | the table holds the given rows |
| Ledger.Table.PerformCreate | backend/accounts/views.py:102-104 | a signed-in user's row is appended with that owner; an anonymous one leaves the table, raising or skipping by view set |
| Auth.InfoOf | backend/accounts/auth_views.py:37-42 | id, username and email of the user; the first name as name, or the username when it is empty |
| Auth.Authenticate | backend/accounts/auth_views.py:58 | the found user has that username and password; none found means no user matches both |
| Auth.AuthServer.constructor | backend/accounts/auth_views.py:1-6 | no users and nobody logged in |
| Auth.AuthServer.Register | backend/accounts/auth_views.py:11-44 | 500 for an unreadable body or a null name (refused by the NOT NULL column), 400 for a missing field, a taken username or a taken non-empty email, none changing anything; 200 exactly otherwise, adding one user (named 'name', the username when absent, email or '') and logging in as them |
| Auth.AuthServer.Login | backend/accounts/auth_views.py:49-72 | 500 unreadable, 400 missing field, 401 no match; 200 exactly when a user matches, logging in as that user; users never change |
| Auth.AuthServer.Logout | backend/accounts/auth_views.py:77-81 | always 200; an OPTIONS request logs nobody out, any other ends the session |
| Auth.AuthServer.CurrentUser | backend/accounts/auth_views.py:85-93 | the session user's details with 200, or 401 when nobody is logged in |
| Auth.RegisterThenLogin | backend/accounts/auth_views.py:11-72 | a user just registered logs in with the same username and password, as that user |
| Records.OrDefault | backend/accounts/models.py:7-10 | a given field keeps its value, an omitted one takes the model default |
| Records.NewHabit | backend/accounts/models.py:4-10 | frequency 1, empty ledger and not paused unless given; owner, name and creation date kept |
| Records.NewNote | backend/accounts/models.py:78-86 | color '#fef08a' and unpinned unless given; created and updated now |
| Records.NewFinanceCategory | backend/accounts/models.py:19-23 | color '#cbd5e0' and budget 0 unless given; owner and name kept |
| Records.QuadrantField | backend/accounts/models.py:113-121 | 'urgent_important' when omitted, the value when it is one of the four choices, an error otherwise |
| Records.QuadrantChoicesAreQuadrantNames | backend/accounts/models.py:113-118 | the four server choices are exactly the client's four quadrant keys |
| Records.NewThought | backend/accounts/models.py:138-150 | 'motivational' when omitted, an error outside the six choices, active unless given |
| Records.InsertUnique | backend/accounts/models.py:30 | rejected exactly when the owner already has that name; otherwise the row is appended and names stay unique per owner |
| Records.SameNameOtherUser | backend/accounts/models.py:30 | two users may each have a finance category of the same name |
| Records.DuplicateTaskCategoryRejected | backend/accounts/models.py:59 | a user's second task category of the same name is rejected |
| Records.ExpenseOrderTotal | backend/accounts/models.py:46 | the expense order is irreflexive, transitive, and orders any two distinct ids one way round |
| Records.OrderedExpenses | backend/accounts/models.py:45-46 | a permutation of the rows, newest date first, then highest id |
| Records.OrderedAchievements | backend/accounts/models.py:175-176 | a permutation of the rows, latest date earned first, then latest created |
| Records.ExpenseStr | backend/accounts/models.py:42-43 | the username, the title and a dollar sign, then an amount that reads back as the stored cents |
| Records.Pad2Short | backend/accounts/models.py:35 | the cents part is always two digits |
| Records.UnsignedDecimalRoundTrip | backend/accounts/models.py:35 | a non-negative amount's decimal text reads back as that amount |
| Records.DecimalParts | backend/accounts/models.py:35 | a whole and a two-digit fraction read back as their value |
| Records.DecimalRoundTrip | backend/accounts/models.py:35 | every amount, negative included, reads back from its decimal text |

## Left out

- Rendering (JSX, styles, charts, modals, the calendar widget) and `renderFormattedContent` are not modelled; they hold no state beyond what the model covers.
- Network I/O is not modelled: `fetch` in `request`, `initializeCSRF`, and every awaited API call. Each server reply is a parameter of the store or page method that receives it.
- Timers and concurrency are not modelled: `setInterval`/`setTimeout`, the confirmation countdown's clock, cursor-restore timeouts, `mounted` guards, `Promise.allSettled` ordering and out-of-order responses. Each tick, response or `hashchange` event is a separate method call.
- Clocks and randomness (`Date.now()`, `new Date()`, `pickRandom`, the random challenge operands) are parameters.
- Time zones are not modelled: local time is taken as UTC, so the mix of `toISOString` and local `getDate` has no effect here. `new Date(y, m, d)` with years 0-99 is not modelled.
- Floating point is not modelled: amounts are whole cents, and `toFixed` rendering is left out, including the expense total's `.toFixed(0)` and the timer's average `.toFixed(1)`. `Math.round` on rates is modelled exactly on rationals.
- Locale formatting (`toLocaleDateString`) is a parameter.
- Expenses.OrderKey, Expenses.InOrder and Expenses.ListedExpenses: the 'category' sort (`a.category.localeCompare(b.category)`, Expenses.jsx:63) is stood for by the `ByCategory` order over an unconstrained `rank` parameter, the collation position of a category. Locale collation is not modelled, and neither is the exception `localeCompare` throws when a stored category is a number rather than a name.
- `Common.Upper` and `Common.Lower` change ASCII letters only; full Unicode case mapping is not modelled.
- `Api.GetCSRFToken` takes `decodeURIComponent` as a parameter, so the exception it throws on a malformed value is not modelled.
- `Api.BuildUrl` takes a string; calling `buildUrl` with `undefined` is not modelled.
- The civil-date round trip (days to civil date and back) is not proved; the windows are stated on day numbers and only their keys go through the civil conversion.
- The Quadrants sort comparator inspects only its first argument, so no order is claimed; only the filter and that no task is lost are stated.
- `src/shared/components/ThoughtBanner.jsx` and `src/features/thoughts/Thoughts.jsx` are not part of this model (random rotation, a window event bus and request counters).
- `src/features/auth/SignIn.jsx` and `src/features/auth/Register.jsx` are not part of this model; they only check for empty fields before calling the context.
- The serializers, URL lists, settings and boot code of the backend and the client entry point are not part of this model.
- Django's ORM, sessions and password hashing are abstracted: the user table is a sequence, and the credential check is a `hash` parameter.
- `saveCategoriesRemote` is not modelled: it calls `api.saveCategories`, which the API object does not define.
- The context's user-management helpers (switch and create user, AppContext.jsx:550-583) are not modelled: they call setters that are never defined. The context's login/register/logout/status helpers are thin wrappers around the API and are not modelled either.
- Drag start and drag over in the store only record the dragged task and are not modelled; the drop is.
- `addFinanceCategoryRemote` and `updateFinanceCategoryRemote` are not supplied by the provider. The expense page's category creation and rename take the outcome of those calls as parameters: a failed creation, or a missing helper that throws before the rename cascade.
- Achievements.AchievementsPage and every member modelling the achievements page: the page calls `filterAchievementsByDate(selectedDate)` while rendering (Achievements.jsx:40-42), and the provider's value (AppContext.jsx:585-635) never supplies that function, so the page as written throws on its first render and none of its handlers is reachable. The model describes the page as intended: it passes the day's achievements and the gateway replies explicitly.
- The achievements page's edit and delete handlers (`handleStartEdit`, `handleSaveEdit`, `handleDelete`) are not modelled; they forward a form to the API and reload.
- Todo's `deleteItem` and `createTaskCategory` reload from the server after the call; the reload itself is not modelled.
- The timer's completion sound and its remote session save are not modelled.
- Store.AppStore.UpdateNoteRemote: takes the whole payload rather than a partial patch, so fields a caller leaves out are not merged.
- Store.AppStore.UpdateExpenseRemote: takes the whole payload rather than a partial patch, so fields a caller leaves out are not merged.
- Store.AppStore.AddTaskRemote: requires the reply's quadrant to be one of the four; a reply with another quadrant is not modelled.
- HabitGrid.ResizeEffect: leaves the stored streak as it was, as the code does; it does not promise that the streak matches the resized array.
- Expenses.TotalSpent: is in cents and does not model the `.toFixed(0)` rounding of the display.
- Timer.Stats: states the average as a rational; its one-decimal display is not modelled.
- Expenses.InPeriod: keeps the intended Sunday-to-Saturday week of `Store.FilterBySpan` (first row under Findings), while the page calls the as-written `filterBySpan`, whose week starts at the current time of day; `Store.FilterBySpanAsWritten` models that one. The same holds for every figure built on it, listed next.
- Expenses.TotalSpent, Expenses.CategoryStats and Expenses.CategoryStatsAsWritten: count the span's expenses by the intended week, not the as-written one.
- Dashboard.ThisPeriodExpenses, Dashboard.MostExpensiveCategory, Dashboard.ChartCategories and Dashboard.ChartData: use the intended week of `Expenses.InPeriod`, not the as-written one.
- Timer.SpanSessions and Timer.Stats: use the intended week of `Store.FilterBySpan`, not the as-written one.
- Expenses.CategoryStatsAsWritten, Expenses.CategoryStats, Expenses.CategoryNameAsWritten, Expenses.LabelAsWritten, Expenses.ListedExpenses, Expenses.HandleAddExpense and Dashboard.ChartCategories: take the finance categories `cats` as an unconstrained parameter. In the running client the context's `categories` never leaves its initial `[]`: the load calls `api.getCategories` (AppContext.jsx:265), which the API object does not export (services/api.js:277 exports `getFinanceCategories`), so the call throws into an empty `catch`, and `saveCategoriesRemote` throws before `setCategories`. With that empty list every label is 'Other', the statistics are empty, the category filter offers only 'all', every added expense goes through category creation, and the dashboard chart always falls back to the categories of the span's expenses. The model states these members for any list, so states with categories are not reachable in the client as written; the second and third rows under Findings are latent for the same reason.
- Auth.AuthServer.Register, Auth.AuthServer.Login, Auth.AuthServer.Logout and Auth.AuthServer.CurrentUser: the 405 answer `require_http_methods` gives a request of another HTTP method (not POST or OPTIONS, or not GET for the current user) is not modelled; each method stands for a request the decorator lets through.

## Findings

| source | as written | input that shows it | evidently intended | confidence | as-written member | corrected member |
|---|---|---|---|---|---|---|
| src/context/AppContext.jsx:44-67 | the week span starts at the current time of day on Sunday, not at midnight | now = 1970-01-04 (a Sunday) at noon: an item dated that Sunday at 00:00 is left out | the week is the whole of Sunday to Saturday | high, not executed | Store.FilterBySpanAsWritten, Store.SundayMidnightExcludedAsWritten, Store.SundayMidnightExample | Store.FilterBySpan |
| src/features/expenses/Expenses.jsx:70-77 | category statistics match `e.category === cat.id`, but the page stores the category name (line 123) | category 1 "Food" and one 5.00 spending stored under "Food": the statistics show 0 transactions | an expense counts for the category it names | high, not executed; latent while the context's category list stays empty (see "## Left out") | Expenses.CategoryStatsAsWritten, Expenses.AddedExpenseIgnoredAsWritten | Expenses.CategoryStats, Expenses.AddedExpenseCounted |
| src/features/expenses/Expenses.jsx:35-39 | the category label is looked up by id only | an expense stored with category name "Food" is labelled 'Other', and the filter "Food" hides it | a stored name is shown as itself | high, not executed; latent while the context's category list stays empty (see "## Left out") | Expenses.CategoryNameAsWritten, Expenses.NamedCategoryShownAsOther, Expenses.NamedExpenseHiddenAsWritten | Expenses.CategoryName, Expenses.NamedExpenseListedIntended |
| src/features/expenses/Expenses.jsx:158-170 | the saved edit sends `isRecurring: editForm.isRecurring`, but the edit form (filled at lines 538-545) never holds that flag | saving an unchanged edit of a recurring expense: it is stored and sent as not recurring | the expense keeps its recurring flag | high, not executed | Expenses.EditedExpenseAsWritten, Expenses.SaveClearsRecurringAsWritten | Expenses.EditedExpense, Expenses.PrefilledEditIsIdentity |
| src/features/tasks/Todo.jsx:208-218 | deleting a category calls `categoriesApi.deleteCategory`, which is not defined, so the call throws and nothing is deleted | a confirmed delete of a category that has tasks: the tasks are still listed | the category and its tasks are removed | high, not executed | Todo.DeleteCategoryAsWritten, Todo.DeleteAsWrittenKeepsItems | Todo.DeleteCategoryRemovesAll |
