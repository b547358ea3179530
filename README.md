# A verified model of the study planner's logic

The application is a personal productivity tool. It has these parts:
- kanban pages of tasks with tags;
- an all-tasks list and a dashboard;
- a day tracker of timed entries;
- countdown events;
- a log of study-timer sessions.

A Flask backend keeps everything in JSON files. A React frontend shows it. A command-line tool imports a kanban board exported from another program.

This project models the logic of that application in Dafny:
- the page, task and tag store of the backend;
- the three record logs (day-tracker entries, timer sessions and countdown events), whose ids are "number of records plus one", and their statistics;
- the date-range encoding of a task's `timestamp` and the overdue rules, both in the backend and on the page's task cards;
- the list logic of the pages: filters, counts, stable sorts, column rules and the tag toggle;
- the integer arithmetic of the countdown, the calendar grid and the duration labels;
- the import converter.

The application has no Pomodoro engine. The timer backend stores only a list of sessions and a settings object, so that is what the model has.

Modules follow the source files:

| module | file |
|---|---|
| `FileManager` | `backend/file_manager.py` |
| `DayTracker` | `backend/routes/daytracker.py` |
| `TimerRoutes` | `backend/routes/timer.py` |
| `CountdownRoutes` | `backend/routes/countdown.py` |
| `ImportData` | `tools/import_data.py` |
| `TaskCard` | `frontend/src/components/TaskCard.jsx` |
| `PageBoard` | `frontend/src/pages/PageBoard.jsx` |
| `AllTasks` | `frontend/src/pages/AllTasks.jsx` |
| `Dashboard` | `frontend/src/pages/Dashboard.jsx` |
| `DayTrackerPage` | `frontend/src/pages/DayTracker.jsx` |
| `CountdownPage` | `frontend/src/pages/Countdown.jsx` |
| `SettingsPage` | `frontend/src/pages/Settings.jsx` |

Shared definitions live in their own modules:
- `Json`: JSON values, and records as maps from keys to values. It also holds the shared id scheme of the logs.
- `Entities`: the typed task and tag objects of the frontend.
- `TaskDates`: the start and end of a task's timestamp.
- `JsTime`: the millisecond units of JavaScript dates.
- `Strings`, `Seqs`, `Sorting` and `Wrappers`: helpers.

How the model stands in for the running program:
- **Mutating stores are classes.** `FileManager.Store` holds the pages and tags, `DayTracker.Tracker` the day files, `TimerRoutes.TimerStore` and `CountdownRoutes.CountdownStore` their logs. Their methods change the fields and state the whole new state.
- **Loops in the source are methods with loops.** Each method is proved equal to a specification function. Lemmas then prove what the source promises about that function.
- **The Dashboard sorts an array in place.** With `Array.prototype.sort`, `getRecentTasks` reorders the page's own array, and the model does the same on an `array`.
- **Outside inputs are parameters.** Today's date, the current time, fresh uuids, date parsing and date arithmetic are all given to the model.

## Model

| member | source | states |
|---|---|---|
| FileManager.TaskDefaults | backend/file_manager.py:129-136 | the defaults of a new task cover exactly title, description, tags, timestamp and status |
| FileManager.NewTask | backend/file_manager.py:129-136 | the new task has exactly those fields and the fresh id; a field the request gives is kept; the others are "", "", [], today and "todo" |
| FileManager.Store.constructor | backend/file_manager.py:22-82 | the store starts with the given pages and tags, as the page files and the main data hold them |
| FileManager.Store.CreateTask | backend/file_manager.py:123-142 | a missing page gives None and changes nothing; otherwise exactly the new task is appended at the end of that page, and every other page, the earlier tasks and the tags stay as they were |
| FileManager.Store.UpdateTask | backend/file_manager.py:145-156 | false and no change when the page or the id is absent; otherwise only the first task with that id has the updates merged over its fields, and the result is true |
| FileManager.Store.DeleteTask | backend/file_manager.py:159-166 | succeeds exactly when the page exists, whether or not a task had the id; the page's tasks become those without the id, in order |
| Json.IndexOfId | backend/file_manager.py:151-152 | the position found is the first record with the id; there is none exactly when no record has it |
| Json.WithoutId | backend/file_manager.py:165 | no remaining record has the id; the rest is an order-preserving subsequence; every record without the id keeps its multiplicity |
| Json.WithoutAbsentId | backend/routes/daytracker.py:121 | deleting an id no record has leaves the list unchanged |
| Json.WithoutUniqueId | backend/routes/countdown.py:80 | deleting the id of exactly one record removes that record and keeps the others in order |
| FileManager.Store.ImportPage | backend/file_manager.py:187-211 | data without a name gives None and no change; the given id is kept unless a page has it, and then a fresh one is taken; the name is kept; the new page is stored under its id |
| FileManager.ImportedTasks | backend/file_manager.py:204-207 | one task per given task; a task with an id is unchanged; a task without one gets a fresh id and nothing else changes |
| TaskDates.ColonForm | backend/file_manager.py:230-231 | in the ':' form the start is the first field and the end the second |
| TaskDates.DashForm | backend/file_manager.py:232-236 | a six-part '-' string longer than 10 characters starts with its first three parts and ends with its last three |
| TaskDates.SingleDate | frontend/src/components/TaskCard.jsx:22-27 | any other timestamp is its own start and end |
| FileManager.MarkOverdue | backend/file_manager.py:227-243 | a task is either unchanged or gets status "overdue"; the latter happens exactly when its end date is non-empty and before today and its status is neither "completed" nor "overdue" |
| FileManager.MarkAllOverdue | backend/file_manager.py:225-243 | every task of a page gets the overdue rule, positions and count unchanged |
| FileManager.MarkAllOverdueIdempotent | backend/file_manager.py:225-243 | a second pass with the same today changes nothing |
| FileManager.MarkPageTasks | backend/file_manager.py:224-243 | the loop rewrites the page's tasks by the overdue rule, and its `updated` flag is set exactly when some task changed |
| FileManager.Store.UpdateOverdueTasks | backend/file_manager.py:214-246 | every page has its tasks rewritten by the overdue rule; page ids and tags stay as they were |
| FileManager.PyTagId | backend/file_manager.py:266 | the tag id of a name has the name's length and no ' ' |
| FileManager.TagIndex | backend/file_manager.py:313-314 | the index found is the first tag with the id; there is none exactly when no tag has it |
| FileManager.IdsOfMember | backend/file_manager.py:256 | an id is among a list's ids exactly when some tag of the list has it |
| FileManager.DictPut | backend/file_manager.py:273 | putting a tag into a dict without duplicate ids keeps ids unique and adds the tag's id; a new id goes at the end |
| FileManager.TagDict | backend/file_manager.py:256 | `{tag['id']: tag ...}` has unique ids, the same ids as the list, one entry per id, only tags of the list |
| FileManager.TagDictOfUnique | backend/file_manager.py:256-277 | a list with unique ids comes back from the dict unchanged |
| FileManager.UniqueIdsCard | backend/file_manager.py:283 | a list with unique ids has as many ids as tags |
| FileManager.AddNewTag | backend/file_manager.py:267-274 | a tag with a new id goes after the existing and earlier added tags, and ids stay unique |
| FileManager.SyncStep | backend/file_manager.py:265-274 | one pass of the loop keeps the loop's facts: unique ids; every added tag has a page name, the slug id, grey colour and an id new to the store |
| FileManager.NewTagsFor | backend/file_manager.py:264-274 | after the loop every page tag name's id is present; each added tag is grey, has a page name and its slug, and has an id that was not there before; ids stay unique |
| FileManager.Store.SyncTagsFromPage | backend/file_manager.py:249-284 | a missing page is 'Page not found' with no change; otherwise existing tags are kept, new ids are added grey at the end, the tag list is rewritten only when something was added, and total_tags is the number of distinct ids |
| FileManager.Store.UpdateTag | backend/file_manager.py:307-328 | 'Tag not found' and no change when no tag has the id; otherwise only the first such tag gets the given name and colour, and the new list is returned |
| TaskCard.GetDateInfo | frontend/src/components/TaskCard.jsx:8-34 | no timestamp gives not overdue, not last day and an empty display; otherwise isOverdue exactly when the end is before today and the task is not completed, and isLastDay exactly when the end is today and it is not completed; never both; a completed task is neither; the display is the start alone when start and end agree, else start, arrow, end |
| TaskCard.DisplayOfColonRange | frontend/src/components/TaskCard.jsx:14-31 | a "start:end" range with different dates is displayed as start, arrow, end |
| TaskCard.DisplayOfEqualColonRange | frontend/src/components/TaskCard.jsx:14-31 | a "day:day" range whose ends agree is displayed as that one day |
| TaskCard.DisplayOfDashRange | frontend/src/components/TaskCard.jsx:16-31 | a six-part dash range of two different days is displayed as the first three parts, arrow, the last three |
| TaskCard.DisplayOfSingleDate | frontend/src/components/TaskCard.jsx:22-31 | a single date is displayed as itself |
| TaskCard.TaskTags | frontend/src/components/TaskCard.jsx:4 | exactly the global tags whose id the task lists, in global order, each as often as it occurs in the global list |
| PageBoard.AddPayload | frontend/src/pages/PageBoard.jsx:69-84 | a blank title adds nothing; otherwise the form is sent with the column as status and the formatted timestamp |
| PageBoard.EditPayload | frontend/src/pages/PageBoard.jsx:125-139 | a blank title or no edited task does nothing; otherwise the edited task's id is sent with the form's title, description and tags, the formatted timestamp and no status |
| PageBoard.FormatThenParse | frontend/src/pages/PageBoard.jsx:73-112 | opening a stored timestamp for edit gives back the start, and the end unless it equals the start |
| PageBoard.EditRewritesDashRange | frontend/src/pages/PageBoard.jsx:106-132 | editing a dash-form range stores it in ':' form with the same start and end |
| PageBoard.ToggleTag | frontend/src/pages/PageBoard.jsx:198-205 | after a toggle an id is present exactly when it was present before or is the toggled id, but not both |
| PageBoard.ToggleKeepsNoDup | frontend/src/pages/PageBoard.jsx:198-205 | a toggle keeps a list free of duplicates |
| PageBoard.ToggleTwiceAbsent | frontend/src/pages/PageBoard.jsx:198-205 | toggling an absent id twice restores the list |
| PageBoard.ToggleTwicePresent | frontend/src/pages/PageBoard.jsx:198-205 | toggling a present id twice moves it to the end |
| PageBoard.ColumnFilter | frontend/src/pages/PageBoard.jsx:212-226 | a column holds exactly the tasks with its status; the Overdue column holds those ending before today and not completed, whatever their status |
| PageBoard.ColumnTasks | frontend/src/pages/PageBoard.jsx:207-247 | the same tasks, those ending today first, each group in its previous order |
| PageBoard.PastDueTodoInTwoColumns | frontend/src/pages/PageBoard.jsx:213-226 | a past-due "todo" task shows in both the To Do and the Overdue column |
| PageBoard.UndatedTaskInOverdueColumn | frontend/src/pages/PageBoard.jsx:213-224 | an open task whose timestamp is the empty string shows in the Overdue column, since "" sorts before any date |
| PageBoard.MoveTarget | frontend/src/pages/PageBoard.jsx:330-341 | no move targets "overdue"; every target is a column |
| PageBoard.EnabledMovesAct | frontend/src/pages/PageBoard.jsx:330-341 | left goes to the previous column, right to the next one only while the index is below the column count minus two, and complete goes to "completed" |
| ImportData.MapStatus | tools/import_data.py:48-49 | a lowercased column id is mapped through the status map, and an unmapped one passes through unchanged; mapped values are fixed points |
| ImportData.MapStatusIdempotent | tools/import_data.py:14-21 | mapping twice is mapping once |
| ImportData.DateToSimple | tools/import_data.py:24-30 | the text before the first 'T', or the whole input when there is no 'T' |
| ImportData.DateToSimpleIdempotent | tools/import_data.py:24-30 | normalising twice is normalising once |
| ImportData.TimestampFor | tools/import_data.py:58-71 | with a truthy whole duration and a readable date the timestamp is "start:end", with the end computed from the duration; any failure keeps the single date |
| ImportData.ImportedRangeReadsBack | tools/import_data.py:62-71 | an imported range reads back on the board as exactly that start and end |
| ImportData.UnparsedDateKeepsSingle | tools/import_data.py:66-71 | a date the arithmetic cannot read keeps the single date |
| ImportData.ThreeDayRange | tools/import_data.py:58-71 | a three-day task from 2026-01-20 becomes "2026-01-20:2026-01-22" |
| ImportData.ConvertTask | tools/import_data.py:51-78 | the task's fields: id (or the fallback), title, description, tags, the computed timestamp and the column's status; priority only when present and meta only when non-empty |
| ImportData.FallbackIdsCollide | tools/import_data.py:52 | two tasks without a truthy id get the same fallback id exactly when the clock reads the same second for both |
| ImportData.ConvertColumn | tools/import_data.py:50-80 | one converted task per task of the column, in order, all with the column's status and each with its own clock reading |
| ImportData.ConvertColumnTasks | tools/import_data.py:50-80 | the inner loop builds exactly the converted column |
| ImportData.ConvertAllCount | tools/import_data.py:47-80 | exactly one output task per input task |
| ImportData.ConvertAllIndex | tools/import_data.py:47-80 | the output is in column order, then in-column order, and task i of column c is converted with the clock reading for that task |
| ImportData.LoadAndConvert | tools/import_data.py:41-86 | the page id falls back to the page's own clock reading only when missing, the name falls back to the id, and the tasks are the converted columns, with the clock read per task |
| DayTracker.Tracker.constructor | backend/routes/daytracker.py:15-33 | the tracker starts with the given day files, one entry list per date |
| DayTracker.Tracker.GetDay | backend/routes/daytracker.py:20-27 | an untracked date gives that date with no entries; otherwise that day's entries |
| DayTracker.Tracker.TrackedDates | backend/routes/daytracker.py:35-44 | exactly the dates with a file, in ascending order |
| DayTracker.Tracker.CreateEntry | backend/routes/daytracker.py:64-90 | a missing date is a 400 with no change; otherwise the entry gets id count+1 and createdAt and is appended to that day |
| Json.Created | backend/routes/daytracker.py:76-80 | the new record has id count+1, createdAt now, and every other field of the body |
| Json.CreateKeepsSequential | backend/routes/daytracker.py:78-83 | appending a created record keeps ids equal to positions plus one |
| Json.SequentialIdsUnique | backend/routes/daytracker.py:78 | in such a log no two records share an id |
| Json.IdReuseAfterDelete | backend/routes/daytracker.py:78-121 | after deleting any record but the last, the last record's id is the id the next create assigns |
| Json.DeleteOnlyHolder | backend/routes/daytracker.py:78-121 | deleting the only holder of an id, when the last record's id is the count, also leads to reuse |
| Json.OnlyOneHasId | backend/routes/daytracker.py:78 | in a sequential log record k is the only one with id k+1 |
| DayTracker.Replacement | backend/routes/daytracker.py:100-111 | the replacement is the body with the path id, the old createdAt (null if none) and updatedAt now |
| DayTracker.UpdateKeepsSequential | backend/routes/daytracker.py:100-111 | replacing an entry keeps the ids sequential |
| DayTracker.Tracker.UpdateEntry | backend/routes/daytracker.py:92-114 | an unknown id is a 404 with no change; otherwise only the first matching entry is replaced |
| DayTracker.Tracker.DeleteEntry | backend/routes/daytracker.py:116-125 | the day keeps the entries without that id, in order, even when none matched |
| DayTracker.Bump | backend/routes/daytracker.py:148-150 | adding minutes to a subject adds the subject once at the end if new, adds the minutes to it alone, and adds them to the total |
| DayTracker.TimedSubjectsNoDup | backend/routes/daytracker.py:147-150 | each subject appears once in the breakdown |
| DayTracker.TimedSubjectsMember | backend/routes/daytracker.py:147-150 | a subject appears exactly when some timed entry has it |
| DayTracker.SubjectTotalAbsent | backend/routes/daytracker.py:147-150 | a subject outside the breakdown has no minutes |
| DayTracker.KeysOf | backend/routes/daytracker.py:147-150 | the breakdown's subjects in order |
| DayTracker.TallyTimed | backend/routes/daytracker.py:144-150 | counting an entry with both times adds its minutes to the total and to its subject |
| DayTracker.TallyUntimed | backend/routes/daytracker.py:140-144 | an entry without both times is counted but adds no minutes |
| DayTracker.TallyEntries | backend/routes/daytracker.py:140-150 | the loop stops exactly when a timed entry's start or end time does not parse; otherwise its tally counts every entry and sums minutes, per subject and in total, over the timed ones |
| DayTracker.Tracker.GetDayStats | backend/routes/daytracker.py:127-160 | a 500 exactly when a timed entry of the day has a start or end time that does not parse; otherwise the day's entry count, total minutes and per-subject minutes describe its entries, and the breakdown sums to the total |
| DayTracker.RangeEntriesCount | backend/routes/daytracker.py:180-184 | the entry count of a range is the sum of its days' counts |
| DayTracker.RangeEntriesStep | backend/routes/daytracker.py:180-193 | the entries of one more date are the earlier ones followed by that day's |
| DayTracker.RangeOfDates | backend/routes/daytracker.py:169-174 | the selected dates are exactly the tracked dates between start and end in string order, still ascending |
| DayTracker.RangeEntriesPrefix | backend/routes/daytracker.py:180-183 | the entries of the first days of a range are among the entries of the whole range |
| DayTracker.Tracker.TallyRange | backend/routes/daytracker.py:180-193 | the loop over the range's days fails exactly when one of their timed entries has a time that does not parse, and otherwise tallies all their entries |
| DayTracker.Tracker.GetRangeStats | backend/routes/daytracker.py:162-205 | a missing start or end is a 400; otherwise the range is exactly the tracked dates in range, ascending, and the result is a 500 exactly when a timed entry of those dates has a time that does not parse, else trackedDays counts the range and the totals describe its entries |
| DayTrackerPage.DaysInMonth | frontend/src/pages/DayTracker.jsx:134-155 | startingDayOfWeek + daysInMonth cells: blanks first, then cell start+k−1 is day k |
| DayTrackerPage.TrackedCells | frontend/src/pages/DayTracker.jsx:168-171 | on a month grid a cell is marked exactly when it is a day whose date is tracked |
| DayTrackerPage.JsRem | frontend/src/pages/DayTracker.jsx:180 | JavaScript's `%` is the Euclidean remainder on non-negatives and in (-b, 0] on negatives, and always differs from the dividend by a multiple of b |
| DayTrackerPage.DurationParts | frontend/src/pages/DayTracker.jsx:177-183 | for a non-negative duration the hours and minutes, minutes below 60, are the whole minutes; a negative duration gives negative hours |
| DayTrackerPage.FormatDurationReadsBack | frontend/src/pages/DayTracker.jsx:177-183 | the label of a non-negative duration reads back as its whole minutes |
| DayTrackerPage.ReadsBackLabel | frontend/src/pages/DayTracker.jsx:181-182 | "Hh Mm" for hours above zero and "Mm" otherwise both read back as hours·60 + minutes |
| DayTrackerPage.ReadsBackMinutes | frontend/src/pages/DayTracker.jsx:182 | "Mm" reads back as M |
| DayTrackerPage.ReadsBackHoursMinutes | frontend/src/pages/DayTracker.jsx:181 | "Hh Mm" reads back as H·60 + M |
| DayTrackerPage.EntryTime | frontend/src/pages/DayTracker.jsx:71-72 | the time sent is the date, 'T', the form's time and ":00" |
| DayTrackerPage.EntryTimeDate | frontend/src/pages/DayTracker.jsx:67-72 | the date part of that time is the entry's date |
| DayTrackerPage.EntriesInOrder | frontend/src/pages/DayTracker.jsx:390 | the same entries, by ascending start time, equal start times in stored order |
| TimerRoutes.TimerStore.Init | backend/routes/timer.py:19-29 | a fresh store has no sessions and the default 25/5/15-minute, 4-session settings |
| TimerRoutes.TimerStore.constructor | backend/routes/timer.py:31-53 | a store over the given sessions and settings |
| TimerRoutes.TimerStore.CreateSession | backend/routes/timer.py:64-81 | the session gets id count+1 and createdAt and is appended; settings unchanged |
| TimerRoutes.TimerStore.DeleteSession | backend/routes/timer.py:83-92 | the sessions without that id remain, in order, even when none matched |
| TimerRoutes.TimerStore.UpdateSettings | backend/routes/timer.py:103-111 | the body is stored and returned as it is; sessions unchanged |
| TimerRoutes.DateOf | backend/routes/timer.py:127 | a session's day is the first 10 characters of its start time, or all of it when shorter |
| TimerRoutes.SessionDatesNoDup | backend/routes/timer.py:125-131 | each day has one group |
| TimerRoutes.SessionDatesMember | backend/routes/timer.py:125-131 | a day has a group exactly when some session falls on it |
| TimerRoutes.GroupDates | backend/routes/timer.py:125-131 | the groups' days in order |
| TimerRoutes.AddSession | backend/routes/timer.py:128-131 | one pass adds the day once at the end if new, adds one session and its duration to that day alone, and to the totals |
| TimerRoutes.GroupsStep | backend/routes/timer.py:128-131 | one pass keeps the groups describing the sessions seen |
| TimerRoutes.RecentSessions | backend/routes/timer.py:134 | at most 10 sessions, latest start first, and none left out starts later than one kept |
| TimerRoutes.TimerStore.TotalTime | backend/routes/timer.py:122 | the `sum` loop fails exactly when some duration is present but neither a number nor a boolean, and otherwise gives the sum of the durations, missing as 0 |
| TimerRoutes.TimerStore.GetStats | backend/routes/timer.py:113-143 | a 500 exactly when some session's duration is present but neither a number nor a boolean; otherwise totalSessions is the count and totalTime the sum of durations (missing as 0); the groups' counts and durations sum to those totals; the recent list as above |
| CountdownRoutes.CountdownStore.constructor | backend/routes/countdown.py:18-28 | a store over the given events |
| CountdownRoutes.CountdownStore.CreateEvent | backend/routes/countdown.py:39-56 | the event gets id count+1 and createdAt and is appended |
| CountdownRoutes.Merged | backend/routes/countdown.py:65-71 | the body's fields override, old fields absent from the body are kept, and the id is the path id |
| CountdownRoutes.MergeKeepsSequential | backend/routes/countdown.py:65-71 | merging keeps the ids sequential |
| CountdownRoutes.CountdownStore.UpdateEvent | backend/routes/countdown.py:58-73 | an unknown id is a 404 with no change; otherwise only the first match is merged |
| CountdownRoutes.CountdownStore.DeleteEvent | backend/routes/countdown.py:75-84 | the events without that id remain, in order, even when none matched |
| CountdownRoutes.Annotated | backend/routes/countdown.py:101-103 | an upcoming event gets daysLeft, the whole days until its target, never negative, and keeps its other fields |
| CountdownRoutes.DaysLeft | backend/routes/countdown.py:101-103 | the days left are the floor of the microseconds left over the microseconds of a day, as `timedelta.days` rounds |
| CountdownRoutes.UpcomingOf | backend/routes/countdown.py:97-103 | no more upcoming events than events, and exactly the annotated events whose target is after now |
| CountdownRoutes.UpcomingStep | backend/routes/countdown.py:97-103 | one more event keeps that membership: it is added, annotated, exactly when its target is after now |
| CountdownRoutes.HalfSecondShortOfDay | backend/routes/countdown.py:99-103 | a target 86399.5 seconds away is upcoming with 0 days left |
| CountdownRoutes.UpcomingDaysLeft | backend/routes/countdown.py:97-103 | every upcoming event has daysLeft ≥ 0 |
| CountdownRoutes.CountdownStore.CollectUpcoming | backend/routes/countdown.py:95-103 | the loop stops exactly when some event's target date is missing or does not parse, and otherwise collects exactly the upcoming events |
| CountdownRoutes.NextFive | backend/routes/countdown.py:106-110 | the first five of the stable sort by daysLeft, so at most five, fewest days left first, ties in log order, and none left out is sooner than one kept |
| CountdownRoutes.ByDaysLeft | backend/routes/countdown.py:106 | `sort` by daysLeft: a permutation, ascending, each daysLeft class in its original order |
| CountdownRoutes.CountdownStore.GetStats | backend/routes/countdown.py:86-113 | a 500 exactly when some event's target date is missing or does not parse; otherwise totalEvents counts all events and upcomingEvents is the next five of the upcoming ones |
| CountdownPage.CalculateTimeLeft | frontend/src/pages/Countdown.jsx:95-109 | diff ≤ 0, the target instant included, gives all zero and past; otherwise whole days, hours below 24, minutes and seconds below 60, together diff rounded down to the second |
| CountdownPage.TimeLeftUnique | frontend/src/pages/Countdown.jsx:103-106 | that breakdown is the only one in range spanning diff to the second |
| AllTasks.FilterTasks | frontend/src/pages/AllTasks.jsx:34-53 | the tasks passing the status test and the case-insensitive search, as an order-preserving subsequence, no longer than the list |
| AllTasks.StepsAreOneFilter | frontend/src/pages/AllTasks.jsx:35-50 | the two successive filters keep exactly what passes both tests |
| AllTasks.ShowAll | frontend/src/pages/AllTasks.jsx:35-52 | status 'all' with a blank query shows every task in order |
| AllTasks.ShownHaveStatus | frontend/src/pages/AllTasks.jsx:38-40 | with a status other than 'all' every task shown has it |
| AllTasks.SearchIgnoresCase | frontend/src/pages/AllTasks.jsx:43-49 | a query and its lowercase form show the same tasks |
| Dashboard.GetStatusCounts | frontend/src/pages/Dashboard.jsx:37-44 | each count is the number of tasks with exactly that status, and the four together are at most the number of tasks |
| Dashboard.CountsBounded | frontend/src/pages/Dashboard.jsx:39-42 | the four counts never exceed the number of tasks |
| Dashboard.BannerIffOverdueTask | frontend/src/pages/Dashboard.jsx:89-97 | the banner shows exactly when some task is "overdue" |
| Dashboard.Plural | frontend/src/pages/Dashboard.jsx:96 | the suffix is "s" exactly when the count is not 1, for the overdue count and for a page's task count alike |
| Dashboard.ByTimeDescending | frontend/src/pages/Dashboard.jsx:33 | the same tasks, latest first, equal times in their previous order |
| Dashboard.RecentTasks | frontend/src/pages/Dashboard.jsx:31-35 | the first min(5, n) tasks of that order: latest first, none left out later than one kept |
| Dashboard.GetRecentTasks | frontend/src/pages/Dashboard.jsx:31-35 | the page's array is left sorted latest first, and the first five are returned |
| SettingsPage.CollapseSpaces | frontend/src/pages/Settings.jsx:63 | replacing white-space runs leaves no white space and never lengthens |
| SettingsPage.CollapseRun | frontend/src/pages/Settings.jsx:63 | a whole run of white space becomes a single '-' |
| SettingsPage.Slug | frontend/src/pages/Settings.jsx:63 | a tag id holds no white space |
| SettingsPage.SlugIdempotent | frontend/src/pages/Settings.jsx:63 | slugging a slug changes nothing |
| SettingsPage.SlugOfWord | frontend/src/pages/Settings.jsx:63 | a name without white space is just lowercased |
| SettingsPage.AddTag | frontend/src/pages/Settings.jsx:59-77 | a blank name adds nothing; otherwise exactly one tag, with the slug id and the name as typed, is appended at the end |
| SettingsPage.AddTagAllowsDuplicate | frontend/src/pages/Settings.jsx:62-68 | adding a name whose slug is taken leaves two tags with that id |
| SettingsPage.DeleteTag | frontend/src/pages/Settings.jsx:107-116 | every tag with the id is removed and the others stay in order; an absent id changes nothing |
| Sorting.SortBy | backend/routes/timer.py:134 | the library sorts as one stable sort: a permutation, ordered by key, and equal keys in their previous order |
| Sorting.TopBy | backend/routes/countdown.py:106-110 | a sort followed by a slice: the first k of the stable sort |
| Strings.Split | frontend/src/components/TaskCard.jsx:14 | `split` on one separator: one more field than the string has separators, and no field holds the separator |
| Strings.Lower | frontend/src/pages/Settings.jsx:63 | lowercasing keeps the length and lowercases each character on its own |

## Left out

- The Pomodoro and stopwatch engine: the code has none. The timer backend stores sessions and a settings object, and the study-timer page only says the timer was removed.
- File storage: JSON files, directories, `os.listdir` and `glob`. Storage is in-memory maps and lists, and every save succeeds.
- Fresh uuids, today's date, the current time, `fromisoformat`, `new Date()` and `timedelta` arithmetic: these are parameters or given functions (`freshId`, `uuids`, `today`, `now`, `addDays`, `duration`, `instantOf`, `timeOf`; `parses`, whether `fromisoformat` accepts a value; the import tool's `pageSecs` and `clock`, its reading of `datetime.utcnow()` for the page and for each task).
- `toISOString`'s shift to UTC in `formatDate`; `formatDate` is a given function.
- Floating point: `totalHours` and its rounding are not modelled; minute totals are whole minutes from the given `duration` function.
- Non-string JSON values where the source would raise (`lower()` or `split` on a number, a record without "id" in a comparison): they read as "" or as not matching.
- JSON numbers are integers: a float `duration` of a timer session, a float `duration_days` that `int()` truncates in the import tool, and the float `totalHours` of the day-tracker stats are not represented.
- CountdownRoutes.CountdownStore.GetStats: only a missing or unparseable target date is a 500; a `TypeError` from comparing a target with a time zone against the naive `now` is not modelled, since `instantOf` is total.
- DayTracker.Tracker.GetDayStats: only an unparseable start or end time is a 500; a `TypeError` from subtracting a naive and an aware time is not modelled, since `duration` is total.
- DayTracker.Tracker.GetRangeStats: the same as GetDayStats for the entries of the range.
- TimerRoutes.TimerStore.GetStats: only a duration `sum` cannot add is a 500; a non-string `startTime`, which makes `[:10]` or the sort raise, reads as "".
- DayTracker.Tracker.CreateEntry: a truthy non-string `date` (a number) reads as "" and is refused, although `if not date_str` lets it through.
- FileManager.TagNamesOf: a string-valued `tags` adds no names, although `set.update` would add its characters; non-string list items are dropped.
- PageBoard.UndatedTaskInOverdueColumn: a missing `timestamp` is read as "", which is `< today`; in the page a missing field is `undefined` and `undefined < today` is false, so only tasks stored with "" behave as stated.
- `int()` on a string with a sign or white space: it is modelled as a failure, so the single date is kept.
- Missing query parameters of the range-stats route arrive as "".
- Unicode case folding: `lower()`/`toLowerCase()` act on ASCII letters only, and white space is the ASCII set.
- Dates that do not parse in the client sorts: `timeOf` and `instantOf` are total, so NaN comparisons are not modelled.
- The other functions of `backend/file_manager.py` (`get_all_pages`, `create_page`, `delete_page`, `get_all_tasks`, `update_page_name` and the main-data reads and writes) are not part of this model: they list, create or rename files and entries without logic of their own.
- `isToday` and `isSelectedDate` of the day tracker: both compare against the clock or the UI state.
- The confirm dialog of `handleDeleteTag` and the result of `api.updateSettings`: the tag list the handler builds is modelled, not the request.
- Dashboard.GetRecentTasks: `Array.prototype.sort` is modelled as a stable reordering of the array, not as a particular algorithm.
- React rendering, effects, modals and the countdown's one-second interval.
- `backend/routes/pages.py`, `tasks.py`, `settings.py`, `backend/app.py`, `start.py` and `frontend/src/api.js`: thin HTTP or process wrappers around the modelled logic.
