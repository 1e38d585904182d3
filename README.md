# Task tracker: a verified model of its core

The task tracker keeps tasks and tags in memory and serves them over HTTP. It
has two interchangeable backends: a Python/FastAPI one (`app/`) and a
JavaScript/Express one (`src/`). A React dashboard shows the tasks, a
GitHub-style contribution graph and header statistics. This project models the
logic of all three parts in Dafny and proves what that logic promises.

- **Records** (`Model`): tasks, subtasks, tags, request bodies, statistics and
  contribution days. Time is an integer: a `Timestamp` is milliseconds since
  the epoch (UTC) and a `Day` is a day number counted from 1970-01-01. A tag
  colour is `#` followed by six hex digits.
- **The store** (`Storage`): the class `InMemoryStorage` with two map fields,
  `tasks` and `tags`. Its CRUD methods change only the key they name. The
  listing filters by archived flag, status and tags (any one matches), sorts
  by `createdAt` descending and slices one page. The statistics and
  contribution reports are computed over an enumeration of the task map. The
  model fixes no particular enumeration order, so every result is proved for
  all orders.
- **Contribution engine** (`Contributions`): the loops that count completions
  per day, emit the day series from the window's end back to its start, and
  track the streaks. `PyStreaks` and `JsStreaks` model the two backends'
  streak loops separately, because the two disagree (see "## Findings").
- **Task rules** (`TaskRules`, `TaskRoutes`, `PyTasks`, `JsTasks`): each
  handler's change to a task, as a function on the task record. Handlers that
  both backends implement the same way live in `TaskRules` and `TaskRoutes`.
  The rules for `completed` and `completedAt` differ between the backends, so
  PATCH and the subtask edit and toggle are modelled once per backend. Each
  route is a method on the store. It returns `Ok` or an error kind
  (`NotFound`, `ValidationError`, `Conflict`) and leaves the store unchanged
  on error.
- **Tag rules** (`Tags`, `PyTags`, `JsTags`): the colour check,
  case-insensitive name uniqueness that skips the tag itself on update, and
  partial update. Lemmas show that a successful create, update or delete keeps
  every stored colour valid and every name unique.
- **Dashboard** (`DashboardStorage`, `ContributionGraph`, `App`, `TagManager`,
  `TaskForm`, `ClientTypes`):
  - the client-side 365-day series, which also counts completed subtasks;
  - the progress percentage, in integer half-up rounding;
  - the graph's colour levels, the week-chunking loop, the month labels and
    the total;
  - the header statistics and their incremental updates;
  - the expand and filter toggles and the task filter;
  - the plan of API calls that saves an edited tag list;
  - the tag manager's and the task form's list edits.

Generated ids, `now` and today's day number are parameters. Each route models
its handler as written. Where a handler is wrong, the corrected definition is
proved beside it, and lemmas relate the two.

## Model

| member | source | states |
|---|---|---|
| Model.DayOf | GCE/todo-backend/app/storage.py:124-127 | The day of a timestamp is the day whose 24-hour span contains it (start-of-day truncation). |
| Model.StartOfWeek | GCE/todo-dashboard/src/components/ContributionGraph.tsx:13-15 | The Sunday on or before a day: it is at most 6 days earlier, and it is a Sunday. |
| Model.NewSubTask | GCE/todo-backend/app/models.py:48-50 | A new subtask keeps its id and title and is not completed. |
| Model.NewTask | GCE/todo-backend/app/models.py:67-77 | A new task is not completed, not archived, has no `completedAt`, and has `createdAt == updatedAt == now`. |
| Model.HexColorExamples | GCE/todo-backend/app/models.py:17 | The colour pattern accepts `#` plus exactly six hex digits of either case. It rejects the empty string, a missing `#`, five digits, a trailing space and a non-hex digit. |
| Text.Trim | GCE/todo-dashboard/src/components/TagManager.tsx:27 | The trimmed string is empty exactly when the input is blank, and otherwise begins and ends with a non-space. |
| Text.Lower | GCE/todo-backend/app/routers/tags.py:35 | Lower-casing keeps the length and maps each ASCII capital to its small letter. |
| Text.LowerIdempotent | GCE/todo-backend/app/routers/tags.py:63 | Lower-casing twice gives the same as lower-casing once. |
| Storage.FilterTasksMatches | GCE/todo-backend/app/storage.py:34-44 | The three chained filters keep exactly the tasks that match all three conditions, in their order. |
| Storage.SortByCreatedDesc | GCE/todo-backend/app/storage.py:46 | Sorting is a permutation of its input. |
| Storage.SortByCreatedDescSorted | GCE/todo-backend/app/storage.py:46 | The sorted list is in descending `createdAt` order and is a permutation of the input. |
| Storage.SortByCreatedDescStable | GCE/todo-backend/app/storage.py:46 | The sort is stable: tasks with equal `createdAt` keep their relative order. |
| Storage.Slice | GCE/todo-backend/app/storage.py:50-52 | Slicing with out-of-range bounds clamps them, as Python and JavaScript slicing do. The result is the elements between the clamped bounds, in order. |
| Storage.PageBounds | GCE/todo-backend/app/storage.py:50-52 | A page never holds more than `limit` tasks. For `page >= 1` it is exactly the elements from `(page-1)*limit`, up to `limit` of them. |
| Storage.PageOfSorted | GCE/todo-backend/app/storage.py:46-52 | A page of a sorted list is itself sorted, and holds only elements of that list. |
| Storage.ListTasksSpec | GCE/todo-backend/app/storage.py:24-54 | A listing has at most `limit` tasks, all from the store and all matching the query, in descending `createdAt` order. `total` counts every matching task before slicing. |
| Storage.TotalPages | GCE/todo-backend/app/routers/tasks.py:42 | `totalPages` is the integer ceiling of `total/limit`: at least 1, with exactly 1 for no tasks. |
| Storage.StatisticsPartition | GCE/todo-backend/app/storage.py:97-105 | `completed + active + archived == total`, and there are at most `total` advanced tasks. |
| Storage.StatisticsMatchListing | GCE/todo-backend/app/storage.py:97-105 | The `active`, `completed` and `archived` statistics equal the totals of the matching listings. |
| Storage.InMemoryStorage.constructor | GCE/todo-backend/app/storage.py:7-22 | A new store holds no tasks and no tags (the sample lists are empty). |
| Storage.InMemoryStorage.GetTask | GCE/todo-backend/app/storage.py:56-57 | The result is present exactly when the id is stored, and it is the stored task. |
| Storage.InMemoryStorage.CreateTask | GCE/todo-backend/app/storage.py:59-61 | The task is stored under its id, and nothing else changes. |
| Storage.InMemoryStorage.UpdateTask | GCE/todo-backend/app/storage.py:63-67 | The write happens only for a stored id. An unknown id returns None with both maps unchanged. |
| Storage.InMemoryStorage.DeleteTask | GCE/todo-backend/app/storage.py:69-73 | The result is true exactly when the id was stored, and only that key is removed. |
| Storage.InMemoryStorage.GetTag | GCE/todo-backend/app/storage.py:78-79 | The result is present exactly when the id is stored, and it is the stored tag. |
| Storage.InMemoryStorage.CreateTag | GCE/todo-backend/app/storage.py:81-83 | The tag is stored under its id, and nothing else changes. |
| Storage.InMemoryStorage.UpdateTag | GCE/todo-backend/app/storage.py:85-89 | The write happens only for a stored id. An unknown id returns None with both maps unchanged. |
| Storage.InMemoryStorage.DeleteTag | GCE/todo-backend/app/storage.py:91-95 | The result is true exactly when the id was stored, and only that key is removed (tasks are untouched). |
| Storage.InMemoryStorage.AllTasks | GCE/todo-backend/app/storage.py:32 | The listed values are the tasks of some duplicate-free enumeration of the map's keys, one per task. |
| Storage.InMemoryStorage.AllTags | GCE/todo-backend/app/storage.py:75-76 | The listed values are the tags of some duplicate-free enumeration of the map's keys, one per tag. |
| Storage.InMemoryStorage.GetAllTasks | GCE/todo-backend/app/storage.py:24-54 | The page is the listing of the enumerated tasks. Its `total` is the number of stored tasks that match, whatever the enumeration order, and it holds at most `limit` tasks. |
| Storage.InMemoryStorage.GetStatistics | GCE/todo-backend/app/storage.py:97-105 | Each counter counts the stored tasks with its property. `total` includes archived tasks, `advanced` ignores archived, and `completed + active + archived == total`. |
| Storage.InMemoryStorage.ReportOrderIndependent | GCE/todo-backend/app/storage.py:122-140 | A report built over any enumeration of the task map describes the store itself: the series and the total count stored tasks. |
| Storage.InMemoryStorage.PyGetContributions | GCE/todo-backend/app/routers/stats.py:23-37 | `days` outside 1..365 is a validation error. Otherwise the report covers the window, and `currentStreak` is the leading positive run. |
| Storage.InMemoryStorage.JsGetContributions | GCE/todo-backend/src/routes/stats.js:12-22 | With no bound on `days`, the report covers the window, and `currentStreak` follows the JavaScript streak loop. |
| Storage.InMemoryStorage.ApplyToTask | GCE/todo-backend/app/routers/tasks.py:89-128 | The read-change-write pattern of every task handler. An unknown id is NotFound. Otherwise the result is the change applied to the stored task, and the store is written only on success. |
| Contributions.Window | GCE/todo-backend/app/storage.py:110-120 | The end defaults to today. The start defaults to `end - (days-1)`, and explicit dates are used as given. |
| Contributions.CountCompletions | GCE/todo-backend/app/storage.py:122-128 | Only days inside the window get an entry, and each day's entry is the number of tasks completed that day. |
| Contributions.BuildSeries | GCE/todo-backend/app/storage.py:130-138 | The series has `end - start + 1` entries (none if start > end). Entry i is the day `end - i` with its count. |
| Contributions.ContributionCounts | GCE/todo-backend/app/storage.py:122-138 | The count sequence has one entry per day of the window. Entry i is the number of tasks completed on `end - i`. |
| Contributions.Series | GCE/todo-backend/app/storage.py:122-138 | The series runs strictly down by one day from `end`, and its counts are the completions per day. |
| Contributions.SumContributionCounts | GCE/todo-backend/app/storage.py:140 | `totalContributions` (the sum of the counts) is the number of tasks completed inside the window. |
| Contributions.TrailingRun | GCE/todo-backend/app/storage.py:146-151 | `temp_streak`: the length of the run of positive counts ending at the last element, bounded by a zero or the start. |
| Contributions.LeadingRun | GCE/todo-backend/app/storage.py:153-157 | The current streak: the leading positive run, ended by the first zero. |
| Contributions.LongestRun | GCE/todo-backend/app/storage.py:142-151 | The longest streak is at most the length of the series. |
| Contributions.LongestRunIsMaximum | GCE/todo-backend/app/storage.py:146-151 | The longest streak is the length of some positive run, and no positive run is longer. |
| Contributions.NoCompletionsNoStreak | GCE/todo-backend/src/storage.js:144-162 | An all-zero window has longest streak 0 and current streak 0, both as the Python loop counts it (the leading run) and as the JavaScript loop and its correction step count it. |
| Contributions.LeadingRunAtMostLongest | GCE/todo-backend/app/storage.py:142-157 | The current streak never exceeds the longest streak. |
| Contributions.PyStreaks | GCE/todo-backend/app/storage.py:142-157 | The two Python loops yield the longest positive run and the leading positive run. |
| Contributions.JsStreaks | GCE/todo-backend/src/storage.js:144-162 | The JavaScript loop yields the longest positive run, and the current streak its correction step defines. |
| Contributions.JsCurrentStreakAgrees | GCE/todo-backend/src/storage.js:144-162 | When the newest day is positive and the oldest is zero, or every day is positive, the JavaScript current streak equals the Python one. |
| Contributions.JsCurrentStreakIsRun | GCE/todo-backend/src/storage.js:148-162 | The JavaScript current streak is always the length of some positive run, so it is at most the longest streak. |
| Contributions.JsCurrentStreakCounterexample | GCE/todo-backend/src/storage.js:160-162 | For counts [1,0,1,1] the JavaScript current streak is 2, the oldest run, while the leading run is 1. |
| Contributions.JsLoopCurrentNoCloser | GCE/todo-backend/src/storage.js:148-158 | If no day without completions follows a day with some, the loop leaves `currentStreak` at 0. |
| Contributions.JsLoopCurrentFirstCloser | GCE/todo-backend/src/storage.js:148-158 | When day z is the first day without completions that follows a day with some, the loop's `currentStreak` is the positive run that ends just before z. |
| Contributions.JsCurrentStreakWithoutTodayIsFirstClosed | GCE/todo-backend/src/storage.js:144-162 | For every window whose newest day has no completion, the JavaScript current streak is the first run that a day without completions closes. It is 0 when no day closes a run. |
| Contributions.JsCurrentStreakWithoutToday | GCE/todo-backend/src/storage.js:153-155 | For counts [0,1,0] the JavaScript current streak is 1 although the newest day is 0. |
| Contributions.PyContributions | GCE/todo-backend/app/storage.py:107-165 | The Python report: window length, dates descending by one, counts per day, total equal to completions in the window, longest run and leading run. |
| Contributions.JsContributions | GCE/todo-backend/src/storage.js:101-168 | The JavaScript report: the same series and totals, the longest run, and the JavaScript current streak. |
| TaskRules.FirstIndex | GCE/todo-backend/app/routers/tasks.py:247-254 | The index of the first subtask with the id; absent exactly when no subtask has it. |
| TaskRules.FindSubTask | GCE/todo-backend/app/routers/tasks.py:247-254 | The for/break scan finds the first subtask with the id, or none. |
| TaskRules.MissingTag | GCE/todo-backend/app/routers/tasks.py:63-71 | The scan reports no missing tag exactly when every tag id is stored. A reported id is requested and not stored. |
| TaskRules.CreateTask | GCE/todo-backend/app/routers/tasks.py:73-85 | The task takes the request's title, type and tags, with the defaults of a new task. A simple task has no subtasks. An advanced one has one new, not completed subtask per requested title, in order. |
| TaskRules.CreateTaskConsistent | GCE/todo-backend/app/routers/tasks.py:73-85 | A created task has `completedAt` set exactly when it is completed, and no subtask is completed. |
| TaskRules.Toggle | GCE/todo-backend/app/routers/tasks.py:152-159 | Toggle flips `completed` and sets `completedAt` exactly when the new value is true. Title, tags, subtasks, archived flag and identity are kept. |
| TaskRules.ToggleTwice | GCE/todo-backend/app/routers/tasks.py:152-159 | A toggled task is consistent, and toggling twice restores `completed`. From an open consistent task, two toggles restore the task except `updatedAt`. |
| TaskRules.SetArchived | GCE/todo-backend/app/routers/tasks.py:176-181 | Archive and restore set `archived` and `updatedAt` and change nothing else. |
| TaskRules.ArchiveRestore | GCE/todo-backend/app/routers/tasks.py:176-200 | Archiving is idempotent. Restoring an archived task that was live gives it back, except `updatedAt`. |
| TaskRules.AddSubTask | GCE/todo-backend/app/routers/tasks.py:215-230 | Fails exactly for a simple task, with a validation error. Otherwise it appends one new, not completed subtask and keeps `completed` and `completedAt`. |
| TaskRules.DeleteSubTask | GCE/todo-backend/app/routers/tasks.py:334-350 | Fails only with NotFound. On success it keeps the subtasks without the id and does not recompute `completed`. |
| TaskRules.DeleteSubTaskSpec | GCE/todo-backend/app/routers/tasks.py:334-345 | Fails exactly when no subtask has the id. On success the list is shorter, none of it has the id, and every other subtask is kept. |
| TaskRules.EditSubTask | GCE/todo-backend/app/routers/tasks.py:249-253 | Only supplied subtask fields change, and the id is kept. |
| TaskRules.FlipSubTask | GCE/todo-backend/app/routers/tasks.py:294-295 | Only a subtask's `completed` flips. |
| TaskRules.CompleteExactly | GCE/todo-backend/app/routers/tasks.py:310-317 | `completed` becomes "non-empty and all subtasks done", and `completedAt` is None when not complete. `completedAt` is kept for an already-complete task unless re-stamping is asked for, and is `now` otherwise. |
| TaskRoutes.GetTaskRoute | GCE/todo-backend/app/routers/tasks.py:47-56 | The stored task, or NotFound exactly when the id is unknown. |
| TaskRoutes.CreateTaskRoute | GCE/todo-backend/app/routers/tasks.py:59-86 | A validation error, with no store change, exactly when a tag id is unknown. Otherwise the created task is stored under its id. |
| TaskRoutes.DeleteTaskRoute | GCE/todo-backend/app/routers/tasks.py:131-139 | NotFound exactly when the id is unknown. Only that key is removed. |
| TaskRoutes.ToggleTaskRoute | GCE/todo-backend/app/routers/tasks.py:142-163 | NotFound for an unknown id. Otherwise the toggled task is stored and returned. |
| TaskRoutes.SetArchivedRoute | GCE/todo-backend/app/routers/tasks.py:166-201 | NotFound for an unknown id. Otherwise the archived or restored task is stored and returned. |
| TaskRoutes.AddSubTaskRoute | GCE/todo-backend/app/routers/tasks.py:205-231 | NotFound for an unknown id, and a validation error (store unchanged) for a simple task. Otherwise the task with the new subtask is stored. |
| TaskRoutes.DeleteSubTaskRoute | GCE/todo-backend/app/routers/tasks.py:324-351 | NotFound for an unknown task or subtask id, with the store unchanged. Otherwise the filtered task is stored. |
| PyTasks.PyApplyUpdate | GCE/todo-backend/app/routers/tasks.py:112-124 | Only supplied fields change. `completedAt` is stamped only on a false-to-true change, cleared on `completed=False`, and otherwise kept. `updatedAt` is refreshed. |
| PyTasks.PyApplyUpdateConsistent | GCE/todo-backend/app/routers/tasks.py:112-122 | PATCH keeps "`completedAt` set exactly when completed". |
| PyTasks.PyCompleteIfDone | GCE/todo-backend/app/routers/tasks.py:268-272 | When all of a non-empty subtask list are done, the task becomes completed, stamped only if it was not already. Otherwise `completed` and `completedAt` are kept, never set to false. |
| PyTasks.PyUpdateSubTask | GCE/todo-backend/app/routers/tasks.py:247-273 | NotFound exactly when no subtask has the id. |
| PyTasks.PyUpdateSubTaskSpec | GCE/todo-backend/app/routers/tasks.py:247-273 | Only the first matching subtask is edited. A completed task stays completed, all done implies completed, and consistency is kept. |
| PyTasks.PyToggleSubTask | GCE/todo-backend/app/routers/tasks.py:292-317 | NotFound exactly when no subtask has the id. |
| PyTasks.PyToggleSubTaskSpec | GCE/todo-backend/app/routers/tasks.py:292-317 | Only the first matching subtask flips. Afterwards `completed` holds exactly when the list is non-empty and all done, and consistency is kept. |
| PyTasks.PyToggleSubTaskTwice | GCE/todo-backend/app/routers/tasks.py:292-317 | Toggling a subtask twice restores the subtask list. |
| PyTasks.ListTasksRoute | GCE/todo-backend/app/routers/tasks.py:22-44 | A validation error exactly when `page < 1` or `limit` is outside 1..100. Otherwise at most `limit` tasks, with `total` counting the matching stored tasks and `totalPages` its ceiling over `limit`. |
| PyTasks.UpdateTaskRoute | GCE/todo-backend/app/routers/tasks.py:89-128 | NotFound for an unknown id, and a validation error for an unknown tag. Otherwise the Python PATCH is applied and stored. |
| PyTasks.UpdateSubTaskRoute | GCE/todo-backend/app/routers/tasks.py:234-276 | NotFound for an unknown task or subtask. Otherwise the Python subtask edit is stored. |
| PyTasks.ToggleSubTaskRoute | GCE/todo-backend/app/routers/tasks.py:279-321 | NotFound for an unknown task or subtask. Otherwise the Python subtask toggle is stored. |
| JsTasks.JsTotalPages | GCE/todo-backend/src/routes/tasks.js:35 | 1 when there are no tasks. For `limit >= 1`, the same as the Python ceiling. For `limit == 0`, no number (Infinity). For a negative `limit`, a non-positive ceiling. |
| JsTasks.ListTasksRoute | GCE/todo-backend/src/routes/tasks.js:8-38 | With no validation, at most `limit` tasks (for `limit >= 0`), `total` counting the matching tasks, and the JavaScript `totalPages`. |
| JsTasks.JsApplyUpdate | GCE/todo-backend/src/routes/tasks.js:123-132 | Only supplied fields change. A supplied `completed` re-stamps `completedAt` (now if true, None if false), even for a task already completed. `updatedAt` is refreshed. |
| JsTasks.JsApplyUpdateConsistent | GCE/todo-backend/src/routes/tasks.js:123-132 | PATCH leaves the task consistent when `completed` is supplied or the task was consistent. |
| JsTasks.UpdateBackendsAgree | GCE/todo-backend/src/routes/tasks.js:123-132 | The two PATCH rules agree except on `completed=true` for a completed task, where only JavaScript re-stamps `completedAt`. |
| JsTasks.UpdateTaskRoute | GCE/todo-backend/src/routes/tasks.js:96-136 | NotFound for an unknown id, and a validation error for an unknown tag. Otherwise the JavaScript PATCH is applied and stored. |
| JsTasks.JsCompleteAsWritten | GCE/todo-backend/src/routes/tasks.js:278-289 | `completed` becomes "non-empty and all done". `completedAt` is stamped only on newly completing and otherwise kept, even when `completed` turns false. |
| JsTasks.JsUpdateSubTaskAsWritten | GCE/todo-backend/src/routes/tasks.js:260-289 | NotFound exactly when no subtask has the id. On success `completed` equals "non-empty and all done". |
| JsTasks.JsUpdateSubTaskStaleStamp | GCE/todo-backend/src/routes/tasks.js:278-289 | A concrete consistent task whose only subtask is reopened ends `completed=false` with the old `completedAt` still set. |
| JsTasks.JsUpdateSubTask | GCE/todo-backend/src/routes/tasks.js:260-289 | The corrected subtask PATCH is NotFound exactly when no subtask has the id. |
| JsTasks.JsUpdateSubTaskSpec | GCE/todo-backend/src/routes/tasks.js:260-289 | The corrected subtask PATCH edits only the first match and sets `completed` exactly when all are done. It keeps consistency, and differs from the as-written rule only by clearing the stale `completedAt`. |
| JsTasks.JsToggleSubTask | GCE/todo-backend/src/routes/tasks.js:307-331 | NotFound exactly when no subtask has the id. |
| JsTasks.JsToggleSubTaskSpec | GCE/todo-backend/src/routes/tasks.js:307-331 | Only the first match flips. `completed` holds exactly when the list is non-empty and all done. `completedAt` is now when completed and None otherwise, re-stamped on every toggle. |
| JsTasks.UpdateSubTaskRoute | GCE/todo-backend/src/routes/tasks.js:249-293 | NotFound for an unknown task or subtask. Otherwise the as-written subtask edit is stored. |
| JsTasks.ToggleSubTaskRoute | GCE/todo-backend/src/routes/tasks.js:296-335 | NotFound for an unknown task or subtask. Otherwise the JavaScript subtask toggle is stored. |
| Tags.FindConflict | GCE/todo-backend/app/routers/tags.py:60-70 | The scan reports a conflict exactly when another tag's name equals the name ignoring case. The tag being updated is skipped. |
| Tags.CreateTag | GCE/todo-backend/src/routes/tags.js:27-56 | An invalid colour is a validation error, checked before the name. A name equal to a stored one ignoring case is a Conflict. Otherwise the new tag has the given fields and `createdAt == updatedAt == now`. |
| Tags.CreateTagPreserves | GCE/todo-backend/app/routers/tags.py:29-46 | A successful create keeps every colour valid and every name unique ignoring case. |
| Tags.ApplyTagUpdate | GCE/todo-backend/app/routers/tags.py:72-81 | Only supplied name and colour change. Id and `createdAt` are kept, and `updatedAt` is refreshed. |
| Tags.ApplyTagUpdatePreserves | GCE/todo-backend/app/routers/tags.py:49-83 | A valid update that passed the conflict check keeps colours valid and names unique. |
| Tags.GetTagRoute | GCE/todo-backend/app/routers/tags.py:17-26 | The stored tag, or NotFound exactly when the id is unknown. |
| Tags.DeleteTagRoute | GCE/todo-backend/app/routers/tags.py:86-94 | NotFound exactly when the id is unknown. Only that tag is removed, and tasks referencing it are untouched. |
| Tags.DeleteTagPreserves | GCE/todo-backend/app/routers/tags.py:86-94 | Deleting a tag keeps colours valid and names unique. |
| PyTags.PyUpdateTag | GCE/todo-backend/app/routers/tags.py:49-83 | A supplied invalid colour is a validation error, because the body is validated first. An unknown id is NotFound. Success exactly when the supplied name collides with no other tag, and the result is the partial update. A tag may be renamed to a case variant of its own name. |
| PyTags.PyUpdateTagPreserves | GCE/todo-backend/app/routers/tags.py:49-83 | A successful Python tag update keeps colours valid and names unique. |
| PyTags.CreateTagRoute | GCE/todo-backend/app/routers/tags.py:29-46 | The create rule's result. The store gains the tag only on success. |
| PyTags.UpdateTagRoute | GCE/todo-backend/app/routers/tags.py:49-83 | The Python update rule's result. The store is written only on success. |
| JsTags.JsUpdateTagAsWritten | GCE/todo-backend/src/routes/tags.js:59-107 | NotFound for an unknown id. The colour is checked only when non-empty, and the name conflict only when the name is non-empty. Any supplied field, empty ones included, is stored. |
| JsTags.JsUpdateTagDuplicateEmptyName | GCE/todo-backend/src/routes/tags.js:83-103 | A concrete store where renaming a tag to "" succeeds and leaves two tags both named "". |
| JsTags.JsUpdateTagEmptyColor | GCE/todo-backend/src/routes/tags.js:73-80 | A concrete store where setting colour "" succeeds and stores a colour that fails the pattern. |
| JsTags.JsUpdateTag | GCE/todo-backend/src/routes/tags.js:59-107 | The corrected PATCH checks every supplied colour and name. It succeeds exactly when the id is stored, the colour is valid and the name is free. |
| JsTags.JsUpdateTagPreserves | GCE/todo-backend/src/routes/tags.js:59-107 | A successful corrected update keeps colours valid and names unique. |
| JsTags.JsUpdateTagAgrees | GCE/todo-backend/src/routes/tags.js:59-107 | As written and corrected agree unless an empty name or colour is supplied. For a stored id the corrected rule equals the Python one. Both fail on an unknown id. |
| JsTags.CreateTagRoute | GCE/todo-backend/src/routes/tags.js:27-56 | The create rule's result. The store gains the tag only on success. |
| JsTags.UpdateTagRoute | GCE/todo-backend/src/routes/tags.js:59-107 | The as-written JavaScript update rule's result. The store is written only on success. |
| DashboardStorage.GetContributionData | GCE/todo-dashboard/src/utils/storage.ts:42-80 | Exactly 365 entries, from `today - 364` ascending to today. Each count is the total weight of the tasks completed that day. |
| DashboardStorage.DayTotalCoversCompletions | GCE/todo-dashboard/src/utils/storage.ts:53-73 | Each task completed that day adds 1, and an advanced one adds 1 per completed subtask too. So the client count is at least the backend's, and equal when no task is advanced. |
| DashboardStorage.RoundPercent | GCE/todo-dashboard/src/utils/storage.ts:87-88 | `Math.round(c/n*100)` in integers: the p with `p - 1/2 <= 100c/n < p + 1/2`, at most 100. |
| DashboardStorage.RoundPercentMonotone | GCE/todo-dashboard/src/utils/storage.ts:87-88 | More completed subtasks never give a lower percentage. |
| DashboardStorage.RoundPercentEnds | GCE/todo-dashboard/src/utils/storage.ts:87-88 | No completed subtasks give 0, and all completed give 100. |
| DashboardStorage.TaskProgress | GCE/todo-dashboard/src/utils/storage.ts:82-89 | A simple task is 100 or 0 by `completed`. An advanced task without subtasks is 0. Otherwise it is the rounded percentage of completed subtasks, always in 0..100. |
| ContributionGraph.Level | GCE/todo-dashboard/src/components/ContributionGraph.tsx:17-23 | Colour level 0 for 0, 1 for 1, 2 for 2-3, 3 for 4-5 and 4 for 6 or more. |
| ContributionGraph.LevelMonotone | GCE/todo-dashboard/src/components/ContributionGraph.tsx:17-23 | A larger count never gets a lighter level. |
| ContributionGraph.DataMap | GCE/todo-dashboard/src/components/ContributionGraph.tsx:30 | Every key comes from the data, and the last entry's date maps to its count. |
| ContributionGraph.DataMapLastWins | GCE/todo-dashboard/src/components/ContributionGraph.tsx:30 | A date with no later duplicate maps to its entry's count, as in building a Map from pairs. |
| ContributionGraph.Cells | GCE/todo-dashboard/src/components/ContributionGraph.tsx:32-38 | One cell per day from start to end, each with the map's count or 0. |
| ContributionGraph.ChunkSpec | GCE/todo-dashboard/src/components/ContributionGraph.tsx:36-43 | Chunking loses and reorders nothing. Closed weeks have 7 days, and the open week fewer. |
| ContributionGraph.CloseFlatten | GCE/todo-dashboard/src/components/ContributionGraph.tsx:40-43 | Closing the last partial week keeps the concatenation equal to the cells. |
| ContributionGraph.CloseSizes | GCE/todo-dashboard/src/components/ContributionGraph.tsx:40-43 | No week is empty, each has at most 7 days, and all but the last have 7. |
| ContributionGraph.WeeksSpec | GCE/todo-dashboard/src/components/ContributionGraph.tsx:26-47 | The weeks concatenate to every day from the start through today once, in order. They are non-empty with at most 7 days, full except the last, and week i begins on `start + 7i`. |
| ContributionGraph.BuildWeeks | GCE/todo-dashboard/src/components/ContributionGraph.tsx:26-47 | The `while` loop with its push-at-7, close-past-today and break rules computes exactly those weeks. |
| ContributionGraph.WeekdayRepeats | GCE/todo-dashboard/src/components/ContributionGraph.tsx:15 | Days 7 apart fall on the same weekday. |
| ContributionGraph.GraphWeeks | GCE/todo-dashboard/src/components/ContributionGraph.tsx:13-47 | The start is the Sunday on or before `today - 364`, and every week begins on a Sunday. The weeks cover start through today, with the counts of the data. |
| ContributionGraph.LabelsFinal | GCE/todo-dashboard/src/components/ContributionGraph.tsx:66-77 | Labels name their week's month, and positions strictly increase. Consecutive labels name different months, and week 0 is labelled. An inner week is labelled exactly when its month differs from the previous week's. |
| ContributionGraph.MonthLabels | GCE/todo-dashboard/src/components/ContributionGraph.tsx:66-77 | The forEach loop over weeks with `lastMonth` yields labels with exactly those properties. |
| ContributionGraph.GraphShowsTotal | GCE/todo-dashboard/src/components/ContributionGraph.tsx:79 | For duplicate-free data inside the graph's range, the cells sum to `totalContributions`. |
| App.LoadStats | GCE/todo-dashboard/src/App.tsx:65-72 | `total` is the live list's length and `archived` the archived list's. `completed`, `active` and `advanced` count the live tasks with that property. `completed + active == total` and `0 <= advanced <= total`. |
| App.LoadStatsIsStatsOf | GCE/todo-dashboard/src/App.tsx:54-72 | Counting the two fetched listings is counting the store by the combined conditions. |
| App.LoadStatsMatchesBackend | GCE/todo-dashboard/src/App.tsx:65-72 | The header agrees with the backend's statistics on completed, active and archived. Its `total` plus `archived` is the backend's total, and its `advanced` is at most the backend's. |
| App.AddTaskStats | GCE/todo-dashboard/src/App.tsx:96-101 | Adding a task adds 1 to `total` and `active`, and to `advanced` exactly for an advanced task. Other counters are unchanged, and the balance is kept. |
| TaskRules.FirstWhere | GCE/todo-dashboard/src/App.tsx:134 | The search (`find` here, and the subtask loop with `break`) returns the first position that satisfies the test, or none exactly when no element does. |
| App.DeleteTaskStats | GCE/todo-dashboard/src/App.tsx:134-147 | No change for an unknown id. An archived task only lowers `archived`. A live one lowers `total`, exactly one of `completed` and `active`, and `advanced` exactly when it is advanced. The balance is kept. |
| App.DeleteUndoesAdd | GCE/todo-dashboard/src/App.tsx:96-147 | Deleting a freshly added task undoes its statistics delta. |
| App.AddMatchesRecount | GCE/todo-dashboard/src/App.tsx:96-101 | After adding a new open task, the delta equals recounting the list. |
| App.DeleteMatchesRecount | GCE/todo-dashboard/src/App.tsx:134-147 | For unique ids, the delete delta equals recounting the filtered list. |
| App.ToCreate | GCE/todo-dashboard/src/App.tsx:86-94 | The create request carries the title, type and tags, plus the subtask titles of an advanced task, in order. |
| App.SubmittedTaskMatchesDelta | GCE/todo-dashboard/src/App.tsx:84-105 | A submitted form, once created, changes the recounted statistics exactly by the add delta. |
| App.ToggleExpanded | GCE/todo-dashboard/src/App.tsx:221-231 | Flips membership of the one id and leaves the others unchanged. |
| App.ToggleExpandedTwice | GCE/todo-dashboard/src/App.tsx:221-231 | Toggling the same id twice is the identity. |
| App.FilteredTasks | GCE/todo-dashboard/src/App.tsx:239-248 | The client filter keeps, in order, exactly the tasks the backend query with the same view, status and tags keeps. |
| App.FindTag | GCE/todo-dashboard/src/App.tsx:189-190 | The tag with the id from the current list, or none exactly when the id is absent. |
| App.DeletedIdsSpec | GCE/todo-dashboard/src/App.tsx:182-186 | The deleted ids are exactly the current ids absent from the new list. |
| App.StepFor | GCE/todo-dashboard/src/App.tsx:189-211 | A tag is created exactly when its id is new. It is updated exactly when it exists with a different name or colour, and kept otherwise. |
| App.PlanTagUpdate | GCE/todo-dashboard/src/App.tsx:177-213 | The plan deletes exactly the removed ids and has one call per new tag, in the new list's order, each chosen by that rule. |
| ClientTypes.ToggleInList | GCE/todo-dashboard/src/App.tsx:233-237 | A present id is filtered out and an absent one appended. The id's membership flips, and every other id keeps its membership. |
| ClientTypes.ToggleAbsentTwice | GCE/todo-dashboard/src/App.tsx:233-237 | Toggling an absent id twice restores the list. |
| ClientTypes.TogglePresentTwice | GCE/todo-dashboard/src/components/TaskForm.tsx:60-64 | Toggling a present id twice in a duplicate-free list keeps the same ids without duplicates, but moves the id to the end. |
| ClientTypes.ToggleTwiceReorders | GCE/todo-dashboard/src/components/TaskForm.tsx:60-64 | For ["a","b"], toggling "a" twice gives ["b","a"]. |
| TagManager.Open | GCE/todo-dashboard/src/components/TagManager.tsx:13-24 | The manager opens on the given tags, with no edit in progress and the valid default colour. |
| TagManager.AddTag | GCE/todo-dashboard/src/components/TagManager.tsx:26-33 | A blank name changes nothing. Otherwise one tag with the trimmed name and the current colour is appended, and the input is cleared. |
| TagManager.DeleteTag | GCE/todo-dashboard/src/components/TagManager.tsx:35-37 | Exactly the tags with the id are removed, and the rest keep their order. |
| TagManager.Rename | GCE/todo-dashboard/src/components/TagManager.tsx:46-50 | Only matching tags get the new name. Ids and colours are kept, and the length is unchanged. |
| TagManager.Recolor | GCE/todo-dashboard/src/components/TagManager.tsx:55 | Only matching tags get the new colour. Ids and names are kept, and the length is unchanged. |
| TagManager.SaveEditing | GCE/todo-dashboard/src/components/TagManager.tsx:44-52 | No change without an editing id or with a blank name. Otherwise the matching tag gets the trimmed name and the edit ends. |
| TagManager.UpdateTagColor | GCE/todo-dashboard/src/components/TagManager.tsx:54-56 | Only the matching tag's colour changes. |
| TagManager.AddTagKeepsNames | GCE/todo-dashboard/src/components/TagManager.tsx:26-33 | Adding keeps every tag name non-blank. |
| TagManager.SaveEditingKeepsNames | GCE/todo-dashboard/src/components/TagManager.tsx:44-52 | Saving an edit keeps every tag name non-blank. |
| TagManager.UpdateTagColorKeepsNames | GCE/todo-dashboard/src/components/TagManager.tsx:54-56 | Recolouring keeps every tag name non-blank. |
| TagManager.DeleteTagKeepsNames | GCE/todo-dashboard/src/components/TagManager.tsx:35-37 | Deleting keeps every tag name non-blank. |
| TaskForm.Submit | GCE/todo-dashboard/src/components/TaskForm.tsx:26-45 | Nothing for a blank title. Otherwise a task with the trimmed, non-empty title, not completed, with the picked tags. It carries the subtask list exactly when it is advanced. |
| TaskForm.AddSubTask | GCE/todo-dashboard/src/components/TaskForm.tsx:47-54 | Blank input changes nothing. Otherwise one open subtask with the trimmed title is appended and the input cleared. |
| TaskForm.AddKeepsClean | GCE/todo-dashboard/src/components/TaskForm.tsx:47-54 | Adding keeps every subtask titled and open. |
| TaskForm.RemoveSubTask | GCE/todo-dashboard/src/components/TaskForm.tsx:56-58 | Only subtasks with the id are removed, and the others are kept in order. |
| TaskForm.RemoveKeepsClean | GCE/todo-dashboard/src/components/TaskForm.tsx:56-58 | Removing keeps every subtask titled and open. |

## Left out

- Calendar and timezones: date strings, `strptime`/`strftime`, date-fns, and the mix of local `setHours` and UTC `toISOString` in storage.js:119-122 are not modelled. A date is a day number, and "month of a day" is a parameter of the month-label loop.
- Ids and the clock: UUIDs, `datetime.utcnow()` and `new Date()` are parameters. Each handler reads one `now`, but several handlers read the clock more than once. Python's `Task` takes `createdAt` and `updatedAt` from two separate factories (app/models.py:73,75). The PATCH and toggle handlers stamp `completedAt` and `updatedAt` with separate calls (app/routers/tasks.py:120,124 and 154,157; src/routes/tasks.js:123,131, 286,288 and 329,330). So `Model.NewTask`'s `createdAt == updatedAt` holds for Python only under this abstraction. Python datetimes carry microseconds while a `Timestamp` is milliseconds, so ties in the `createdAt` sort may be broken differently from Python.
- The HTTP layer: server setup, CORS, the 500 handler, status codes and JSON bodies. Errors are the three kinds above.
- The frameworks' request validation is modelled only where it decides a result: paging in the Python listing, `days` in the Python contributions route, and the colour pattern. Parse failures of JSON, query strings and `parseInt` (NaN) are not modelled.
- Request bodies outside the model's types:
  - `POST /tasks` in JavaScript (src/routes/tasks.js:55-88) checks neither `type` nor `title`, so it stores any type and a missing title. Python answers 422 for these (the `Literal` of app/models.py:70). The model's `TaskCreate` always holds a title and one of the two kinds, so neither case is modelled.
  - An explicit JSON `null` in a PATCH body is not modelled: the model's `Option` fields read it as "not supplied". Python assigns it through `model_dump(exclude_unset=True)`, and `Task(**task_dict)` then fails with a 500 (app/routers/tasks.py:112-127). JavaScript's `!== undefined` tests store the null (src/routes/tasks.js:125-132).
- Storage.InMemoryStorage.JsGetContributions: a negative or huge `days` is accepted, as in JavaScript, but NaN is not modelled.
- Case folding covers ASCII letters only. Python's `lower()` and JavaScript's `toLowerCase()` on other scripts are not modelled.
- Map iteration order: dict and Map insertion order is not modelled. The listings are proved for every enumeration order, and the report of the Python streaks is fixed by the series, which does not depend on that order.
- Floating point: `Math.round` and `ceil(total/limit)` are integer half-up rounding and the integer ceiling. JavaScript's `Infinity` for `limit == 0` is `None`.
- JavaScript aliasing: the shallow copies of subtask objects in the JavaScript subtask handlers are modelled with value semantics.
- App.LoadStats: the dashboard fetches at most 50 tasks per listing (its default `limit`), so the model matches the backend only while each listing fits one page. The lemmas filter without paging.
- App.PlanTagUpdate: the server's responses to the planned calls, including the ids of created tags, are not modelled. The state after saving is the order of `newTags`, as the plan shows.
- React machinery: `useState`, `useEffect`, `Promise.all`, await order, error banners and rendering are not modelled. Only the pure state updates are.
- TagManager `startEditing` only copies a tag's id and name into the editing fields, so the model takes `editingId` and `editingName` as state.
- localStorage I/O (`loadTasks`, `saveTasks`, `loadTags`, `saveTags`), the HTTP client `api.ts`, the rendering component `TaskItem.tsx` and the type declarations `types/index.ts` are not part of this model.
- ClientTypes.ToggleInList: toggling twice restores only a list where the id was absent. For a present id it moves the id to the end (ClientTypes.ToggleTwiceReorders), so "twice restores" is stated for absent ids only.

## Findings

| source | as written | input that shows it | evidently intended | confidence | as-written member | corrected member |
|---|---|---|---|---|---|---|
| GCE/todo-backend/src/storage.js:144-162 | The current streak is the first run closed by a zero. When the newest day is positive it is replaced by the trailing run, which is the oldest one. | counts [1,0,1,1] (newest first) give 2; [0,1,0] gives 1 | the run of positive days ending today, as the Python backend computes (0 when today is 0) | not executed | Contributions.JsCurrentStreakCounterexample | Contributions.LeadingRun |
| GCE/todo-backend/src/routes/tasks.js:278-289 | Subtask PATCH sets `completed` to false when a subtask is reopened, but keeps the old `completedAt` | a completed task with one done subtask, patched with `completed: false` on it | `completedAt` cleared whenever the task is not completed, as the toggle handler does | not executed | JsTasks.JsUpdateSubTaskStaleStamp | JsTasks.JsUpdateSubTaskSpec |
| GCE/todo-backend/src/routes/tags.js:83-103 | An empty name skips the conflict check but is still stored | tags "" and "Home"; PATCH "Home" with name "" | every supplied name checked for conflicts, as the Python router does | not executed | JsTags.JsUpdateTagDuplicateEmptyName | JsTags.JsUpdateTagPreserves |
| GCE/todo-backend/src/routes/tags.js:73-80 | An empty colour skips the pattern check but is still stored | PATCH a tag with colour "" | every supplied colour matched against the pattern | not executed | JsTags.JsUpdateTagEmptyColor | JsTags.JsUpdateTagPreserves |

The routes model the handlers as written, so `JsContributions`, `JsTasks.UpdateSubTaskRoute` and `JsTags.UpdateTagRoute` keep these behaviours. The corrected definitions are `Contributions.LeadingRun` (used by `PyStreaks` and the Python routes), `JsTasks.JsUpdateSubTask` and `JsTags.JsUpdateTag`. `Contributions.JsCurrentStreakAgrees`, `JsTasks.JsUpdateSubTaskSpec` and `JsTags.JsUpdateTagAgrees` state exactly where the two versions agree.
