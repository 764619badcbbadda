# Task manager core in Dafny

This project models the logic of a small Next.js task manager. Signed-in
users keep tasks: a title, an optional description, an optional due date, a
completion flag and an optional project label.

## What is modelled

- **The server actions** (`addTask`, `getTaskData`, `getTaskDataCalendar`,
  `toggleTask`, `editTask`, `deleteTask`, `getProjects`).
  - `TaskActions.TaskTable` holds the `tasks` table as a sequence of rows,
    with a serial-id counter.
  - The signed-in user is an optional user id. Every action fails with
    `UserNotAuthenticated` when there is none, and the table is then left
    as it was.
  - The writes are methods, and each is specified by a function on the
    rows (`Toggled`, `Edited`, `Deleted`). The reads are functions.
  - `toggleTask` and `deleteTask` touch only the caller's rows.
  - `editTask` selects its row by id alone, whoever owns it. The model
    states exactly that (`Edited`, `EditTask`) and claims no ownership
    scoping for it.
- **The calendar page.** This covers:
  - the `dd/mm/yyyy` label and its read-back;
  - `isSameDay`;
  - the per-day filter;
  - the 42-cell month grid;
  - the page state (`TaskCalendar`): loading the rows, the date picker,
    clicking a cell, and closing the task modal.

  A month enters the grid as its first weekday (0..6) and its number of days.
- **The two task dialogs.** This covers:
  - the shared validation schema;
  - the project suggestion list and its "Scroll for more..." hint;
  - the project chosen on submit;
  - the due-date text becoming `null` or a date;
  - the edit dialog's default values;
  - both `onSubmit` payloads;
  - the add dialog's handler state (`AddTaskDialog`).
- **The "Tasks for today" page**: an order-preserving filter on the day
  part of the due date's ISO string.

Module map:
- `Wrappers`: `Option`.
- `Text`: `String(n)`, `padStart`, `split(sep)[0]`, ASCII `toLowerCase`, `includes`.
- `Seqs`: `filter`, de-duplication, subsequences.
- `Dates`: a date is a triple `(year, month, day)` with JavaScript's 0-based month; also `toISOString`.
- `TaskActions`, `Calendar`, `TaskForm`, `AddTaskForm`, `EditTaskForm`, `TasksPage`: the application code.

Inputs that come from outside the code become parameters:
- the clock (`now`, `today`);
- `Date.parse` / `new Date(text)`, as `parse: string -> Option<DateTime>`, where `None` stands for `NaN`;
- the signed-in user;
- the outcome of each server call.

## Model

| member | source | states |
|---|---|---|
| `Text.Utf16Length` | src/components/add-task-dialog.tsx:44 | JavaScript's `.length` is between the number of characters and twice it, and equals the number of characters exactly when every character lies in the Basic Multilingual Plane |
| `Text.NatToString` | src/app/calendar/page.tsx:37-39 | `String(n)` is a non-empty string of decimal digits with no leading zero |
| `Text.NatToStringRoundTrip` | src/app/calendar/page.tsx:39-40 | reading the decimal string of `n` back gives `n` |
| `Text.PadStart` | src/app/calendar/page.tsx:37-38 | `padStart` yields the longer of the input and the width; the input is its suffix, and every character before it is the fill |
| `Text.Pad` | src/app/calendar/page.tsx:37-38 | a zero-padded number is all digits |
| `Text.PadRoundTrip` | src/app/calendar/page.tsx:37-38 | a number below 10^w, padded to width w, has exactly w digits and reads back as itself |
| `Text.BeforeFirst` | src/components/edit-task-dialog.tsx:63 | `split(sep)[0]` is a prefix free of `sep`, and it ends at the first `sep` when one exists |
| `Text.BeforeFirstOf` | src/app/tasks/page.tsx:10 | `split(sep)[0]` of `a + sep + b`, with `sep` not in `a`, is `a` |
| `Text.ToLower` | src/components/add-task-dialog.tsx:231-233 | lower-casing keeps the length and maps every character on its own |
| `Text.ToLowerIdempotent` | src/components/add-task-dialog.tsx:231-233 | lower-casing twice is lower-casing once |
| `Text.Contains` | src/components/add-task-dialog.tsx:233 | `includes` finds only needles no longer than the text, and always finds a needle the text ends with |
| `Text.ContainsIff` | src/components/add-task-dialog.tsx:233 | `includes` holds exactly when the needle occurs at some position |
| `Text.ContainsEmpty` | src/components/add-task-dialog.tsx:233 | every string includes the empty string |
| `Seqs.Filter` | src/app/tasks/page.tsx:11-14 | `filter` keeps exactly the elements that satisfy the predicate, each as often as it occurs in the input, and is no longer than its input |
| `Seqs.FilterIsSubsequence` | src/app/calendar/page.tsx:92 | `filter` keeps the original order |
| `Seqs.Distinct` | src/actions/taskAction.ts:142 | grouping yields each value once, and the same set of values |
| `Dates.ToIsoString` | src/app/tasks/page.tsx:10 | `toISOString` ends in `Z` (UTC), and for a valid date with a four-digit year and a valid time it is 24 characters long |
| `Dates.IsoDayKey` | src/components/edit-task-dialog.tsx:63 | `toISOString().split("T")[0]` is the `YYYY-MM-DD` date part |
| `Dates.NoSeparatorInIsoDate` | src/components/edit-task-dialog.tsx:63 | the date part of an ISO string holds no `T` |
| `Dates.IsoDateRoundTrip` | src/app/tasks/page.tsx:10 | for years 0..9999 the `YYYY-MM-DD` key reads back as the date |
| `Dates.IsoDateInjective` | src/app/tasks/page.tsx:13 | for years 0..9999 two dates have equal day keys exactly when they are equal |
| `TaskActions.RowsOf` | src/actions/taskAction.ts:41 | `where userId = uid` keeps exactly the rows of `uid`, each as often as in the table, in table order |
| `TaskActions.NewRow` | src/actions/taskAction.ts:23-28 | the inserted row has the given id and the caller as owner, carries the input's title, description, due date and project, is completed only when the input says so, and has the clock as both timestamps |
| `TaskActions.Toggled` | src/actions/taskAction.ts:83-88 | toggling keeps the length and every field but `completed`; `completed` flips exactly on the rows owned by the caller with the given id |
| `TaskActions.ApplyEdit` | src/actions/taskAction.ts:103-110 | an edit overwrites exactly the supplied fields, sets `updatedAt` to the clock, and keeps `id`, `userId` and `createdAt` |
| `TaskActions.Edited` | src/actions/taskAction.ts:105-111 | every row whose id is the edit's id is edited, whoever owns it; all other rows are unchanged |
| `TaskActions.IdList` | src/actions/taskAction.ts:124 | a single id becomes a one-element list holding it, and an array of ids is used as given |
| `TaskActions.Deleted` | src/actions/taskAction.ts:124-128 | deleting keeps exactly the rows that are not the caller's with a listed id, each as often as in the table, in table order |
| `TaskActions.Labels` | src/actions/taskAction.ts:144-146 | the project values kept are exactly the non-null, non-empty labels of the rows |
| `TaskActions.ToCalendarRow` | src/actions/taskAction.ts:69-75 | a calendar row keeps every field, and a missing project becomes `""` |
| `TaskActions.TaskTable.AddTask` | src/actions/taskAction.ts:17-31 | without a caller: error, nothing changes. Otherwise exactly one row is appended, with the next serial id, the caller as owner (whatever the input holds), `completed` defaulting to false and both timestamps from the clock. Ids stay increasing |
| `TaskActions.TaskTable.GetTaskData` | src/actions/taskAction.ts:33-44 | without a caller: error. Otherwise exactly the caller's rows, in ascending id order |
| `TaskActions.TaskTable.GetTaskDataCalendar` | src/actions/taskAction.ts:57-76 | the same rows as `getTaskData`, position by position, every field kept (including `createdAt` and `updatedAt`) and a missing project as `""`; the same error without a caller |
| `TaskActions.TaskTable.ToggleTask` | src/actions/taskAction.ts:78-91 | without a caller: error, nothing changes. Otherwise the table becomes `Toggled` of the caller and id |
| `TaskActions.TaskTable.EditTask` | src/actions/taskAction.ts:97-114 | without a caller: error, nothing changes. Otherwise the table becomes `Edited`: the caller is checked but not used to select the row |
| `TaskActions.TaskTable.DeleteTask` | src/actions/taskAction.ts:117-130 | without a caller: error, nothing changes. Otherwise the table becomes `Deleted` of the caller and the id list, and a single id is treated as a one-element list. Ids stay increasing |
| `TaskActions.TaskTable.GetProjects` | src/actions/taskAction.ts:132-147 | without a caller: error. Otherwise each non-empty project label of the caller's rows, once each, and no other |
| `TaskActions.ToggleTwiceRestores` | src/actions/taskAction.ts:83-88 | toggling the same task twice restores the table |
| `TaskActions.ToggleKeepsOtherUsers` | src/actions/taskAction.ts:88 | toggling leaves every other user's rows exactly as they were |
| `TaskActions.AddThenRows` | src/actions/taskAction.ts:23-28 | an inserted row is appended to its owner's rows and changes no other user's rows |
| `TaskActions.DeleteKeepsOtherUsers` | src/actions/taskAction.ts:128 | deleting leaves every other user's rows exactly as they were |
| `TaskActions.DeleteIdempotent` | src/actions/taskAction.ts:126-128 | deleting the same ids a second time changes nothing |
| `TaskActions.EditIdempotent` | src/actions/taskAction.ts:105-111 | repeating an edit at the same moment changes nothing more |
| `Calendar.FormatDateToIndianStyle` | src/app/calendar/page.tsx:35-41 | for a valid date the label is two digits, `/`, two digits, `/`, and the digits of the year |
| `Calendar.IndianStyleRoundTrip` | src/app/calendar/page.tsx:35-41 | the label has `/` at positions 2 and 5 and reads back as day, 1-based month and year of the date it shows |
| `Calendar.IsSameDay` | src/app/calendar/page.tsx:83-89 | two dates are the same day exactly when year, month and day all agree |
| `Calendar.GetTasksForDay` | src/app/calendar/page.tsx:91-97 | keeps, in order and with their multiplicity, exactly the incomplete tasks with a (truthy) due date on the given day |
| `Calendar.LoadedRow` | src/app/calendar/page.tsx:55-70 | loading turns a due timestamp of 0 into `null` and changes nothing else |
| `Calendar.MonthGrid` | src/app/calendar/page.tsx:155-163 | 42 cells. Cell `i` stands for day `i - firstWeekday + 1`, and shows that number exactly when it is within 1..daysInMonth |
| `Calendar.EveryDayInExactlyOneCell` | src/app/calendar/page.tsx:195-203 | with first weekday at most 6 and at most 31 days, every day of the month is shown by exactly one cell |
| `Calendar.TaskCalendar.constructor` | src/app/calendar/page.tsx:44-49 | today selected and shown; no tasks; loading; modal hidden |
| `Calendar.TaskCalendar.TasksFetched` | src/app/calendar/page.tsx:51-81 | a successful fetch stores the loaded rows position by position; a failed one keeps the old rows; loading ends either way |
| `Calendar.TaskCalendar.DatePicked` | src/app/calendar/page.tsx:132-137 | a picked date becomes both the selection and the shown month; no date changes nothing |
| `Calendar.TaskCalendar.ClickCell` | src/app/calendar/page.tsx:176-191 | a click outside the month changes nothing. Inside it, the click selects that date and stores its tasks, and opens the modal only when there are some (an open modal stays open) |
| `Calendar.TaskCalendar.CloseTasks` | src/app/calendar/page.tsx:99-102 | closing hides the modal and empties its list, and changes nothing else |
| `Calendar.TaskCalendar.SelectedDayTasks` | src/app/calendar/page.tsx:218-219 | the side panel lists, in order and with their multiplicity, exactly the incomplete tasks due on the selected day |
| `TaskForm.TitleOk` | src/components/add-task-dialog.tsx:44 | an accepted title has 1..255 characters. Any title of 1..127 characters passes. On text from the Basic Multilingual Plane it passes exactly when it has 1..255 characters |
| `TaskForm.DescriptionOk` | src/components/add-task-dialog.tsx:45 | an absent description passes, and an accepted one has at most 9999 characters. Any description of at most 4999 characters passes. On Basic Multilingual Plane text it passes exactly when it has at most 9999 characters |
| `TaskForm.DueDateOk` | src/components/add-task-dialog.tsx:47-52 | an absent or empty due date passes; any other text passes exactly when `Date.parse` gives a date |
| `TaskForm.SchemaAccepts` | src/components/add-task-dialog.tsx:43-54 | an accepted form has a title of 1..255 characters, a description of at most 9999 characters, and a due date that is absent, empty or parses |
| `TaskForm.TitleLimits` | src/components/add-task-dialog.tsx:44 | the empty title fails and a one-character title passes. 255 copies of a Basic Multilingual Plane character pass and 256 fail. 127 copies of a character outside it pass and 128 fail, since each counts twice |
| `TaskForm.SubmittedDueDate` | src/components/add-task-dialog.tsx:91 | an absent or empty due date is sent as `null`; any other text is sent as the date it parses to |
| `AddTaskForm.InitialValuesRejected` | src/components/add-task-dialog.tsx:43-54 | the form as it opens is refused, because its title is empty; with a title it is accepted |
| `AddTaskForm.ChooseProject` | src/components/add-task-dialog.tsx:88 | the typed project name when non-empty, otherwise the form's project value |
| `AddTaskForm.SubmitPayload` | src/components/add-task-dialog.tsx:85-93 | the `addTask` argument carries the validated title, description and flag, the converted due date (`null` exactly when the text is absent or empty) and the chosen project |
| `AddTaskForm.Suggestions` | src/components/add-task-dialog.tsx:229-234 | exactly the loaded projects whose lower-cased text includes the lower-cased query, each as often as it was loaded, in their loaded order |
| `AddTaskForm.EmptyQuerySuggestsAll` | src/components/add-task-dialog.tsx:229-234 | an empty query suggests every project, in order |
| `AddTaskForm.SuggestionsIgnoreQueryCase` | src/components/add-task-dialog.tsx:233 | the query's letter case does not change the suggestions |
| `AddTaskForm.AddTaskDialog.constructor` | src/components/add-task-dialog.tsx:57-61 | closed; no projects; empty input; list hidden; form project unset |
| `AddTaskForm.AddTaskDialog.VisibleSuggestions` | src/components/add-task-dialog.tsx:227-234 | the list under the input is the suggestion list while shown with projects loaded, and empty otherwise |
| `AddTaskForm.AddTaskDialog.ScrollHintShown` | src/components/add-task-dialog.tsx:248-256 | "Scroll for more..." shows exactly when more than 3 suggestions are listed |
| `AddTaskForm.AddTaskDialog.SetOpen` | src/components/add-task-dialog.tsx:116 | opening or closing sets `open` and nothing else |
| `AddTaskForm.AddTaskDialog.ProjectsFetched` | src/components/add-task-dialog.tsx:71-83 | a successful fetch stores the labels; a failed one keeps the old list |
| `AddTaskForm.AddTaskDialog.FocusProjectInput` | src/components/add-task-dialog.tsx:217 | focusing the input shows the list |
| `AddTaskForm.AddTaskDialog.TypeProjectName` | src/components/add-task-dialog.tsx:218-222 | typing sets both the input text and the form's project |
| `AddTaskForm.AddTaskDialog.PickSuggestion` | src/components/add-task-dialog.tsx:239-243 | picking a listed suggestion (always a loaded project) sets the input text and the form project to it and hides the list |
| `AddTaskForm.AddTaskDialog.Submit` | src/components/add-task-dialog.tsx:85-104 | the payload is `SubmitPayload`, and its project is absent or the input text. On success the dialog closes and the form project is cleared. On failure nothing changes |
| `EditTaskForm.DefaultValues` | src/components/edit-task-dialog.tsx:56-66 | the defaults are: the task's title; its description, or `""`; its flag; the `YYYY-MM-DD` date part of its due date, or absent |
| `EditTaskForm.DefaultsAccepted` | src/components/edit-task-dialog.tsx:36-46 | a stored task within the limits opens with values the schema accepts, as long as its day key parses |
| `EditTaskForm.SubmitPayload` | src/components/edit-task-dialog.tsx:68-77 | the `editTask` argument keeps the task's own id. It always sets title and due date (`null` for an empty one), sets description and flag when present, and leaves the project alone |
| `EditTaskForm.SubmitDefaultsUnchanged` | src/components/edit-task-dialog.tsx:58-77 | saving unchanged defaults keeps every field except three: a missing description becomes `""`, the due date becomes what its day key parses to, and `updatedAt` becomes the clock |
| `TasksPage.TasksForToday` | src/app/tasks/page.tsx:9-14 | in order and with their multiplicity, exactly the tasks with a due date whose ISO day key equals today's; every kept task has a due date |
| `TasksPage.KeptExactlyWhenDueToday` | src/app/tasks/page.tsx:10-14 | for years 0..9999, a task is kept exactly when its due date falls on today's date |
| `TasksPage.NoDueDateNeverKept` | src/app/tasks/page.tsx:13 | a task without a due date is never kept, whatever its other fields |

## Left out

- Time zones: the local-time getters (`getDate`, `getMonth`, `getFullYear`, `new Date(y, m, d)`) are read in UTC, like `toISOString`.
- `Date.parse` and `new Date(text)` are the abstract parameter `parse`. Its result on a `YYYY-MM-DD` key is not modelled.
- Timestamps are date-and-time values. The page's millisecond-to-second float division and `* 1000` round trip are not modelled.
- Dates before year 0 are not modelled.
- The database default for `completed` is not part of this model. An absent flag is stored as `false`.
- `getProjects` groups rows in the SQL engine, which leaves the order unspecified. The model lists labels in order of first appearance.
- `toLowerCase` is modelled for ASCII letters only.
- Strings are sequences of Unicode characters. A JavaScript string can also hold an unpaired surrogate, which has no counterpart here. The schema's length limits count UTF-16 code units (`Text.Utf16Length`), as zod does.
- Out-of-month grid cells: `new Date(y, m, day)` rolls over into the neighbouring month for them. The model has no such dates, and does not model the highlight or task count of those cells.
- The per-cell task-count flag and the highlight of the selected cell are rendering only.
- The add dialog's form fields other than `project` live in the form library. They enter `Submit` as validated values.
- `form.reset()` is modelled only by clearing the form's project.
- `handleBlur` (src/components/add-task-dialog.tsx:109-113) is never attached to an element: the project input has no `onBlur`. The list therefore stays shown after the input loses focus, and only picking a suggestion hides it. The model has no blur event.
- Toasts, transitions, pending flags, `revalidatePath`, console logging and the dialog's `onOpenChange` callback are left out.
- `getCurrentUser`, the ORM and the database engine are left out, except for the table contents.
- The edit dialog's `onOpenChange` call after saving is left out.
- `Dates.IsoDateRoundTrip`: proved for years 0..9999 only, because a six-digit signed year is written differently.
- `Dates.IsoDateInjective`: proved for years 0..9999 only, for the same reason.
- `TasksPage.KeptExactlyWhenDueToday`: proved for years 0..9999 only. `TasksPage.TasksForToday` states the general rule through the day key.
- `Calendar.IndianStyleRoundTrip`: requires a well-formed date, a month of 0..11 and a day of 1..31. Such dates are the only ones `Date` produces.
- The landing page, header, layout and dashboard are not part of this model: they have no task logic of their own.
- The projects page is not part of this model. It repeats the tasks page's today filter (src/app/projects/page.tsx:28-36) into state it never renders, and it calls `getTasksByProject`, which is not defined in the task actions.
