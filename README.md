# Task dashboard: local state of the tasks, statistics and profile panels

A Dafny model of the sequential logic inside the three dashboard panels of a single-user
task tracker whose data lives in a hosted database with realtime change notifications:

- the **tasks panel** (`src/components/dashboard/TasksSection.tsx`) keeps a local list of the
  user's tasks plus the state of its add and edit forms. Realtime INSERT, UPDATE and DELETE
  notifications and the user's add, toggle and delete actions rewrite that list (saving an
  edit does not: only the UPDATE notification that follows changes the list);
- the **statistics panel** (`src/components/dashboard/StatisticsSection.tsx`) derives total,
  completed and pending counts and a rounded completion percentage from the tasks'
  completion flags;
- the **profile panel** (`src/components/dashboard/ProfileSection.tsx`) loads or creates the
  user's profile row, edits the full name through a buffer, and uploads an avatar to a
  path derived from the file name.

Files:

- `Common.dfy` (module `Common`): nullable values and the outcome of a remote call
  (`Ok`/`Err` with the error's message, `Success`/`Failure`).
- `Text.dfy` (module `Text`): the JavaScript string idioms the panels use. These are
  `trim()` with ECMAScript's whitespace set, `split('.')` with its inverse `join`,
  `pop()`, `s || ''` and `s || null`.
- `TaskList.dfy` (module `TaskList`): the `Task` record. It also holds the prepend, `map`
  and `filter` expressions handed to `setTasks`, as functions on `seq<Task>`, with their
  properties.
- `TasksSection.dfy` (module `Tasks`): class `TasksSection`, whose fields are the
  component's state hooks and whose methods are its handlers.
- `Statistics.dfy` (module `Statistics`): the stats derivation and the fetch step, as
  functions.
- `ProfileSection.dfy` (module `Profiles`): the `Profile` record, the avatar path
  derivation, the display-name fallback and class `ProfileSection`.

Each asynchronous handler is modelled as one atomic method. Every remote call it awaits
becomes a parameter holding the call's outcome. The method returns the request it would
send, so contracts can say what is sent. For the task handlers it also returns whether
the `task-stats-should-refresh` event is dispatched. Timestamps (`new Date().toISOString()`)
are an opaque string parameter `now`. The storage service's public-URL lookup is a function
parameter `publicUrl`. The signed-in user's id, and for the profile panel the sign-up name
from the user metadata, are constant fields set by the constructor.

## Behaviour of the code worth knowing

Some of what the code does differs from what a local mirror of the store would ideally
do. The model follows the code:

- A realtime INSERT prepends its row without looking for the id (TasksSection.tsx:91).
  `addTask` also prepends the row the store returns (TasksSection.tsx:133), so the store's
  INSERT notification for the user's own insert adds a second copy. The list can therefore
  hold one id twice, and the INSERT event is not idempotent.
  `TaskList.AddThenEchoDuplicates` and `Tasks.AddThenEchoScenario` prove this. No local
  uniqueness or ordering invariant is claimed for the list. UPDATE and DELETE do preserve
  uniqueness of ids (`TaskList.UpdateKeepsUnique`, `TaskList.RemoveKeepsUnique`).
- `toggleTaskComplete` and `deleteTask` are not optimistic. They `throw` on a remote error
  before touching the list (TasksSection.tsx:191, 212), so the list changes only after
  success.
- `updateTask` never applies the edit to the list. Only the realtime UPDATE does.
- A blank title does not raise a validation error. `addTask` simply returns without doing
  anything (TasksSection.tsx:109).
- The statistics are not derived from the tasks panel's list. They come from a query of
  their own, so a failed query keeps the old numbers.

## Model

| member | source | states |
|---|---|---|
| `Text.TrimStart` | src/components/dashboard/TasksSection.tsx:109 | the leading-whitespace cut of `trim()`. The result is a suffix, every removed character is ECMAScript whitespace, and the first kept character is not |
| `Text.TrimEnd` | src/components/dashboard/TasksSection.tsx:109 | the trailing-whitespace cut of `trim()`. The result is a prefix, every removed character is whitespace, and the last kept character is not |
| `Text.Trim` | src/components/dashboard/TasksSection.tsx:109 | `trim()` keeps a contiguous piece of the title that neither starts nor ends with whitespace, and every character cut before or after it is ECMAScript whitespace |
| `Text.TrimEmptyIffBlank` | src/components/dashboard/TasksSection.tsx:109 | `newTask.title.trim()` is empty exactly when every character of the title is whitespace, the empty title included |
| `Text.NullIfEmptyRoundTrip` | src/components/dashboard/TasksSection.tsx:119 | `s \|\| null` followed by `\|\| ''` gives `s` back. The other way round, only an empty non-null string is lost, and it becomes null |
| `Text.Split` | src/components/dashboard/ProfileSection.tsx:109 | `split('.')` gives at least one piece, no piece holds the separator, and there is a single piece (the whole string) exactly when the separator is absent |
| `Text.JoinSplit` | src/components/dashboard/ProfileSection.tsx:109 | joining the pieces of a split restores the string |
| `Text.SplitAround` | src/components/dashboard/ProfileSection.tsx:109 | splitting `a + sep + b` gives the pieces of `a` followed by the pieces of `b` |
| `Text.SplitJoin` | src/components/dashboard/ProfileSection.tsx:109 | splitting a join of separator-free pieces gives the pieces back |
| `Text.JoinLast` | src/components/dashboard/ProfileSection.tsx:109 | a join of two or more pieces ends with the separator and the last piece, the one `pop()` returns |
| `TaskList.ReplaceById` | src/components/dashboard/TasksSection.tsx:93-95 | the UPDATE `map` keeps the length. Each entry whose id is the payload's id becomes the payload, and every other entry is unchanged in its place |
| `TaskList.RemoveById` | src/components/dashboard/TasksSection.tsx:97 | the DELETE `filter` never grows the list. A task is in the result exactly when it was in the list and its id differs from the deleted id |
| `TaskList.SetCompleted` | src/components/dashboard/TasksSection.tsx:194-196 | the toggle `map` keeps the length. Entries with the id get the new flag and keep every other field, and the other entries are unchanged |
| `TaskList.ApplyEvent` | src/components/dashboard/TasksSection.tsx:88-99 | per event kind: an INSERT gives the row followed by the unchanged list, an UPDATE keeps the sequence of ids, and a DELETE never grows the list and leaves no entry with the deleted id |
| `TaskList.InsertPrepends` | src/components/dashboard/TasksSection.tsx:90-91 | an INSERT puts its row at index 0, moves every existing task down by one and grows the list by exactly one |
| `TaskList.AddThenEchoDuplicates` | src/components/dashboard/TasksSection.tsx:133 | after `addTask` prepends a row, the echoed INSERT of the same row (line 91) adds two entries with that id in total, and the ids are no longer unique |
| `TaskList.UpdateKeepsIds` | src/components/dashboard/TasksSection.tsx:92-95 | an UPDATE keeps the sequence of ids, so it keeps length and order |
| `TaskList.UpdateIdempotent` | src/components/dashboard/TasksSection.tsx:92-95 | applying an UPDATE twice equals applying it once |
| `TaskList.UpdateUnknownIsNoop` | src/components/dashboard/TasksSection.tsx:92-95 | an UPDATE for an id not in the list leaves the list unchanged |
| `TaskList.UpdateKeepsUnique` | src/components/dashboard/TasksSection.tsx:92-95 | an UPDATE on a list with unique ids leaves the ids unique |
| `TaskList.RemoveDistributes` | src/components/dashboard/TasksSection.tsx:96-97 | deleting from a concatenation deletes from each part, so the surviving tasks keep their relative order |
| `TaskList.RemoveCount` | src/components/dashboard/TasksSection.tsx:96-97 | after a DELETE no entry carries the id, and the list shrank by exactly the number of entries that did |
| `TaskList.RemoveUnknownIsNoop` | src/components/dashboard/TasksSection.tsx:96-97 | a DELETE for an id not in the list leaves it unchanged |
| `TaskList.RemoveIdempotent` | src/components/dashboard/TasksSection.tsx:96-97 | applying the same DELETE twice equals applying it once |
| `TaskList.RemoveKeepsUnique` | src/components/dashboard/TasksSection.tsx:96-97 | a DELETE on a list with unique ids leaves the ids unique |
| `TaskList.SetCompletedKeepsIds` | src/components/dashboard/TasksSection.tsx:194-196 | toggling keeps the sequence of ids, so it keeps length and order |
| `Tasks.InsertRequestFor` | src/components/dashboard/TasksSection.tsx:116-121 | the insert carries the form's title untrimmed and the user id. Its description reads back (null as `''`) as the form's description and is never the empty string, so an empty description is sent as null |
| `Tasks.UpdateRequestFor` | src/components/dashboard/TasksSection.tsx:160-164 | the update carries the edit buffer's title and the timestamp, for the given task id. Its description reads back as the buffer's and is never the empty string |
| `Tasks.SaveUnchangedEdit` | src/components/dashboard/TasksSection.tsx:228-231 | opening the edit form on a task and saving it untouched (lines 161-162) sends back the task's own title and description. The one exception is an empty description, which is sent as null |
| `Tasks.TasksSection.constructor` | src/components/dashboard/TasksSection.tsx:37-44 | the initial state: empty list, loading, both forms closed and empty, no error |
| `Tasks.TasksSection.FetchTasks` | src/components/dashboard/TasksSection.tsx:53-75 | success replaces the list with the rows, a null result counting as no rows. Failure keeps the list and records the message. Loading is false afterwards |
| `Tasks.TasksSection.OnRealtimeEvent` | src/components/dashboard/TasksSection.tsx:88-99 | the list becomes the event applied to the old list: prepend, replace by id, or filter by id |
| `Tasks.TasksSection.AddTask` | src/components/dashboard/TasksSection.tsx:108-154 | a blank title or a request in flight sends nothing and changes nothing. Otherwise it sends the untrimmed title, an empty description as null, and the user id. Success prepends the returned row, clears and closes the form and requests a stats refresh. Failure keeps the list and form and records the message. `submitting` is false afterwards |
| `Tasks.TasksSection.UpdateTask` | src/components/dashboard/TasksSection.tsx:156-179 | sends the edit buffer and never changes the list. Success closes the edit form and requests a refresh. Failure keeps `editing` and records the message |
| `Tasks.TasksSection.ToggleTaskComplete` | src/components/dashboard/TasksSection.tsx:181-203 | sends `!completed`. Only on success do the matching tasks get that flag. Failure keeps the list and records the message |
| `Tasks.TasksSection.DeleteTask` | src/components/dashboard/TasksSection.tsx:205-226 | only on success are the tasks with the id removed. Failure keeps the list and records the message |
| `Tasks.TasksSection.StartEditing` | src/components/dashboard/TasksSection.tsx:228-231 | opens the edit form on the task and copies its title and description into the buffer, a null description becoming `''` |
| `Tasks.TasksSection.OpenAddForm` | src/components/dashboard/TasksSection.tsx:257 | opens the add form |
| `Tasks.TasksSection.SetNewTitle` | src/components/dashboard/TasksSection.tsx:282 | typing changes only the add form's title |
| `Tasks.TasksSection.SetNewDescription` | src/components/dashboard/TasksSection.tsx:294 | typing changes only the add form's description |
| `Tasks.TasksSection.CancelAdd` | src/components/dashboard/TasksSection.tsx:317-320 | closes the add form and clears it |
| `Tasks.TasksSection.SetEditTitle` | src/components/dashboard/TasksSection.tsx:354 | typing changes only the edit buffer's title |
| `Tasks.TasksSection.SetEditDescription` | src/components/dashboard/TasksSection.tsx:364 | typing changes only the edit buffer's description |
| `Tasks.TasksSection.CancelEditing` | src/components/dashboard/TasksSection.tsx:380 | closes the edit form and keeps the buffer |
| `Tasks.AddThenEchoScenario` | src/components/dashboard/TasksSection.tsx:91-133 | with an empty list, adding a task and then receiving its INSERT notification leaves the list as two copies of the row |
| `Tasks.BlankTitleScenario` | src/components/dashboard/TasksSection.tsx:109 | adding with a title of spaces sends nothing and keeps the list |
| `Statistics.CountCompleted` | src/components/dashboard/StatisticsSection.tsx:57 | the completed count is the number of set flags (their multiplicity in the rows' flags), so it is at most the number of rows. It is 0 exactly when no flag is set, and equals the row count exactly when every flag is set |
| `Statistics.RoundedPercent` | src/components/dashboard/StatisticsSection.tsx:59 | the rounding step is the integer nearest to 100·completed/total, with halves rounded up |
| `Statistics.CompletionRate` | src/components/dashboard/StatisticsSection.tsx:59 | the rate is never negative, is 0 when there are no rows, and otherwise is the integer nearest to 100·completed/total, with halves rounded up |
| `Statistics.Derive` | src/components/dashboard/StatisticsSection.tsx:56-59 | `total` is the row count and `completed` the count of set flags, so `completed <= total`. Also `pending = total - completed >= 0`, the rate lies in [0, 100], the rate is 0 when `total = 0`, and otherwise the rate is the rounded percentage |
| `Statistics.FetchStats` | src/components/dashboard/StatisticsSection.tsx:47-72 | a failed query keeps the previous stats. A successful one sets them to `Derive` of its rows, null meaning none: total, completed, pending and the rate all come from those rows. Loading is false afterwards |
| `Statistics.InitialFetch` | src/components/dashboard/StatisticsSection.tsx:25-31 | the initial state (`InitialView`) is loading with all-zero stats, which are the stats of an empty task list. A failed first query therefore shows the same zeros as one returning no rows or null, and ends loading |
| `Statistics.RateBounds` | src/components/dashboard/StatisticsSection.tsx:59 | when `completed <= total`, the rate is in [0, 100]. It is 0 when nothing is completed, and 100 when everything is and `total > 0` |
| `Statistics.RateMonotone` | src/components/dashboard/StatisticsSection.tsx:59 | for a fixed total, more completed tasks never lower the rate |
| `Statistics.RateExamples` | src/components/dashboard/StatisticsSection.tsx:59 | 1 of 3 gives 33, 1 of 8 gives 13 (12.5 rounded up), 2 of 3 gives 67, and 0 of 0 gives 0 |
| `Statistics.ThreeTasksOneDone` | src/components/dashboard/StatisticsSection.tsx:56-59 | three rows with one completed give total 3, completed 1, pending 2 and rate 33 |
| `Profiles.WithFullName` | src/components/dashboard/ProfileSection.tsx:87 | a null profile stays null. Otherwise only `full_name` changes, to the draft, and `id` and `avatar_url` are kept |
| `Profiles.WithAvatar` | src/components/dashboard/ProfileSection.tsx:132 | a null profile stays null. Otherwise only `avatar_url` changes, and `id` and `full_name` are kept |
| `Profiles.CommittedName` | src/components/dashboard/ProfileSection.tsx:235 | `profile?.full_name \|\| ''` is empty exactly when there is no profile or its `full_name` is null or empty, and otherwise is that `full_name` |
| `Profiles.DisplayName` | src/components/dashboard/ProfileSection.tsx:206 | the heading is never empty. It is the committed name as the field shows it, or "Anonymous User" when that is empty |
| `Profiles.FileExt` | src/components/dashboard/ProfileSection.tsx:109 | `name.split('.').pop()` holds no dot and ends the name. It is the whole name when the name has no dot, and otherwise starts right after the last dot |
| `Profiles.AvatarPath` | src/components/dashboard/ProfileSection.tsx:110 | the path is the user id, then `/avatar.`, then a dot-free extension |
| `Profiles.AvatarPathShape` | src/components/dashboard/ProfileSection.tsx:109-110 | the avatar path lies in the user's folder, and its extension is the uploaded file's extension whatever dots the user id holds |
| `Profiles.ProfileSection.constructor` | src/components/dashboard/ProfileSection.tsx:22-27 | the initial state: no profile, loading, not editing, empty draft, not uploading, no error. The draft invariant holds |
| `Profiles.ProfileSection.FetchProfile` | src/components/dashboard/ProfileSection.tsx:35-72 | an error other than `PGRST116` records its message and keeps the profile. A found row is adopted, with `full_name` or `''` as the draft. With no row, it inserts `{id, metadata name or ''}` and adopts the returned row, or records the insert error. Loading is false afterwards, and the draft invariant is preserved |
| `Profiles.ProfileSection.UpdateProfile` | src/components/dashboard/ProfileSection.tsx:74-98 | sends the draft. On success the profile takes it as `full_name` and nothing else, a null profile stays null, and editing ends. On failure profile, editing and draft are kept and the message is recorded. Loading is false afterwards, and the draft invariant is preserved |
| `Profiles.ProfileSection.UploadAvatar` | src/components/dashboard/ProfileSection.tsx:100-142 | with no file it fails with "You must select an image to upload." and uploads nothing. Otherwise the first file goes to the avatar path, the URL is written only after the upload succeeds, and the profile changes only in `avatar_url` and only when both calls succeed. Every failure keeps the profile and records its message. `uploading` is false afterwards |
| `Profiles.ProfileSection.BeginEdit` | src/components/dashboard/ProfileSection.tsx:222 | enters edit mode and changes nothing else |
| `Profiles.ProfileSection.CancelEdit` | src/components/dashboard/ProfileSection.tsx:233-236 | leaves edit mode and resets the draft to the committed `full_name` or `''`. The profile is unchanged, and afterwards the draft invariant holds |
| `Profiles.ProfileSection.SetFullName` | src/components/dashboard/ProfileSection.tsx:259-266 | typing, possible only in edit mode, changes the draft alone. The draft invariant holds |
| `Profiles.FirstVisitScenario` | src/components/dashboard/ProfileSection.tsx:43-65 | a first visit with no profile row inserts one with the sign-up name. An edit that is then cancelled leaves that name as the heading |

The draft invariant (`Profiles.ProfileSection.DraftInSync`) says that outside edit mode,
with a profile loaded, the name field holds the committed `full_name`, or `''` when that
is null.

## Left out

- The network, queries and storage are outcome parameters. This leaves out the
  server-side `user_id` filter, the `created_at` descending order of `fetchTasks`, the
  storage upload and the public-URL lookup. The lookup is a function parameter.
- Channel subscription and removal for both panels are not modelled. Neither are the
  discarded cleanup function, nor adding and removing the window listener. This is
  subscription lifecycle plumbing.
- The `task-stats-should-refresh` window event is not modelled as an event bus. It
  appears only as the `refresh` result of the task handlers.
- Interleaving of in-flight calls with each other and with realtime events is not
  modelled. Every handler is one atomic step.
- Tasks.TasksSection.AddTask: `submitting` being true while the insert is in flight is
  not stated, because the handler is one atomic step. The guard on it is modelled.
- Profiles.ProfileSection.UpdateProfile: `loading` being true during the call is not
  stated, only that it is false afterwards, because the handler is one atomic step.
- Profiles.ProfileSection.UploadAvatar: `uploading` being true during the calls is not
  stated, for the same reason.
- The `updated_at` timestamp sent by `updateProfile` and `uploadAvatar` is left out of
  the requests the model returns. The task handlers carry it as the opaque `now`.
- Statistics.CompletionRate: `Math.round((completed / total) * 100)` on floating point is
  modelled as exact round-half-up on rationals, so float error just below a half is not
  modelled. For 23 of 40, `(23 / 40) * 100` is 57.49999999999999 and the panel shows 57,
  while the model gives 58; for 29 of 200 the panel shows 14 and the model 15.
- The signed-in user is assumed present. The `user?.id` case with no user does not arise
  because the panels fetch only when a user exists. Authentication is outside this model.
- Task handlers are modelled for task rows as the store returns them. Rows with missing
  fields and JavaScript truthiness of non-boolean `completed` values are not modelled.
- Strings are sequences of Unicode scalar values, not JavaScript's UTF-16 code units, so a
  title or file name holding a lone surrogate is not representable. `trim()` and
  `split('.')` behave the same on every string the model can hold.
- Toasts, `console` logging and all rendering are not modelled. This includes the
  loading spinners, the disabled state of buttons and the avatar initial's upper-casing,
  which needs Unicode case mapping.
- src/components/dashboard/Dashboard.tsx, src/pages/Index.tsx and
  src/integrations/supabase/client.ts are layout, sign-out and routing, and client setup.
  They are not part of this model.
