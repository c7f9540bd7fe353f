# TaskMaster: a verified model of the task list and the login logic

TaskMaster is a browser-only task manager with two pages. The login page
(`AuthSystem`, auth.js) validates the login and sign-up forms, looks
accounts up in a user directory kept in the browser's storage, creates
accounts, and writes a password-free session record plus an
"authenticated" flag. The task page (`TaskMasterApp`, app.js) loads the
signed-in user's task list from that directory. It adds, toggles, edits,
deletes and clears tasks, filters the list, counts it, marks tasks whose
deadline is in the future and at most fifteen minutes away, exports the list as CSV,
updates the profile, and writes every change back into the user's account.

This project models that state and its transformations in Dafny, without
the browser:

- `Collections`: the array operations the code relies on. `filter` keeps
  every element that passes, as often as it occurs and in order;
  `findIndex`/`find` are first-match lookups. There is also the
  order-preserving subsequence relation.
- `Text`: JavaScript's `trim` and the `\s` class (ECMAScript whitespace),
  `length` in UTF-16 code units, `join`, and a split used to state what a
  join produces.
- `Tasks`: the task record and the pure list transformations:
  - the filtered views, the statistics, toggling completion, editing and
    deleting;
  - the reminder test and the sweep;
  - the countdown arithmetic.
- `TaskExport`: the CSV text of the export button.
- `Directory`: the stored data. This is the user accounts, the session
  record, and a `Storage` class holding the directory, the session record
  and the authenticated flag as typed fields. It also has the lookups,
  the task write-back and the demo directory.
- `Auth`: the `isValidEmail` pattern, the error messages, and the
  `AuthSystem` class: validation, login, sign-up, the session and logout.
  It also has the demo-seeding script.
- `App`: the `TaskMasterApp` class with its fields `tasks`,
  `currentFilter`, `isImportant` and `currentUser`, its handlers, and the
  reminder sweep as a loop.

Prompts and confirmations are parameters: `Option<string>` for a prompt,
where None is a cancelled one, and `bool` for a confirmation. The clock
readings a handler takes are also inputs: `Date.now()` ids, ISO timestamps
and the time of a sweep in milliseconds. `new Date(text)` is a parameter
`parseDate: string -> Option<int>`, where None is an invalid date. Task
ids come from the clock, so nothing assumes they are unique. Every lookup
is the first match, as in the code.

Three places where the code does something other than a quick reading
suggests. The model follows the code in each:

- **Duplicate-email check at sign-up.** It runs only after every field has
  passed validation (auth.js:88-100). A form with a taken email and a
  short password therefore reports only the password.
- **The edit prompt.** It tests the untrimmed title answer and trims
  afterwards (app.js:486, 493), so an answer of spaces is accepted and
  clears the title (`Tasks.EditWithBlankTitle`). A cancelled deadline
  prompt clears the deadline.
- **Profile update.** It does not check that the new email is unused.
  Email uniqueness (`Directory.DistinctEmails`) is kept by sign-up
  (`Auth.AuthSystem.HandleSignup`) and by nothing else.

## Model

| member | source | states |
|---|---|---|
| Text.Trim | app.js:248 | the result is empty exactly when the input is all ECMAScript whitespace; otherwise it neither starts nor ends with whitespace |
| Text.TrimCutsOnlyWhitespace | app.js:248 | the result is the input with a whitespace prefix and a whitespace suffix cut off, and nothing else removed |
| Text.Utf16Length | auth.js:146 | `length` counts UTF-16 code units: between one and two per character, one each when no character is above U+FFFF, zero only for the empty string |
| Text.Utf16LengthCounts | auth.js:146 | `length` is exactly the number of characters plus the number of characters above U+FFFF, so each of those counts twice |
| Tasks.Shows | app.js:326-334 | a filter name other than "pending", "completed" and "important" shows every task |
| Tasks.FilterView | app.js:325-336 | "pending", "completed" and "important" keep only tasks with that flag, every such task, in order, as a subsequence of the list; any other filter name gives the whole list |
| Tasks.FilterViewCounts | app.js:326-334 | a view holds each task it shows exactly as often as the list does, and no other task |
| Tasks.PendingCompletedPartition | app.js:327-330 | the pending and completed views together hold every task exactly as often as the list does |
| Tasks.TaskStats | app.js:549-551 | total is the length, completed and pending are the sizes of the two views, and 0 <= pending = total - completed <= total |
| Tasks.NewTask | app.js:253-263 | a new task has the given id, title, category, importance and creation time, is not completed and not notified, and has a deadline exactly when the deadline input is non-empty, namely that input |
| Tasks.FindTask | app.js:468 | the position of the first task with that id, None exactly when no task has it |
| Tasks.ToggledComplete | app.js:467-470 | same length; only `completed` can change, and it changes exactly at the first task with that id |
| Tasks.ToggleTwice | app.js:467-470 | toggling the same id twice restores the original list |
| Tasks.Edit | app.js:482-501 | no change exactly when the task is missing, or the title prompt is cancelled or answered with ""; otherwise only the found task changes, with the trimmed title, notified false, and the deadline set exactly when the deadline answer is present and non-empty |
| Tasks.EditWithBlankTitle | app.js:486-493 | every non-empty title answer made only of whitespace is accepted and leaves an empty title |
| Tasks.WithoutTask | app.js:512 | every task with that id is removed; every other task stays, as often as it occurred and in order; an unknown id leaves the list as it was |
| Tasks.DueSoon | app.js:78-83 | a task due soon has a deadline, is pending and not yet notified, and its deadline parses to a time in the future at most 900000 ms away |
| Tasks.Swept | app.js:77-88 | same length; only `notified` can change; a task ends up notified exactly when it already was or has a non-empty deadline, is pending and not notified, and 0 < deadline - now <= 900000 ms |
| Tasks.SweepIdempotent | app.js:78-85 | a second sweep at the same time changes nothing |
| Tasks.EditRearmsReminder | app.js:495-500 | after an edit that gives a pending task a deadline inside the window, the next sweep reminds it even if it was reminded before |
| Tasks.CountdownAt | app.js:418-431 | "Expired" exactly when no time is left; an invalid date is unreadable; otherwise hours < 24, minutes < 60, seconds < 60, and together they give the time left within the day to the second |
| Tasks.DayDecomposition | app.js:429-431 | the three divisions and remainders add up to the part of the duration within one day, less than a second short |
| TaskExport.CsvFields | app.js:200-206 | six values in header order: title, category, "Completed" for a completed task and "Pending" otherwise, the deadline text or "" when there is none, the creation time, and "Yes" for an important task and "No" otherwise |
| TaskExport.CsvRow | app.js:200-206 | a task line starts and ends with a double quote |
| TaskExport.ExportCsv | app.js:194-196 | no output exactly when the list is empty |
| TaskExport.HeaderColumns | app.js:198-199 | the header line splits at commas into the six column names in order |
| TaskExport.ExportLines | app.js:198-208 | with newline-free fields the export has exactly one line more than the list: the header and then one row per task in list order, with no trailing newline |
| TaskExport.RowFields | app.js:200-206 | with comma-free fields a row splits into six double-quoted fields in header order |
| TaskExport.SingleTaskExport | app.js:194-208 | one task exports as the header line followed by its row |
| Directory.SessionOf | auth.js:233-240 | the session record copies id, name, email and creation time, and the phone and birth date or "" when they are absent |
| Directory.SessionOmitsSecrets | auth.js:231-240 | the session record does not depend on the password or on the task list |
| Directory.FindAccountById | app.js:134 | the first account with the id, None exactly when no account has it |
| Directory.FindAccountByEmail | auth.js:53 | the first account with the email, None exactly when no account has it |
| Directory.AppendKeepsEmailsDistinct | auth.js:94-112 | appending an account whose email no account has keeps emails pairwise distinct |
| Directory.StoredTasks | app.js:123-130 | there is a stored list exactly when some account has the id, and it is the task list of the first such account |
| Directory.WithUserTasks | app.js:132-140 | only the task list of the first account with the id changes; with no such account the directory is unchanged |
| Directory.SaveThenLoad | app.js:123-140 | loading after saving gives back the saved list when the account exists, and nothing when it does not |
| Auth.IsValidEmail | auth.js:183-186 | a valid address has at least five characters and contains an '@' and a '.'; the lemmas below show it is the pattern |
| Auth.ValidEmailMatches | auth.js:183-186 | every string the scan accepts matches `^[^\s@]+@[^\s@]+\.[^\s@]+$` |
| Auth.MatchingEmailValid | auth.js:183-186 | every string the pattern matches passes the scan |
| Auth.IsValidEmailMatchesPattern | auth.js:183-186 | the scan and the pattern accept exactly the same strings |
| Auth.SignupReportOf | auth.js:143-181 | the four per-field checks together report one message per broken rule, none of any other kind, at most one per field |
| Auth.NewAccount | auth.js:103-110 | a new account has no tasks, phone or birth date |
| Auth.AuthSystem.ValidateLogin | auth.js:124-141 | valid exactly when the email is well formed and the password non-empty, which is exactly when no error is reported; "required" exactly for an empty email, "invalid" exactly for a non-empty malformed one, "password required" exactly for an empty password; at most one message per field |
| Auth.AuthSystem.ValidateSignup | auth.js:143-181 | valid exactly when the name has at least 2 and the password at least 6 UTF-16 code units, the email is well formed and the confirmation equals the password; each of the seven messages appears exactly when its rule is broken, with no short-circuit and at most one per field |
| Auth.AuthSystem.HandleLogin | auth.js:38-69 | the session is written only for valid fields, an account whose email equals the trimmed email, and a first such account whose password equals the untrimmed password; otherwise the validation errors, "no account" or "incorrect password" are reported and storage is unchanged |
| Auth.AuthSystem.HandleSignup | auth.js:77-116 | invalid fields report the validation errors; a taken email reports the duplicate error after validation; either way storage is unchanged. Otherwise exactly one account with the trimmed name and email and no tasks is appended, the user is signed in, and distinct emails stay distinct |
| Auth.AuthSystem.SetCurrentUser | auth.js:231-246 | stores the password-free session record of the account and sets the flag, so the current user is that record |
| Auth.AuthSystem.GetCurrentUser | auth.js:248-256 | a record exactly when both the session record and the flag are present, and then that record |
| Auth.AuthSystem.Logout | auth.js:271-274 | both session artifacts are gone, so there is no current user |
| Directory.DemoUsers | auth.js:287-313 | the demo directory is one account, john@example.com with password "password123", with emails distinct and two tasks of different ids |
| Auth.SeedDemoUsers | auth.js:285-315 | an empty directory becomes the demo directory; a non-empty one is untouched |
| Auth.DemoLogin | auth.js:287-292 | the demo credentials pass validation and find the demo account with its password |
| App.PasswordObjection | app.js:667-692 | a password change is refused unless the current password is non-empty and equals the stored one, the new one has at least 6 UTF-16 code units and equals the confirmation; no new password is never refused; the first failing check decides the message: "current password required" exactly when it is empty, "incorrect" exactly when it differs from the stored one, "too short" exactly when it is right and the new one is shorter than 6, "do not match" exactly when both pass and the confirmation differs |
| App.ProfileApplied | app.js:694-701 | the account gets the new name, email, phone and birth date, and the new password only when one was given; id, creation time and tasks are kept |
| App.TaskMasterApp.constructor | app.js:111-130 | the current user is the stored session record and the list is that user's stored list, or empty without an account; filter "all", toggle off |
| App.TaskMasterApp.LoadUserData | app.js:123-130 | the list becomes the current user's stored list; with no account it is kept |
| App.TaskMasterApp.SaveUserData | app.js:132-140 | the directory gets the list written into the current user's account only, and loading gives it back |
| App.TaskMasterApp.HandleAddTask | app.js:242-273 | a title that is blank after trimming changes neither the list, the toggle nor storage; otherwise one new task with the trimmed title, not completed, not notified and important as the toggle was, goes in front of the unchanged old list. The list is then saved and the toggle reset |
| App.TaskMasterApp.ToggleImportant | app.js:278-281 | the toggle flips |
| App.TaskMasterApp.HandleFilterChange | app.js:296-309 | the chosen filter becomes the current one |
| App.TaskMasterApp.ToggleTaskComplete | app.js:467-480 | the list becomes the toggled list and is saved when the task exists; an unknown id changes nothing |
| App.TaskMasterApp.EditTask | app.js:482-508 | the list becomes the edited list and is saved, or nothing changes when the edit does not apply |
| App.TaskMasterApp.DeleteTask | app.js:510-518 | once confirmed, the list loses every task with the id and is saved; unconfirmed, nothing changes |
| App.TaskMasterApp.ClearCompletedTasks | app.js:520-542 | reports the number of completed tasks; with none or without confirmation nothing changes; otherwise exactly the pending tasks remain in order, the length drops by the count, and the list is saved |
| App.TaskMasterApp.ReminderSweep | app.js:72-94 | the list becomes the swept list; the reminded positions, increasing, are exactly the tasks that were due soon; the list is saved only when some task was reminded |
| App.TaskMasterApp.HandleProfileUpdate | app.js:637-718 | nothing changes when the trimmed name or email is empty, the account is missing or the password change is refused, and the matching message is reported. Otherwise only that account is rewritten, the session record gets the new name and email, and it is stored |
| App.TaskMasterApp.Logout | app.js:720-726 | once confirmed, both session artifacts are removed; unconfirmed, nothing changes |

## Left out

- Rendering and event wiring are not modelled: `renderTasks`, `createTaskHTML`, `bindEvents`, `bindTaskEvents`, the modal methods, `showNotification`, `showSuccess`, `showError`, `clearErrors`, `updateSectionTitle`, `updateImportantButton`. They only write to the page.
- `escapeHtml` is not modelled: it relies on the page's DOM to escape text.
- The pie chart (`renderTaskChart`) is not modelled: it is drawn by a third-party library.
- Speech input and the notification API are not modelled: `initVoiceRecognition`, `askNotificationPermission`, `triggerReminder`. The sweep returns the positions of the tasks a reminder would be shown for.
- Timers, delayed redirects and `checkAuthStatus` are not modelled. One sweep is one method call with the time as an argument.
- The JSON and storage encoding is not modelled. Storage is typed fields. An absent directory reads as the empty list. An account always has a task list, where the code reads a missing one as `[]`, and a task's creation time is a string, "" when missing.
- The file download of the export (Blob, object URL, link click) is not modelled. The export is the text it would contain.
- Date parsing and locale formatting are not modelled: `new Date`, `toISOString`, `toLocaleTimeString`, `formatDate`. Parsing is the `parseDate` parameter. Timestamps are inputs.
- The user initials in `updateUserInterface` are not modelled: they need Unicode upper-casing.
- Tasks.CountdownAt: returns the three numbers, not the "h m s" text. The source's floating-point divisions and `Math.floor` are written as integer division. That is exact for positive whole-millisecond differences.
- Tasks.DueSoon: the test `(deadline - now) / 1000 / 60` in (0, 15] is written as 0 < deadline - now <= 900000 on whole milliseconds, its exact integer counterpart.
- App.TaskMasterApp.constructor: requires both session artifacts. Without them the source leaves the page, and its next step would read the id of a missing user.
- Directory.DemoUsers: the source reads the clock three times, once for the account and once for each demo task; the model uses one `createdAt` for all three, a parameter, since clock readings are inputs.
