# To-do application: store and derivation logic in Dafny

This project models the client-side logic of a single-user, browser-local to-do
application written in TypeScript with Redux:

- the **task store** (`tasksSlice.ts`): an ordered list of tasks plus a view filter,
  changed by `addTask`, `removeTask`, `toggleTask`, `updateTaskPriority` and `setFilter`;
- the **auth store** (`authSlice.ts`): the session state machine (`loading`, `error`,
  `user`, `isAuthenticated`, `theme`), the start-up merge of defaults with what the
  browser stored, the registered-user directory keyed by email, and the three
  storage keys `auth`, `registeredUsers` and `theme`;
- the **view derivations**: the task-list selector for the views all / today / important /
  planned / assigned, the star button's priority flip, the row selection, the dashboard
  counts and the completion percentage;
- the **form handlers** of the sign-up, sign-in and new-task forms, each modelled as a
  function from the form's contents to the list of actions it dispatches, and then
  composed with the reducers.

Every reducer is a pure function returning the new state. The auth reducers work on a
`Session`: the in-memory `AuthState` together with a `Storage` record standing for the
browser's local storage, so that what a reducer persists, and what a reload would read
back, can be stated and proved. The TypeScript types become datatypes in `Types`
(`Task`, `User`, `AuthState`, `TasksState`, and the closed enumerations `Priority`,
`Theme` and `Filter`; optional and nullable fields are `Option`). JavaScript's
`filter`, `trim`, `startsWith`, string truthiness and `.length` (UTF-16 code units) are
modelled in `Seqs` and `Strings`. Numbers in the percentage are exact rationals.

Modules follow the source files: `Types`, `Seqs`, `Strings`, `TasksSlice`, `AuthSlice`,
`TaskList`, `Dashboard`, `CircularProgress`, `TaskInput`, `Signup`, `Login`.

Several behaviours of the code are easy to misread; the model follows the code:

- `removeTask` drops every task carrying the id, not just the first one.
- `toggleTask` and `updateTaskPriority` act on the first task carrying the id only.
- Sign-in never consults the registered-user directory and never checks the password;
  it needs only non-empty email, username and password. There is no "unknown account"
  outcome.
- The 'planned' and 'assigned' views use JavaScript truthiness, so a present but empty
  `dueDate` or `assignedTo` does not count.
- The 'today' view tests whether `createdAt` starts with the caller's `YYYY-MM-DD` string.
- The task list's view comes from the component's `filter` property; the store's
  `filter` field is set by `setFilter` but no view reads it.
- Nothing in the new-task form calls `setPriority`, so every task it adds is medium.
- Start-up copies the stored `user` and `isAuthenticated` as they are, so an authenticated
  session without a user is possible at start-up; every reducer preserves the invariant
  "authenticated implies a user" once it holds.

## Model

| member | source | states |
|---|---|---|
| TasksSlice.InitialState | src/store/slices/tasksSlice.ts:4-9 | the store starts with no tasks, not loading, no error and the 'all' filter |
| TasksSlice.FindIndex | src/store/slices/tasksSlice.ts:22 | the lookup finds the first task carrying the id, or reports that no task carries it |
| TasksSlice.AddTask | src/store/slices/tasksSlice.ts:15-17 | the list grows by one; every earlier task keeps its value and position; the payload is last; filter, loading and error are untouched |
| TasksSlice.AddTaskNoDedup | src/store/slices/tasksSlice.ts:16 | no deduplication: the number of tasks with the payload's id grows by one, so an existing id ends up on two tasks |
| TasksSlice.AddTaskUniqueIds | src/store/slices/tasksSlice.ts:15-17 | ids stay unique after an add exactly when they were unique and the new id was not present |
| TasksSlice.RemoveTask | src/store/slices/tasksSlice.ts:18-20 | the result is an order-preserving subsequence holding every occurrence of every task whose id differs and no task with the id; an absent id leaves the store unchanged |
| TasksSlice.RemoveTaskLength | src/store/slices/tasksSlice.ts:19 | the list shrinks by the number of tasks carrying the id, which is one when ids are unique and the id is present |
| TasksSlice.RemoveTaskIdempotent | src/store/slices/tasksSlice.ts:18-20 | removing the same id twice equals removing it once |
| TasksSlice.ToggleTask | src/store/slices/tasksSlice.ts:21-26 | exactly the first task carrying the id has `completed` flipped; every other task and every other field are unchanged; an absent id is a no-op |
| TasksSlice.ToggleTaskTwice | src/store/slices/tasksSlice.ts:21-26 | toggling the same id twice restores the store |
| TasksSlice.UpdateTaskPriority | src/store/slices/tasksSlice.ts:27-32 | exactly the first task carrying the id gets the new priority; nothing else changes; an absent id is a no-op |
| TasksSlice.UpdateTaskPriorityIdempotent | src/store/slices/tasksSlice.ts:27-32 | setting the same priority twice equals setting it once |
| TasksSlice.SetFilter | src/store/slices/tasksSlice.ts:33-35 | the filter becomes the payload; tasks, loading and error are untouched |
| TasksSlice.SetFilterLastWins | src/store/slices/tasksSlice.ts:33-35 | of two filter changes only the last one is visible |
| TasksSlice.Reduce | src/store/slices/tasksSlice.ts:14-36 | no task action touches loading or error; only adding an already present id can break id uniqueness |
| Seqs.Keep | src/store/slices/tasksSlice.ts:19 | `filter` keeps an order-preserving subsequence of the input, no longer than it, whose every element is accepted |
| Seqs.KeepMultiset | src/store/slices/tasksSlice.ts:19 | `filter` keeps every occurrence of each accepted element and no occurrence of a rejected one |
| Seqs.KeepMembers | src/store/slices/tasksSlice.ts:19 | a value is in the filtered list exactly when it is in the list and accepted |
| AuthSlice.GetInitialTheme | src/store/slices/authSlice.ts:4-13 | a saved "dark" or "light" wins; otherwise, with a window, dark exactly when the platform prefers dark; without a window, light |
| AuthSlice.LoadStoredAuth | src/store/slices/authSlice.ts:15-29 | the stored session record when storage can be read, nothing otherwise |
| AuthSlice.InitialState | src/store/slices/authSlice.ts:41-48 | start-up is not loading and has no error, takes the resolved theme, and copies the stored user and flag when there are any; a consistent stored record yields a consistent session |
| AuthSlice.InitialStateMayBeInconsistent | src/store/slices/authSlice.ts:19-23 | a stored record claiming authentication without a user starts an authenticated session without a user |
| AuthSlice.GetRegisteredUsers | src/store/slices/authSlice.ts:32-39 | a missing or unreadable directory reads as empty |
| AuthSlice.IsUserRegistered | src/store/slices/authSlice.ts:122-125 | an email is registered exactly when the directory holds it |
| AuthSlice.GetRegisteredUser | src/store/slices/authSlice.ts:128-131 | the lookup returns the stored user exactly for registered emails and nothing otherwise |
| AuthSlice.GetRegisteredUserAsWritten | src/store/slices/authSlice.ts:128-131 | the lookup as written returns the stored user for a registered email, the inherited `Object.prototype` member for an unregistered inherited name, and null exactly when `isUserRegistered` as written answers false |
| AuthSlice.AsWrittenLookupAgreesOffInherited | src/store/slices/authSlice.ts:122-131 | both lookups as written agree with the corrected ones on every name `Object.prototype` does not carry, and return an inherited member exactly for the unregistered inherited names |
| AuthSlice.IsUserRegisteredAsWritten | src/store/slices/authSlice.ts:122-125 | the plain-object lookup also answers true for every name inherited from `Object.prototype` |
| AuthSlice.InheritedKeyLooksRegistered | src/store/slices/authSlice.ts:122-131 | on an empty directory the lookups as written report "constructor" registered and return its inherited member, though no such user exists |
| AuthSlice.Start | src/store/slices/authSlice.ts:54-57 | `loginStart` and `signupStart` set loading and clear the error, keeping user, flag, theme and storage |
| AuthSlice.LoginSuccess | src/store/slices/authSlice.ts:58-67 | loading off, authenticated as the payload, no error, and the stored session record is `{user: payload, isAuthenticated: true}`; directory and stored theme untouched |
| AuthSlice.Failure | src/store/slices/authSlice.ts:68-71 | `loginFailure` and `signupFailure` stop loading and set the message; user, flag, theme and storage unchanged |
| AuthSlice.SignupSuccess | src/store/slices/authSlice.ts:76-91 | as a successful login, and the directory now maps the payload's email to the payload while every other email keeps its entry |
| AuthSlice.Logout | src/store/slices/authSlice.ts:96-102 | user, flag, loading and error are cleared and the stored session record is removed; theme and directory survive |
| AuthSlice.ToggleTheme | src/store/slices/authSlice.ts:103-106 | the theme changes to the other one, the stored theme names the new theme, and nothing else changes |
| AuthSlice.ToggleThemeTwice | src/store/slices/authSlice.ts:103-106 | toggling twice restores the in-memory session, with the original theme stored |
| AuthSlice.ToggleThemeReloads | src/store/slices/authSlice.ts:103-106 | the stored theme reloads through `getInitialTheme` as the in-memory theme, whatever the platform prefers |
| AuthSlice.LoginSuccessReloads | src/store/slices/authSlice.ts:63-66 | the session record a login stores reloads as the same authenticated user |
| AuthSlice.LogoutReloads | src/store/slices/authSlice.ts:101 | after logout a reload starts without user and unauthenticated |
| AuthSlice.Reduce | src/store/slices/authSlice.ts:54-106 | every reducer preserves "authenticated implies a user" and the consistency of the stored record; only `signupSuccess` writes the directory |
| AuthSlice.ReduceAll | src/store/slices/authSlice.ts:54-106 | the same invariants hold after any sequence of actions |
| Types.Flip | src/store/slices/authSlice.ts:104 | the new theme differs from the old one |
| Types.ThemeName | src/store/slices/authSlice.ts:105 | the stored theme string parses back to the theme |
| TaskList.VisibleTasks | src/components/TaskList.tsx:12-28 | each view is an order-preserving subsequence with exactly the tasks of that view: 'all' is the list itself; 'today' the tasks whose `createdAt` starts with today; 'important' the high-priority ones; 'planned' and 'assigned' those with a non-empty due date or assignee |
| TaskList.VisibleAfterAppend | src/components/TaskList.tsx:12-28 | appending a task extends each view by that task exactly when the view shows it, leaving the tasks it already showed in place |
| TaskList.StarPriority | src/components/TaskList.tsx:70 | the star yields medium or high, and high exactly when the priority was not high |
| TaskList.StarTogglesImportant | src/components/TaskList.tsx:70 | one press moves a task into or out of the 'important' view |
| TaskList.StarTwice | src/components/TaskList.tsx:70 | two presses from high return to high; from any other priority they end on medium |
| TaskList.PressStar | src/components/TaskList.tsx:67-71 | the star updates the priority of the first task with the clicked task's id and nothing else |
| TaskList.PressStarOnTask | src/components/TaskList.tsx:67-71 | with unique ids the star acts on the clicked task, and two presses on a high task restore the store |
| TaskList.CheckTask | src/components/TaskList.tsx:49-55 | the checkbox flips completion of the first task with the clicked task's id and nothing else |
| TaskList.CheckTaskOnTask | src/components/TaskList.tsx:52 | with unique ids the checkbox flips exactly the clicked task |
| TaskList.ClickTask | src/components/TaskList.tsx:34-36 | clicking the selected task clears the selection; clicking any other task selects that task |
| TaskList.Trash | src/components/TaskList.tsx:102-106 | the trash button acts as `removeTask` with the selected id, dropping every task with that id and keeping every other occurrence in order, and clears the selection |
| Dashboard.TodayTasks | src/components/Dashboard.tsx:22-23 | today's tasks are those whose `createdAt` starts with today, never more than the whole list |
| Dashboard.TodayAgreesWithView | src/components/Dashboard.tsx:22-23 | the dashboard's today count and the task list's 'today' view select the same tasks |
| Dashboard.DashboardStats | src/components/Dashboard.tsx:19-23 | total is the list length; completed is the number of completed tasks and at most the total; it is 0 exactly when none is completed and the total exactly when all are; today's count is the size of the 'today' view |
| Dashboard.CompletedPlusPending | src/components/Dashboard.tsx:19-20 | completed and not completed tasks add up to the total |
| Dashboard.DisplayedPercentageInRange | src/components/Dashboard.tsx:113 | the ring shows a whole number from 0 to 100 for every task list |
| Dashboard.AddTaskStats | src/components/Dashboard.tsx:19-20 | adding a task raises the total by one and the completed count by one exactly when the task is completed |
| Dashboard.ToggleTaskStats | src/components/Dashboard.tsx:19 | toggling a present id moves the completed count by exactly one; an absent id leaves it |
| CircularProgress.Percentage | src/components/CircularProgress.tsx:12 | zero total gives 0 with no division; otherwise the percentage times the total is 100 times the completed count; 0 completed gives 0, all completed gives 100, and within bounds it lies in [0, 100] |
| CircularProgress.PercentageMonotonic | src/components/CircularProgress.tsx:12 | more completed tasks never show a smaller percentage |
| CircularProgress.Round | src/components/CircularProgress.tsx:43 | `Math.round` returns the nearest integer, halves rounding up |
| CircularProgress.DisplayedPercentage | src/components/CircularProgress.tsx:43 | within bounds the displayed number is an integer in [0, 100]; 0 when nothing is completed, 100 when everything is |
| Strings.Trim | src/components/TaskInput.tsx:15 | `trim` drops only whitespace, and only from the two ends, leaving an infix that neither starts nor ends with whitespace; it is empty exactly for whitespace-only input |
| Strings.Utf16Length | src/components/Signup.tsx:41 | `.length` counts UTF-16 code units: between the number of characters and twice that, equal exactly when no character lies outside the Basic Multilingual Plane |
| TaskInput.InitialForm | src/components/TaskInput.tsx:8-9 | the form starts with an empty title and priority medium |
| TaskInput.NewTask | src/components/TaskInput.tsx:17-23 | the added task has the clock id and timestamp, the trimmed title, the selected priority, is not completed and has no due date or assignee |
| TaskInput.HandleSubmit | src/components/TaskInput.tsx:13-27 | a whitespace-only title dispatches nothing and keeps the form; otherwise exactly one task with a non-empty trimmed title is added and the title is reset to empty |
| TaskInput.Run | src/components/TaskInput.tsx:8-36 | typing and submitting never change the selected priority, and every dispatched action adds a task with that priority |
| TaskInput.EveryAddedTaskIsMedium | src/components/TaskInput.tsx:9 | every task the form ever adds has priority medium |
| TaskInput.SubmittedTaskInViews | src/components/TaskInput.tsx:13-27 | a submitted task is appended to the store and to the end of the 'today' view for the date its timestamp starts with; the 'planned' view is unchanged |
| Login.MockUser | src/components/Login.tsx:22-27 | the signed-in user has id "1", the form's email and username, and the username as name |
| Login.HandleSubmit | src/components/Login.tsx:16-36 | `loginStart` first, then success with the mock user when email, password and username are all non-empty, otherwise the failure "All fields are required" |
| Login.PasswordNotChecked | src/components/Login.tsx:21 | the password's value never matters, only whether it is empty |
| Login.Submit | src/components/Login.tsx:16-36 | composed with the store: loading is off on both paths; success authenticates and stores the session; failure sets the message and leaves user, flag and storage as they were; the directory is never written |
| Login.DirectoryNotConsulted | src/components/Login.tsx:21-31 | sessions that differ only in storage end in the same state: the directory is not consulted |
| Signup.FirstFailure | src/components/Signup.tsx:23-44 | each outcome happens exactly when its own check fails and all earlier checks pass, in the order email, password policy, confirmation, username of at least 3 code units |
| Signup.Message | src/components/Signup.tsx:23-44 | a passing form shows no message; the password policy shows the validator's message; an invalid email, a mismatch and a short username show "Please enter a valid email address", "Passwords do not match" and "Username must be at least 3 characters long" |
| Signup.NewUser | src/components/Signup.tsx:50-55 | the new user has the clock id, the form's email and username, and the username as name |
| Signup.HandleSubmit | src/components/Signup.tsx:19-65 | the previous message is replaced by that of the first failing check; something is dispatched exactly when all checks pass, and then `signupStart` before `signupSuccess` with the new user |
| Signup.Submit | src/components/Signup.tsx:19-65 | composed with the store: a failing form leaves the session and storage untouched; a passing one authenticates the new user, registers it under its email and stores the session; other emails keep their entries |
| Signup.DisplayedError | src/components/Signup.tsx:135-139 | an error is shown when either message is non-empty, and the form's own message takes precedence over the store's |
| Signup.SuccessShowsNoError | src/components/Signup.tsx:137 | after a successful sign-up no error is shown |
| Signup.SignupScenario | src/components/Signup.tsx:19-65 | signing up "a@b.com" / "bob" with a matching accepted password registers the email and authenticates |
| Signup.WeakPasswordLeavesDirectory | src/components/Signup.tsx:29-34 | a rejected password stops the sign-up before the directory is touched |

## Findings

| source | as written | input that shows it | evidently intended | confidence | as-written member | corrected member |
|---|---|---|---|---|---|---|
| src/store/slices/authSlice.ts:122-125 | `isUserRegistered` returns `!!registeredUsers[email]` on an object parsed from JSON, so names inherited from `Object.prototype` count as registered | email "constructor" with an empty directory: `isUserRegistered` answers true (lemma `AuthSlice.InheritedKeyLooksRegistered`) | an email is registered exactly when the directory stores a user under it | high; not executed | AuthSlice.IsUserRegisteredAsWritten | AuthSlice.IsUserRegistered |
| src/store/slices/authSlice.ts:128-131 | `getRegisteredUser` returns `registeredUsers[email]` or null on an object parsed from JSON, so an inherited name yields an `Object.prototype` member | email "constructor" with an empty directory: `getRegisteredUser` returns the `Object` function instead of a user or null (lemma `AuthSlice.InheritedKeyLooksRegistered`) | the stored user for a registered email, null otherwise | high; not executed | AuthSlice.GetRegisteredUserAsWritten | AuthSlice.GetRegisteredUser |

The rest of the model (`SignupSuccess`, `Signup.Submit`) states its directory
properties through the corrected `IsUserRegistered` and `GetRegisteredUser`.

## Left out

- Rendering: Tailwind classes, icons, the profile image URL and the SVG ring geometry
  with `Math.PI` have no behaviour to state.
- Form constraint validation: the browser's `required`, `minLength` and `type="email"`
  checks on the sign-in and sign-up inputs (Login.tsx:54-78, Signup.tsx:86-124), which can
  stop the submit event before `handleSubmit` runs, are not modelled; the handlers are
  modelled for every input, so an empty sign-in field or a one- or two-character username
  reaches the handler's own checks in the model.
- Routing: `navigate` calls, the `Routes` table, `Header.tsx` (it only wires `logout` and
  `toggleTheme` to buttons) and the pages, which only pass a fixed `filter` to the task
  list. The `TodayTasks` and `AssignedTasks` pages are not part of this model.
- Storage reads in `getInitialTheme`: the read of the saved theme is assumed not to
  throw. Unlike `loadStoredAuth` and `getRegisteredUsers`, `getInitialTheme` does not catch
  a failing read, so with a window but inaccessible storage the program fails at start-up;
  the model instead treats an unreadable theme as absent and falls back to the platform
  preference.
- Storage failures: every storage write is assumed to succeed. A write that throws inside
  `loginSuccess` or `signupSuccess` would make the handlers dispatch a failure with the
  error's message or "Login failed" / "Signup failed"; those paths are not modelled.
- JSON: a stored value that is absent, empty or not valid JSON reads as `None`. The stored
  `user` is taken to be a user or absent, and `isAuthenticated` is reduced to its
  truthiness; stored values of other shapes are not modelled.
- AuthSlice.SignupSuccess: treats every email as an ordinary directory key; an email of
  "__proto__", which a plain object would not store as an own property, is not modelled.
- Clocks: `Date.now()`, `new Date().toISOString()` and today's date are parameters; that
  the date is taken in UTC is not modelled.
- Pacing: the one-second delay in sign-up and anything dispatched during it are not
  modelled; the order of the handler's own dispatches is.
- `validateEmail` and `validatePassword` are not part of this model; they are parameters
  of the sign-up handler.
- The `disabled={loading}` guard on the submit buttons and the storage event of other tabs.
- Numbers: the percentage is computed on exact rationals, not floating point, so a value
  that lands on a half can round differently from the program: with 29 of 200 tasks
  completed, double arithmetic gives 14.499999999999998 and shows 14%, while the model
  computes exactly 14.5 and shows 15%.
- TaskList.Trash: requires the side panel to be shown (a selection that is present and
  non-empty), because the trash button exists only then.
