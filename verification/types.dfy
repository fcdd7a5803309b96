/**
 The records shared by the whole application: tasks, users, the session state
 and the task-store state, each as an immutable datatype.
 */
module Types {

  /** A value that may be absent: TypeScript's `T | null`, `T | undefined` and
      optional properties (`dueDate?`) all become `Option<T>`. */
  datatype Option<+T> = None | Some(value: T)

  /** `priority: 'low' | 'medium' | 'high'` */
  datatype Priority = Low | Medium | High

  /** A task. `dueDate` and `assignedTo` are optional; every other field is required. */
  datatype Task = Task(
    id: string,
    title: string,
    priority: Priority,
    completed: bool,
    createdAt: string,
    dueDate: Option<string>,
    assignedTo: Option<string>)

  datatype User = User(id: string, email: string, username: string, name: string)

  /** `theme: 'light' | 'dark'` */
  datatype Theme = Light | Dark

  /** The session held by the auth store; `user` is nullable. */
  datatype AuthState = AuthState(
    user: Option<User>,
    isAuthenticated: bool,
    loading: bool,
    error: Option<string>,
    theme: Theme)

  /** The named task views. */
  datatype Filter = All | Today | Important | Planned | Assigned

  datatype TasksState = TasksState(
    tasks: seq<Task>,
    loading: bool,
    error: Option<string>,
    filter: Filter)

  /** The string a theme is stored and compared as. */
  function ThemeName(t: Theme): (s: string)
    ensures ParseTheme(s) == Some(t)
  {
    match t
    case Light => "light"
    case Dark => "dark"
  }

  /** The theme a stored string names, if it names one. */
  function ParseTheme(s: string): (r: Option<Theme>)
  {
    if s == "dark" then Some(Dark)
    else if s == "light" then Some(Light)
    else None
  }

  /** The other theme. */
  function Flip(t: Theme): (r: Theme)
    ensures r != t
  {
    match t
    case Light => Dark
    case Dark => Light
  }
}
