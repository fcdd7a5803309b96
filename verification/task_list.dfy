/**
 The task list component's logic: which tasks a view shows, what the star and
 the checkbox dispatch, and which task is selected in the side panel.
 */
module TaskList {
  import opened Types
  import opened Seqs
  import opened Strings
  import TasksSlice

  /** Whether a task belongs to a view. `today` is the caller's `YYYY-MM-DD` date;
      `dueDate` and `assignedTo` count only when present and non-empty. */
  predicate InView(t: Task, f: Filter, today: string)
  {
    match f
    case All => true
    case Today => StartsWith(t.createdAt, today)
    case Important => t.priority == High
    case Planned => Truthy(t.dueDate)
    case Assigned => Truthy(t.assignedTo)
  }

  function ViewPredicate(f: Filter, today: string): Task -> bool
  {
    (t: Task) => InView(t, f, today)
  }

  /** The task selector: the store's tasks filtered by the view, in store order.
      The 'all' view is the list itself. */
  function VisibleTasks(tasks: seq<Task>, f: Filter, today: string): (r: seq<Task>)
    ensures IsSubsequence(r, tasks)
    ensures forall t :: multiset(r)[t] == if InView(t, f, today) then multiset(tasks)[t] else 0
    ensures f == All ==> r == tasks
    ensures f == Today ==> forall t :: t in r <==> t in tasks && today <= t.createdAt
    ensures f == Important ==> forall t :: t in r <==> t in tasks && t.priority == High
    ensures f == Planned ==> forall t :: t in r <==> t in tasks && t.dueDate.Some? && t.dueDate.value != ""
    ensures f == Assigned ==> forall t :: t in r <==> t in tasks && t.assignedTo.Some? && t.assignedTo.value != ""
  {
    if f == All then
      assert IsSubsequence(tasks, tasks) by { KeepAll(tasks, ViewPredicate(All, today)); }
      tasks
    else
      KeepMultiset(tasks, ViewPredicate(f, today));
      KeepMembers(tasks, ViewPredicate(f, today));
      Keep(tasks, ViewPredicate(f, today))
  }

  /** Appending a task to the store extends every view by that task exactly when the
      view shows it; the tasks already in the view keep their places. */
  lemma {:induction false} VisibleAfterAppend(tasks: seq<Task>, t: Task, f: Filter, today: string)
    ensures VisibleTasks(tasks + [t], f, today) ==
              VisibleTasks(tasks, f, today) + (if InView(t, f, today) then [t] else [])
  {
    if f != All {
      var p := ViewPredicate(f, today);
      KeepConcat(tasks, [t], p);
      assert [t][1..] == [];
    }
  }

  /** The star button's new priority: high becomes medium, anything else becomes high. */
  function StarPriority(p: Priority): (r: Priority)
    ensures r == Medium || r == High
    ensures r == High <==> p != High
  {
    if p == High then Medium else High
  }

  /** Pressing the star moves a task into or out of the 'important' view. */
  lemma StarTogglesImportant(t: Task, today: string)
    ensures InView(t.(priority := StarPriority(t.priority)), Important, today) <==> !InView(t, Important, today)
  {
  }

  /** Two presses starting from high return to high; from any other priority they end on medium. */
  lemma StarTwice(p: Priority)
    ensures StarPriority(StarPriority(p)) == (if p == High then High else Medium)
  {
  }

  /** What the star button on task `t` dispatches. */
  function PressStar(s: TasksState, t: Task): (r: TasksState)
    ensures |r.tasks| == |s.tasks| && r.filter == s.filter
    ensures forall k :: 0 <= k < |s.tasks| ==>
              r.tasks[k] == if TasksSlice.IsFirstWithId(s.tasks, k, t.id)
                            then s.tasks[k].(priority := StarPriority(t.priority))
                            else s.tasks[k]
  {
    TasksSlice.Reduce(s, TasksSlice.UpdateTaskPriorityAction(t.id, StarPriority(t.priority)))
  }

  /** What the checkbox of task `t` dispatches. */
  function CheckTask(s: TasksState, t: Task): (r: TasksState)
    ensures |r.tasks| == |s.tasks| && r.filter == s.filter
    ensures forall k :: 0 <= k < |s.tasks| ==>
              r.tasks[k] == if TasksSlice.IsFirstWithId(s.tasks, k, t.id)
                            then s.tasks[k].(completed := !s.tasks[k].completed)
                            else s.tasks[k]
  {
    TasksSlice.Reduce(s, TasksSlice.ToggleTaskAction(t.id))
  }

  /** With unique ids, the star of the task at position `k` acts on that task: one press
      flips its priority, and a second press on the updated task restores a high priority. */
  lemma PressStarOnTask(s: TasksState, k: int)
    requires TasksSlice.UniqueIds(s.tasks)
    requires 0 <= k < |s.tasks|
    ensures PressStar(s, s.tasks[k]).tasks[k].priority == StarPriority(s.tasks[k].priority)
    ensures s.tasks[k].priority == High ==>
              PressStar(PressStar(s, s.tasks[k]), PressStar(s, s.tasks[k]).tasks[k]) == s
  {
    TasksSlice.UniqueIdsFirst(s.tasks, k);
    var s1 := PressStar(s, s.tasks[k]);
    if s.tasks[k].priority == High {
      var s2 := PressStar(s1, s1.tasks[k]);
      forall j | 0 <= j < |s.tasks|
        ensures s2.tasks[j] == s.tasks[j]
      {
        TasksSlice.SameIdsSameFirst(s.tasks, s1.tasks, j, s.tasks[k].id);
      }
    }
  }

  /** With unique ids, the checkbox of the task at position `k` flips exactly that task. */
  lemma CheckTaskOnTask(s: TasksState, k: int)
    requires TasksSlice.UniqueIds(s.tasks)
    requires 0 <= k < |s.tasks|
    ensures CheckTask(s, s.tasks[k]).tasks[k] == s.tasks[k].(completed := !s.tasks[k].completed)
    ensures forall j :: 0 <= j < |s.tasks| && j != k ==> CheckTask(s, s.tasks[k]).tasks[j] == s.tasks[j]
  {
    TasksSlice.UniqueIdsFirst(s.tasks, k);
  }

  /** Clicking a task row: clicking the selected task deselects it, clicking any other selects it. */
  function ClickTask(selected: Option<string>, taskId: string): (r: Option<string>)
    ensures r == None <==> selected == Some(taskId)
    ensures r.Some? ==> r.value == taskId
  {
    if selected == Some(taskId) then None else Some(taskId)
  }

  /** The side panel, with its close and trash buttons, is shown only for a truthy selection. */
  predicate PanelShown(selected: Option<string>)
  {
    Truthy(selected)
  }

  /** The trash button: remove the selected task and clear the selection. The button
      exists only while the panel is shown. */
  function Trash(s: TasksState, selected: Option<string>): (r: (TasksState, Option<string>))
    requires PanelShown(selected)
    ensures r.1 == None
    ensures r.0 == TasksSlice.RemoveTask(s, selected.value)
    ensures forall t :: t in r.0.tasks <==> t in s.tasks && t.id != selected.value
    ensures forall t :: multiset(r.0.tasks)[t] == if t.id != selected.value then multiset(s.tasks)[t] else 0
    ensures r.0.filter == s.filter
  {
    (TasksSlice.Reduce(s, TasksSlice.RemoveTaskAction(selected.value)), None)
  }
}
