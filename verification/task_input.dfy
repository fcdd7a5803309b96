/**
 The new-task form: its local state (the typed title and the selected priority)
 and its submit handler, which dispatches at most one `addTask`.
 */
module TaskInput {
  import opened Types
  import opened Strings
  import TasksSlice
  import TaskList

  datatype Form = Form(title: string, priority: Priority)

  /** The form as first rendered: an empty title and priority medium. */
  function InitialForm(): (f: Form)
    ensures f.title == "" && f.priority == Medium
  {
    Form("", Medium)
  }

  datatype SubmitResult = SubmitResult(form: Form, dispatched: seq<TasksSlice.TaskAction>)

  /** The task an accepted submit adds: the trimmed title, the selected priority, not
      completed, created at `now`, with no due date and no assignee. */
  function NewTask(f: Form, id: string, now: string): (t: Task)
    ensures t.id == id && t.createdAt == now && t.title == Trim(f.title) && t.priority == f.priority
    ensures !t.completed && t.dueDate == None && t.assignedTo == None
  {
    Task(id, Trim(f.title), f.priority, false, now, None, None)
  }

  /** `handleSubmit`. `id` and `now` are the clock readings `Date.now().toString()` and
      `new Date().toISOString()`. A title that trims to nothing dispatches nothing and
      keeps the form as it is; otherwise one task with a non-empty title is added and the
      title is cleared. */
  function HandleSubmit(f: Form, id: string, now: string): (r: SubmitResult)
    ensures r.dispatched == [] <==> AllWhitespace(f.title)
    ensures AllWhitespace(f.title) ==> r.form == f
    ensures !AllWhitespace(f.title) ==>
              && r.form == Form("", f.priority)
              && r.dispatched == [TasksSlice.AddTaskAction(NewTask(f, id, now))]
              && NewTask(f, id, now).title != ""
  {
    if Trim(f.title) != "" then
      SubmitResult(f.(title := ""), [TasksSlice.AddTaskAction(NewTask(f, id, now))])
    else
      SubmitResult(f, [])
  }

  /** The events the form reacts to: typing into the title field and submitting. */
  datatype Event = Typed(text: string) | Submitted(id: string, now: string)

  /** Run the form through a sequence of events, collecting every dispatched action. */
  function Run(f: Form, events: seq<Event>): (r: SubmitResult)
    ensures r.form.priority == f.priority
    ensures forall i :: 0 <= i < |r.dispatched| ==>
              r.dispatched[i].AddTaskAction? && r.dispatched[i].task.priority == f.priority
    decreases |events|
  {
    if |events| == 0 then SubmitResult(f, [])
    else
      match events[0]
      case Typed(text) => Run(f.(title := text), events[1..])
      case Submitted(id, now) =>
        var step := HandleSubmit(f, id, now);
        var rest := Run(step.form, events[1..]);
        SubmitResult(rest.form, step.dispatched + rest.dispatched)
  }

  /** Nothing in the form ever changes the selected priority, so every task it adds is medium. */
  lemma EveryAddedTaskIsMedium(events: seq<Event>)
    ensures forall i :: 0 <= i < |Run(InitialForm(), events).dispatched| ==>
              Run(InitialForm(), events).dispatched[i].task.priority == Medium
  {
  }

  /** Submitting a task created at `now` and then looking at the 'today' view for a date
      that `now` starts with shows the new task at the end, after the tasks it showed
      before; the 'planned' view never shows it and stays as it was. */
  lemma SubmittedTaskInViews(s: TasksState, f: Form, id: string, now: string, today: string)
    requires !AllWhitespace(f.title)
    requires StartsWith(now, today)
    ensures var s' := TasksSlice.ReduceAll(s, HandleSubmit(f, id, now).dispatched);
            var t := NewTask(f, id, now);
            && t in TaskList.VisibleTasks(s'.tasks, Today, today)
            && t !in TaskList.VisibleTasks(s'.tasks, Planned, today)
            && s'.tasks == s.tasks + [t]
            && TaskList.VisibleTasks(s'.tasks, Today, today) == TaskList.VisibleTasks(s.tasks, Today, today) + [t]
            && TaskList.VisibleTasks(s'.tasks, Planned, today) == TaskList.VisibleTasks(s.tasks, Planned, today)
  {
    var t := NewTask(f, id, now);
    var s' := TasksSlice.ReduceAll(s, HandleSubmit(f, id, now).dispatched);
    assert s' == TasksSlice.AddTask(s, t);
    assert s'.tasks[|s.tasks|] == t;
    TaskList.VisibleAfterAppend(s.tasks, t, Today, today);
    TaskList.VisibleAfterAppend(s.tasks, t, Planned, today);
  }
}
