/**
 The dashboard's statistics: completed, total and today's task counts, and the
 percentage it hands to the completion ring.
 */
module Dashboard {
  import opened Types
  import opened Seqs
  import opened Strings
  import TasksSlice
  import TaskList
  import CircularProgress

  predicate IsCompleted(t: Task)
  {
    t.completed
  }

  predicate IsPending(t: Task)
  {
    !t.completed
  }

  function CreatedOn(today: string): Task -> bool
  {
    (t: Task) => StartsWith(t.createdAt, today)
  }

  /** `todayTasks`: the tasks whose creation timestamp starts with today's date. */
  function TodayTasks(tasks: seq<Task>, today: string): (r: seq<Task>)
    ensures |r| <= |tasks|
    ensures forall t :: t in r <==> t in tasks && today <= t.createdAt
  {
    KeepMembers(tasks, CreatedOn(today));
    Keep(tasks, CreatedOn(today))
  }

  /** The dashboard's count and the task list's 'today' view select the same tasks. */
  lemma {:induction false} TodayAgreesWithView(tasks: seq<Task>, today: string)
    ensures TodayTasks(tasks, today) == TaskList.VisibleTasks(tasks, Today, today)
  {
    KeepAgree(tasks, CreatedOn(today), TaskList.ViewPredicate(Today, today));
  }

  datatype Stats = Stats(completedTasks: nat, totalTasks: nat, todayTasks: nat)

  /** The three numbers the dashboard shows. */
  function DashboardStats(tasks: seq<Task>, today: string): (r: Stats)
    ensures r.totalTasks == |tasks|
    ensures r.completedTasks <= r.totalTasks && r.todayTasks <= r.totalTasks
    ensures r.completedTasks == Count(tasks, IsCompleted)
    ensures r.completedTasks == 0 <==> forall i :: 0 <= i < |tasks| ==> !tasks[i].completed
    ensures r.completedTasks == r.totalTasks <==> forall i :: 0 <= i < |tasks| ==> tasks[i].completed
    ensures r.todayTasks == |TaskList.VisibleTasks(tasks, Today, today)|
  {
    KeepLength(tasks, IsCompleted);
    TodayAgreesWithView(tasks, today);
    Stats(|Keep(tasks, IsCompleted)|, |tasks|, |TodayTasks(tasks, today)|)
  }

  /** Completed and pending tasks partition the list. */
  lemma CompletedPlusPending(tasks: seq<Task>, today: string)
    ensures DashboardStats(tasks, today).completedTasks + Count(tasks, IsPending) == |tasks|
  {
    KeepPartition(tasks, IsCompleted, IsPending);
    KeepLength(tasks, IsPending);
  }

  /** The percentage the ring shows for a task list is a whole number from 0 to 100. */
  lemma DisplayedPercentageInRange(tasks: seq<Task>, today: string)
    ensures var st := DashboardStats(tasks, today);
            0 <= CircularProgress.DisplayedPercentage(st.completedTasks, st.totalTasks) <= 100
  {
  }

  /** Adding a task raises the total by one and the completed count by one exactly when
      the new task is already completed. */
  lemma {:induction false} AddTaskStats(s: TasksState, t: Task, today: string)
    ensures DashboardStats(TasksSlice.AddTask(s, t).tasks, today).totalTasks
              == DashboardStats(s.tasks, today).totalTasks + 1
    ensures DashboardStats(TasksSlice.AddTask(s, t).tasks, today).completedTasks
              == DashboardStats(s.tasks, today).completedTasks + (if t.completed then 1 else 0)
  {
    assert TasksSlice.AddTask(s, t).tasks == s.tasks + [t];
    CountConcat(s.tasks, [t], IsCompleted);
  }

  /** Toggling a present id moves the completed count by exactly one; an absent id leaves it. */
  lemma {:induction false} ToggleTaskStats(s: TasksState, id: string, today: string)
    ensures var before := DashboardStats(s.tasks, today).completedTasks;
            var after := DashboardStats(TasksSlice.ToggleTask(s, id).tasks, today).completedTasks;
            if TasksSlice.HasId(s.tasks, id) then after == before + 1 || after + 1 == before
            else after == before
  {
    var r := TasksSlice.ToggleTask(s, id);
    match TasksSlice.FindIndex(s.tasks, id)
    case None =>
    case Some(i) =>
      var a := s.tasks;
      var b := r.tasks;
      assert b == a[..i] + [b[i]] + b[i + 1..] by {
        assert forall k :: 0 <= k < |a| && k != i ==> b[k] == a[k];
      }
      assert a == a[..i] + [a[i]] + a[i + 1..];
      assert a[..i] == b[..i] && a[i + 1..] == b[i + 1..];
      CountConcat(a[..i] + [a[i]], a[i + 1..], IsCompleted);
      CountConcat(a[..i], [a[i]], IsCompleted);
      CountConcat(b[..i] + [b[i]], b[i + 1..], IsCompleted);
      CountConcat(b[..i], [b[i]], IsCompleted);
  }
}
