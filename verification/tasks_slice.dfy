/**
 The task store: an ordered task list plus the active view filter, and the
 five reducers that change it. Each reducer is a total function on `TasksState`.
 */
module TasksSlice {
  import opened Types
  import opened Seqs

  /** The store before any action: no tasks, not loading, no error, filter 'all'. */
  function InitialState(): (s: TasksState)
    ensures |s.tasks| == 0 && !s.loading && s.error == None && s.filter == All
  {
    TasksState([], false, None, All)
  }

  /** Position `j` holds the first task of `ts` whose id is `id`. */
  predicate IsFirstWithId(ts: seq<Task>, j: int, id: string)
  {
    && 0 <= j < |ts|
    && ts[j].id == id
    && forall k :: 0 <= k < j ==> ts[k].id != id
  }

  /** The position where `ts.find(t => t.id === id)` stops, with `None` for "no such task". */
  function FindIndex(ts: seq<Task>, id: string): (r: Option<nat>)
    ensures r.Some? ==> IsFirstWithId(ts, r.value, id)
    ensures r.None? ==> forall k :: 0 <= k < |ts| ==> ts[k].id != id
  {
    if |ts| == 0 then None
    else if ts[0].id == id then Some(0)
    else match FindIndex(ts[1..], id)
      case None => None
      case Some(i) => Some(i + 1)
  }

  /** The first task with a given id is unique; in particular it is what `FindIndex` finds. */
  lemma FirstWithIdUnique(ts: seq<Task>, j: int, id: string)
    requires IsFirstWithId(ts, j, id)
    ensures FindIndex(ts, id) == Some(j)
  {
  }

  predicate HasId(ts: seq<Task>, id: string)
  {
    exists k :: 0 <= k < |ts| && ts[k].id == id
  }

  /** No two tasks share an id. The store does not enforce this. */
  predicate UniqueIds(ts: seq<Task>)
  {
    forall i, j :: 0 <= i < j < |ts| ==> ts[i].id != ts[j].id
  }

  /** Under unique ids, the task at position `k` is the first one carrying its id. */
  lemma UniqueIdsFirst(ts: seq<Task>, k: int)
    requires UniqueIds(ts)
    requires 0 <= k < |ts|
    ensures IsFirstWithId(ts, k, ts[k].id)
  {
  }

  function WithId(id: string): Task -> bool
  {
    (t: Task) => t.id == id
  }

  function WithoutId(id: string): Task -> bool
  {
    (t: Task) => t.id != id
  }

  /** `addTask`: push the payload at the end, without looking at its id. */
  function AddTask(s: TasksState, t: Task): (r: TasksState)
    ensures |r.tasks| == |s.tasks| + 1
    ensures r.tasks[..|s.tasks|] == s.tasks && r.tasks[|s.tasks|] == t
    ensures r.filter == s.filter && r.loading == s.loading && r.error == s.error
  {
    s.(tasks := s.tasks + [t])
  }

  /** `addTask` does not deduplicate: the number of tasks carrying the payload's id grows by one. */
  lemma AddTaskNoDedup(s: TasksState, t: Task)
    ensures Count(AddTask(s, t).tasks, WithId(t.id)) == Count(s.tasks, WithId(t.id)) + 1
    ensures HasId(s.tasks, t.id) ==> Count(AddTask(s, t).tasks, WithId(t.id)) >= 2
  {
    CountConcat(s.tasks, [t], WithId(t.id));
    if HasId(s.tasks, t.id) {
      var k :| 0 <= k < |s.tasks| && s.tasks[k].id == t.id;
      assert Count(s.tasks, WithId(t.id)) != 0 by {
        assert WithId(t.id)(s.tasks[k]);
      }
    }
  }

  /** Adding keeps ids unique exactly when the new id is fresh. */
  lemma AddTaskUniqueIds(s: TasksState, t: Task)
    ensures UniqueIds(AddTask(s, t).tasks) <==> UniqueIds(s.tasks) && !HasId(s.tasks, t.id)
  {
    var ts := AddTask(s, t).tasks;
    if UniqueIds(ts) {
      forall k | 0 <= k < |s.tasks|
        ensures s.tasks[k].id != t.id
      {
        assert ts[k] == s.tasks[k] && ts[|s.tasks|] == t;
      }
    }
  }

  /** `removeTask`: keep every task whose id differs, dropping every task with the id. */
  function RemoveTask(s: TasksState, id: string): (r: TasksState)
    ensures forall t :: t in r.tasks <==> t in s.tasks && t.id != id
    ensures IsSubsequence(r.tasks, s.tasks)
    ensures forall t :: multiset(r.tasks)[t] == if t.id != id then multiset(s.tasks)[t] else 0
    ensures !HasId(s.tasks, id) ==> r == s
    ensures r.filter == s.filter && r.loading == s.loading && r.error == s.error
  {
    KeepMultiset(s.tasks, WithoutId(id));
    KeepMembers(s.tasks, WithoutId(id));
    assert !HasId(s.tasks, id) ==> Keep(s.tasks, WithoutId(id)) == s.tasks by {
      if !HasId(s.tasks, id) { KeepAll(s.tasks, WithoutId(id)); }
    }
    s.(tasks := Keep(s.tasks, WithoutId(id)))
  }

  /** `removeTask` shortens the list by the number of tasks that carried the id:
      by exactly one when ids are unique and the id is present. */
  lemma RemoveTaskLength(s: TasksState, id: string)
    ensures |RemoveTask(s, id).tasks| + Count(s.tasks, WithId(id)) == |s.tasks|
    ensures UniqueIds(s.tasks) && HasId(s.tasks, id) ==> |RemoveTask(s, id).tasks| == |s.tasks| - 1
  {
    KeepLength(s.tasks, WithoutId(id));
    KeepPartition(s.tasks, WithoutId(id), WithId(id));
    KeepLength(s.tasks, WithId(id));
    if UniqueIds(s.tasks) && HasId(s.tasks, id) {
      var k :| 0 <= k < |s.tasks| && s.tasks[k].id == id;
      UniqueCountOne(s.tasks, k);
    }
  }

  /** Under unique ids, exactly one task carries the id of the task at position `k`. */
  lemma {:induction false} UniqueCountOne(ts: seq<Task>, k: int)
    requires UniqueIds(ts)
    requires 0 <= k < |ts|
    ensures Count(ts, WithId(ts[k].id)) == 1
  {
    var id := ts[k].id;
    assert ts == ts[..k] + [ts[k]] + ts[k + 1..];
    CountConcat(ts[..k] + [ts[k]], ts[k + 1..], WithId(id));
    CountConcat(ts[..k], [ts[k]], WithId(id));
    assert Count(ts[..k], WithId(id)) == 0 by {
      forall i | 0 <= i < k ensures !WithId(id)(ts[..k][i]) {
        assert ts[..k][i] == ts[i];
      }
    }
    var tail := ts[k + 1..];
    assert Count(tail, WithId(id)) == 0 by {
      forall i | 0 <= i < |tail| ensures !WithId(id)(tail[i]) {
        assert tail[i] == ts[k + 1 + i];
      }
    }
  }

  /** Removing twice is the same as removing once. */
  lemma RemoveTaskIdempotent(s: TasksState, id: string)
    ensures RemoveTask(RemoveTask(s, id), id) == RemoveTask(s, id)
  {
    var r := RemoveTask(s, id);
    assert !HasId(r.tasks, id) by {
      forall k | 0 <= k < |r.tasks| ensures r.tasks[k].id != id {
        assert r.tasks[k] in r.tasks;
      }
    }
  }

  /** `toggleTask`: flip `completed` on the first task with the id, if there is one. */
  function ToggleTask(s: TasksState, id: string): (r: TasksState)
    ensures |r.tasks| == |s.tasks|
    ensures forall k :: 0 <= k < |s.tasks| ==>
              r.tasks[k] == if IsFirstWithId(s.tasks, k, id)
                            then s.tasks[k].(completed := !s.tasks[k].completed)
                            else s.tasks[k]
    ensures !HasId(s.tasks, id) ==> r == s
    ensures r.filter == s.filter && r.loading == s.loading && r.error == s.error
  {
    match FindIndex(s.tasks, id)
    case None => s
    case Some(i) =>
      var t := s.tasks[i];
      s.(tasks := s.tasks[i := t.(completed := !t.completed)])
  }

  /** Toggling the same id twice restores the store (an involution). */
  lemma ToggleTaskTwice(s: TasksState, id: string)
    ensures ToggleTask(ToggleTask(s, id), id) == s
  {
    var r1 := ToggleTask(s, id);
    var r2 := ToggleTask(r1, id);
    forall k | 0 <= k < |s.tasks|
      ensures r2.tasks[k] == s.tasks[k]
    {
      SameIdsSameFirst(s.tasks, r1.tasks, k, id);
    }
  }

  /** Whether position `k` is the first with an id depends only on the ids. */
  lemma SameIdsSameFirst(a: seq<Task>, b: seq<Task>, k: int, id: string)
    requires |a| == |b|
    requires forall i :: 0 <= i < |a| ==> a[i].id == b[i].id
    ensures IsFirstWithId(a, k, id) <==> IsFirstWithId(b, k, id)
  {
  }

  /** `updateTaskPriority`: set the priority of the first task with the id, if there is one. */
  function UpdateTaskPriority(s: TasksState, id: string, p: Priority): (r: TasksState)
    ensures |r.tasks| == |s.tasks|
    ensures forall k :: 0 <= k < |s.tasks| ==>
              r.tasks[k] == if IsFirstWithId(s.tasks, k, id)
                            then s.tasks[k].(priority := p)
                            else s.tasks[k]
    ensures !HasId(s.tasks, id) ==> r == s
    ensures r.filter == s.filter && r.loading == s.loading && r.error == s.error
  {
    match FindIndex(s.tasks, id)
    case None => s
    case Some(i) => s.(tasks := s.tasks[i := s.tasks[i].(priority := p)])
  }

  /** Setting the same priority twice is the same as setting it once. */
  lemma UpdateTaskPriorityIdempotent(s: TasksState, id: string, p: Priority)
    ensures UpdateTaskPriority(UpdateTaskPriority(s, id, p), id, p) == UpdateTaskPriority(s, id, p)
  {
    var r1 := UpdateTaskPriority(s, id, p);
    var r2 := UpdateTaskPriority(r1, id, p);
    forall k | 0 <= k < |s.tasks|
      ensures r2.tasks[k] == r1.tasks[k]
    {
      SameIdsSameFirst(s.tasks, r1.tasks, k, id);
    }
  }

  /** `setFilter`: replace the filter and nothing else. */
  function SetFilter(s: TasksState, f: Filter): (r: TasksState)
    ensures r.filter == f
    ensures r.tasks == s.tasks && r.loading == s.loading && r.error == s.error
  {
    s.(filter := f)
  }

  /** The latest filter wins. */
  lemma SetFilterLastWins(s: TasksState, f: Filter, g: Filter)
    ensures SetFilter(SetFilter(s, f), g) == SetFilter(s, g)
  {
  }

  /** The actions the task store accepts. */
  datatype TaskAction =
    | AddTaskAction(task: Task)
    | RemoveTaskAction(id: string)
    | ToggleTaskAction(id: string)
    | UpdateTaskPriorityAction(id: string, priority: Priority)
    | SetFilterAction(filter: Filter)

  /** The task store's reducer. No action touches `loading` or `error`, and only
      an `addTask` whose id is already present can break id uniqueness. */
  function Reduce(s: TasksState, a: TaskAction): (r: TasksState)
    ensures r.loading == s.loading && r.error == s.error
    ensures UniqueIds(s.tasks) && !(a.AddTaskAction? && HasId(s.tasks, a.task.id)) ==> UniqueIds(r.tasks)
  {
    match a
    case AddTaskAction(t) =>
      AddTaskUniqueIds(s, t);
      AddTask(s, t)
    case RemoveTaskAction(id) =>
      var r := RemoveTask(s, id);
      assert UniqueIds(s.tasks) ==> UniqueIds(r.tasks) by {
        if UniqueIds(s.tasks) {
          SubsequenceUniqueIds(r.tasks, s.tasks);
        }
      }
      r
    case ToggleTaskAction(id) =>
      var r := ToggleTask(s, id);
      assert forall k :: 0 <= k < |s.tasks| ==> r.tasks[k].id == s.tasks[k].id;
      r
    case UpdateTaskPriorityAction(id, p) =>
      var r := UpdateTaskPriority(s, id, p);
      assert forall k :: 0 <= k < |s.tasks| ==> r.tasks[k].id == s.tasks[k].id;
      r
    case SetFilterAction(f) => SetFilter(s, f)
  }

  /** A subsequence of a list with unique ids has unique ids. */
  lemma {:induction false} SubsequenceUniqueIds(a: seq<Task>, b: seq<Task>)
    requires IsSubsequence(a, b)
    requires UniqueIds(b)
    ensures UniqueIds(a)
    decreases |b|
  {
    if |a| > 0 {
      assert |b| > 0;
      assert UniqueIds(b[1..]) by {
        forall i, j | 0 <= i < j < |b[1..]| ensures b[1..][i].id != b[1..][j].id {
          assert b[1..][i] == b[i + 1] && b[1..][j] == b[j + 1];
        }
      }
      if a[0] == b[0] && IsSubsequence(a[1..], b[1..]) {
        SubsequenceUniqueIds(a[1..], b[1..]);
        forall j | 0 < j < |a| ensures a[0].id != a[j].id {
          assert a[j] == a[1..][j - 1];
          SubsequenceMember(a[1..], b[1..], j - 1);
        }
      } else {
        SubsequenceUniqueIds(a, b[1..]);
      }
    }
  }

  /** Every element of a subsequence occurs in the larger sequence. */
  lemma {:induction false} SubsequenceMember<T(!new)>(a: seq<T>, b: seq<T>, i: int)
    requires IsSubsequence(a, b)
    requires 0 <= i < |a|
    ensures a[i] in b
    decreases |b|
  {
    if a[0] == b[0] && IsSubsequence(a[1..], b[1..]) {
      if i > 0 {
        SubsequenceMember(a[1..], b[1..], i - 1);
      }
    } else {
      SubsequenceMember(a, b[1..], i);
    }
  }

  /** Dispatch a sequence of actions in order. */
  function ReduceAll(s: TasksState, actions: seq<TaskAction>): (r: TasksState)
    ensures r.loading == s.loading && r.error == s.error
    decreases |actions|
  {
    if |actions| == 0 then s else ReduceAll(Reduce(s, actions[0]), actions[1..])
  }
}
