/**
 * The type-aliases exercise: tasks with a three-valued status, and the
 * selection of the completed ones.
 */
module TypeAliases {
  import opened Wrappers
  import opened Seqs

  /** A task is pending, completed or canceled; no other status exists. */
  datatype Status = Pending | Completed | Canceled

  /** `dueDate` is optional; a date is kept as a millisecond timestamp. */
  datatype Task = Task(id: int, title: string, status: Status, dueDate: Option<int>)

  predicate IsCompleted(t: Task) { t.status == Completed }

  /**
   * The completed tasks, in input order: every returned task is completed,
   * every completed input task is returned as often as it occurs, and the
   * result is a subsequence of the input.
   */
  function GetCompletedTasks(tasks: seq<Task>): (r: seq<Task>)
    ensures forall i :: 0 <= i < |r| ==> r[i].status == Completed
    ensures forall t | t in tasks && t.status == Completed :: multiset(r)[t] == multiset(tasks)[t]
    ensures multiset(r) <= multiset(tasks)
    ensures IsSubsequence(r, tasks)
    ensures |r| <= |tasks|
  {
    Filter(tasks, IsCompleted)
  }

  /** Selecting the completed tasks twice gives the same result as once. */
  lemma GetCompletedTasksIdempotent(tasks: seq<Task>)
    ensures GetCompletedTasks(GetCompletedTasks(tasks)) == GetCompletedTasks(tasks)
  {
    FilterIdempotent(tasks, IsCompleted);
  }

  /** Without a completed task in the input (an empty input included) the result is empty. */
  lemma NoCompletedTasks(tasks: seq<Task>)
    requires forall i :: 0 <= i < |tasks| ==> tasks[i].status != Completed
    ensures GetCompletedTasks(tasks) == []
  {
  }

  /** When every task is completed, the whole input comes back unchanged. */
  lemma AllCompletedTasks(tasks: seq<Task>)
    requires forall i :: 0 <= i < |tasks| ==> tasks[i].status == Completed
    ensures GetCompletedTasks(tasks) == tasks
  {
    FilterAllKept(tasks, IsCompleted);
  }

  const Task1 := Task(1, "レポート作成", Pending, Some(1735603200000))
  const Task2 := Task(2, "ミーティング準備", Completed, None)
  const Task3 := Task(3, "プレゼン資料", Canceled, None)

  /** Of the pending, completed and canceled sample tasks, only the completed one is selected. */
  lemma SampleCompletedTasks()
    ensures GetCompletedTasks([Task1, Task2, Task3]) == [Task2]
  {
    var tasks := [Task1, Task2, Task3];
    assert tasks[1..] == [Task2, Task3] && tasks[1..][1..] == [Task3];
    assert !IsCompleted(Task1) && IsCompleted(Task2) && !IsCompleted(Task3);
    NoCompletedTasks([Task3]);
    assert Filter([Task2, Task3], IsCompleted) == [Task2] + Filter([Task3], IsCompleted);
    assert Filter(tasks, IsCompleted) == Filter([Task2, Task3], IsCompleted);
  }
}
