/**
  A single-session task list: an ordered collection of tasks, each a
  description and a completion flag, addressed by 1-based number.

  Every console message of the to-do application is replaced by a returned value:
  a `Status` for the mutating operations and a `Listing` for the listing.
 */
module Todo {

  datatype Option<T> = None | Some(value: T)

  /** A task: its description, kept exactly as given, and whether it is done. */
  datatype Task = Task(description: string, completed: bool)

  /** The outcome each mutating operation reports (one per console message). */
  datatype Status = Added | NoTasks | Completed | Deleted | InvalidNumber

  /** The status label shown next to a task in a listing. */
  datatype Progress = Complete | Incomplete

  /** One line of a listing: 1-based position, description and label. */
  datatype Entry = Entry(position: int, description: string, progress: Progress)

  /** A listing is either the distinct empty-list outcome or one entry per task. */
  datatype Listing = NoTasksFound | Entries(entries: seq<Entry>)

  /** The list after an operation, with the status the operation reports. */
  datatype Update = Update(tasks: seq<Task>, status: Status)

  /** A freshly created task: incomplete, with the description untouched. */
  function NewTask(description: string): Task
  {
    Task(description, false)
  }

  function Label(completed: bool): Progress
  {
    if completed then Complete else Incomplete
  }

  /** The task that a 1-based number refers to, if there is one. */
  function TaskByNumber(tasks: seq<Task>, number: int): (r: Option<Task>)
    ensures r.Some? <==> 1 <= number <= |tasks|
    ensures r.Some? ==> r.value == tasks[number - 1]
  {
    var index := number - 1;
    if 0 <= index < |tasks| then Some(tasks[index]) else None
  }

  /** Adding always succeeds and appends one new task at the end. */
  function Add(tasks: seq<Task>, description: string): (r: Update)
    ensures r.status == Added
    ensures |r.tasks| == |tasks| + 1
    ensures r.tasks[..|tasks|] == tasks
    ensures r.tasks[|tasks|].description == description
    ensures !r.tasks[|tasks|].completed
  {
    Update(tasks + [NewTask(description)], Added)
  }

  /**
    Marking task `number` complete: on an empty list it reports NoTasks, on
    an out-of-range number InvalidNumber, and in both cases changes nothing;
    otherwise it sets that one task's flag and touches nothing else.
   */
  function MarkComplete(tasks: seq<Task>, number: int): (r: Update)
    ensures r.status == NoTasks <==> tasks == []
    ensures r.status == Completed <==> 1 <= number <= |tasks|
    ensures r.status == InvalidNumber <==> tasks != [] && !(1 <= number <= |tasks|)
    ensures r.status != Completed ==> r.tasks == tasks
    ensures |r.tasks| == |tasks|
    ensures forall k :: 0 <= k < |tasks| ==> r.tasks[k].description == tasks[k].description
    ensures forall k :: 0 <= k < |tasks| ==>
      r.tasks[k].completed == (tasks[k].completed || (r.status == Completed && k == number - 1))
  {
    if tasks == [] then
      Update(tasks, NoTasks)
    else
      match TaskByNumber(tasks, number)
      case Some(task) =>
        Update(tasks[number - 1 := task.(completed := true)], Completed)
      case None =>
        Update(tasks, InvalidNumber)
  }

  /**
    Deleting task `number`: the same error outcomes as MarkComplete, with the
    list unchanged; otherwise that task is removed, the tasks before it stay
    where they are and every later task moves down one place, in order.
   */
  function Delete(tasks: seq<Task>, number: int): (r: Update)
    ensures r.status == NoTasks <==> tasks == []
    ensures r.status == Deleted <==> 1 <= number <= |tasks|
    ensures r.status == InvalidNumber <==> tasks != [] && !(1 <= number <= |tasks|)
    ensures r.status != Deleted ==> r.tasks == tasks
    ensures r.status == Deleted ==>
      && |r.tasks| == |tasks| - 1
      && (forall k :: 0 <= k < number - 1 ==> r.tasks[k] == tasks[k])
      && (forall k :: number - 1 <= k < |r.tasks| ==> r.tasks[k] == tasks[k + 1])
  {
    if tasks == [] then
      Update(tasks, NoTasks)
    else
      match TaskByNumber(tasks, number)
      case Some(_) =>
        Update(tasks[..number - 1] + tasks[number..], Deleted)
      case None =>
        Update(tasks, InvalidNumber)
  }

  /**
    The listing of a task list: the empty-list outcome exactly when there are
    no tasks, else one entry per task in list order, numbered from 1, labelled
    Complete exactly when the task is completed.
   */
  function Render(tasks: seq<Task>): (r: Listing)
    ensures r.NoTasksFound? <==> tasks == []
    ensures r.Entries? ==> |r.entries| == |tasks|
    ensures r.Entries? ==> forall k :: 0 <= k < |tasks| ==>
      && r.entries[k].position == k + 1
      && r.entries[k].description == tasks[k].description
      && (r.entries[k].progress == Complete <==> tasks[k].completed)
  {
    if tasks == [] then
      NoTasksFound
    else
      Entries(seq(|tasks|, k requires 0 <= k < |tasks| =>
        Entry(k + 1, tasks[k].description, Label(tasks[k].completed))))
  }

  /** Marking the same task complete twice leaves the list as marking it once. */
  lemma MarkCompleteIdempotent(tasks: seq<Task>, number: int)
    ensures MarkComplete(MarkComplete(tasks, number).tasks, number).tasks
         == MarkComplete(tasks, number).tasks
  {
    // The second call finds the same length and sets a flag that is already true.
  }

  /** The task list of one session, changed in place by its operations. */
  class TodoList {
    var tasks: seq<Task>

    constructor ()
      ensures tasks == []
    {
      tasks := [];
    }

    method AddTask(description: string) returns (status: Status)
      modifies this
      ensures Update(tasks, status) == Add(old(tasks), description)
      ensures tasks == old(tasks) + [Task(description, false)]
    {
      var task := NewTask(description);
      tasks := tasks + [task];
      status := Added;
    }

    method MarkTaskComplete(number: int) returns (status: Status)
      modifies this
      ensures Update(tasks, status) == MarkComplete(old(tasks), number)
    {
      if tasks == [] {
        return NoTasks;
      }
      var task := TaskByNumber(tasks, number);
      if task.Some? {
        tasks := tasks[number - 1 := task.value.(completed := true)];
        status := Completed;
      } else {
        status := InvalidNumber;
      }
    }

    /** Enumerates the tasks from 1; the list itself is not changed. */
    method ListTasks() returns (listing: Listing)
      ensures listing == Render(tasks)
    {
      if tasks == [] {
        return NoTasksFound;
      }
      var entries: seq<Entry> := [];
      var i := 0;
      while i < |tasks|
        invariant 0 <= i <= |tasks|
        invariant |entries| == i
        invariant forall k :: 0 <= k < i ==>
          entries[k] == Entry(k + 1, tasks[k].description, Label(tasks[k].completed))
      {
        var progress := Label(tasks[i].completed);
        entries := entries + [Entry(i + 1, tasks[i].description, progress)];
        i := i + 1;
      }
      listing := Entries(entries);
    }

    method DeleteTask(number: int) returns (status: Status)
      modifies this
      ensures Update(tasks, status) == Delete(old(tasks), number)
    {
      if tasks == [] {
        return NoTasks;
      }
      var task := TaskByNumber(tasks, number);
      if task.Some? {
        tasks := tasks[..number - 1] + tasks[number..];
        status := Deleted;
      } else {
        status := InvalidNumber;
      }
    }
  }

  /**
    A client of the class: two tasks added, the first completed, an
    out-of-range number rejected, then the first deleted. The contracts of
    the methods alone determine every listing.
   */
  method Walkthrough()
    returns (empty: Listing, afterAdds: Listing, rejected: Status, lengthAfterReject: int,
             afterMark: Listing, afterDelete: Listing)
    ensures empty == NoTasksFound
    ensures afterAdds == Entries([Entry(1, "buy milk", Incomplete), Entry(2, "walk dog", Incomplete)])
    ensures rejected == InvalidNumber
    ensures lengthAfterReject == 2
    ensures afterMark == Entries([Entry(1, "buy milk", Complete), Entry(2, "walk dog", Incomplete)])
    ensures afterDelete == Entries([Entry(1, "walk dog", Incomplete)])
  {
    var list := new TodoList();
    empty := list.ListTasks();
    var s := list.AddTask("buy milk");
    s := list.AddTask("walk dog");
    afterAdds := list.ListTasks();
    rejected := list.MarkTaskComplete(5);
    lengthAfterReject := |list.tasks|;
    s := list.MarkTaskComplete(1);
    assert s == Completed;
    afterMark := list.ListTasks();
    s := list.DeleteTask(1);
    assert s == Deleted;
    afterDelete := list.ListTasks();
  }
}
