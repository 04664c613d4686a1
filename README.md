# To-Do List task collection, in Dafny

This project models the task collection of a console to-do list application
(`todo_list.py`). The collection is an ordered list of tasks, and each task is
a description plus a `completed` flag. The list has four operations, and every
task is addressed by its 1-based number:

- add a task at the end;
- mark one task complete;
- list all tasks with their status;
- delete one task, closing the gap.

A shared lookup turns a task number into a task, or into "not found".

Module `Todo` (`todo.dfy`) has these parts:

- the data: `Task`, `Status`, `Entry`, `Listing`;
- pure step functions over `seq<Task>`: `TaskByNumber`, `Add`,
  `MarkComplete`, `Delete` and `Render`, whose contracts state what each
  operation does;
- the class `TodoList`, whose field `tasks: seq<Task>` its methods reassign in
  place. Each method's postcondition ties the new list and the returned
  status to the step function of the old list;
- a client method, `Walkthrough`, which replays an example session using only
  the class's contracts.

Each console message of the to-do application becomes a returned `Status`:

| message | status |
|---|---|
| "Task added successfully." | `Added` |
| "No tasks found." | `NoTasks` |
| "Task marked as complete." | `Completed` |
| "Task deleted successfully." | `Deleted` |
| "Invalid task number." | `InvalidNumber` |

The listing becomes structured entries (position, description,
`Complete`/`Incomplete`), or the distinct `NoTasksFound` outcome when the
list is empty.

Module `Session` (`session.dfy`) treats a session as a sequence of add,
complete and delete calls. It proves two things about the list at the end:

- its length is the starting length, plus the successful adds, minus the
  successful deletes;
- the surviving descriptions keep their insertion order. Formally, they form a
  subsequence of the starting descriptions followed by the added ones.

Modelling decisions:
- `delete_task` removes with `list.remove(task)`, which drops the first element
  equal to the looked-up task. `Task` has no custom equality, so equality means
  identity. Every add creates a new `Task` object, so the element removed is
  exactly the one at index `number - 1`. The model removes at that index.
- `mark_task_complete` sets the flag on the task object that the list holds.
  No other reference to that object exists, so the model updates the sequence
  element at that index.
- Task numbers are unbounded integers, like Python's `int`. Zero, negative and
  too-large numbers all give `InvalidNumber`.
- A description can be any string, including the empty string, and is not
  trimmed (todo_list.py:17, 41). The model follows this: `Add` takes any
  `string`.

## Model

| member | source | states |
|---|---|---|
| `Todo.TaskByNumber` | todo_list.py:95-109 | The result is a task exactly when 1 <= number <= length, and then it is the task at index number-1. Every other number, zero and negatives included, gives None. |
| `Todo.Add` | todo_list.py:41-43 | Always reports Added. The list grows by exactly one and the earlier tasks are unchanged. The new last task has exactly the given description and is not completed (from the Task constructor at lines 17-18). |
| `Todo.MarkComplete` | todo_list.py:53-62 | Reports NoTasks exactly on an empty list, Completed exactly when 1 <= number <= length, and InvalidNumber otherwise. On either error the list is unchanged. The length and every description stay the same. A task's flag afterwards is its old flag, or true when it is task number-1 and the call succeeded. |
| `Todo.Delete` | todo_list.py:84-93 | Reports NoTasks, Deleted and InvalidNumber under the same conditions as MarkComplete. On either error the list is unchanged. On success the length drops by one. Tasks before index number-1 keep their places, and every later task moves down by one place, in order. |
| `Todo.Render` | todo_list.py:69-74 | Gives the empty-list outcome exactly when there are no tasks. Otherwise there is one entry per task, in list order, numbered consecutively from 1, with the task's description and the label Complete exactly when the task is completed. |
| `Todo.MarkCompleteIdempotent` | todo_list.py:57-60 | Marking the same number complete twice gives the same list as marking it once. |
| `Todo.TodoList.constructor` | todo_list.py:26-31 | A new list is empty. |
| `Todo.TodoList.AddTask` | todo_list.py:33-43 | The new list is the old list with Task(description, false) appended. The new list and the status are those of Add on the old list. |
| `Todo.TodoList.MarkTaskComplete` | todo_list.py:45-62 | The new list and the status are those of MarkComplete on the old list, with the lookup through TaskByNumber. |
| `Todo.TodoList.ListTasks` | todo_list.py:64-74 | The enumerating loop returns exactly Render of the current list. The method has no modifies clause, so the list is unchanged. |
| `Todo.TodoList.DeleteTask` | todo_list.py:76-93 | The new list and the status are those of Delete on the old list. |
| `Todo.Walkthrough` | todo_list.py:33-93 | A fresh list lists as empty. After adding "buy milk" and "walk dog" it lists both as Incomplete. Completing number 5 reports InvalidNumber and leaves two tasks. After completing 1, "buy milk" lists as Complete. After deleting 1, only "walk dog" remains, at position 1. |
| `Session.StepKeepsOrder` | todo_list.py:41-91 | One add, complete or delete keeps the existing descriptions in order, with an added description at the end. |
| `Session.RunKeepsOrder` | todo_list.py:41-91 | After any sequence of calls, the surviving descriptions are a subsequence of the starting descriptions followed by the added ones, in insertion order. |
| `Session.RunLength` | todo_list.py:41-91 | After any sequence of calls, the length is the starting length, plus the number of calls that reported Added, minus the number that reported Deleted. |
| `Session.AddsAlwaysReported` | todo_list.py:41-43 | In any run, the number of Added reports equals the number of add commands, so the final length is the starting length plus the adds minus the successful deletes. |
| `Session.AddsOnlyGrow` | todo_list.py:41-42 | A sequence of adds alone grows the list by its length. The descriptions become the old ones followed by the added ones, in order. |

## Left out

- `show_menu`, `get_user_choice` and `main` (todo_list.py:112-178) are left out. They are the console menu and the interactive loop driven by `input()` and `print`. This includes the menu range check `1 <= choice <= 5` and its re-prompting.
- `main` also checks for an empty list itself before asking for a task number (todo_list.py:159, 167). That check is left out because it belongs to the interaction layer. The model's own `NoTasks` outcome covers the same condition inside the list.
- `main` converts the typed task number with `int(...)`, which can raise an uncaught `ValueError` on non-numeric input (todo_list.py:160, 168). This is left out. The model takes the task number as an integer.
- The literal console text and the `"{i}. {description} - {status}"` formatting (todo_list.py:72) are left out. Each message becomes a `Status` value, and each listed line becomes an `Entry`.
- Object identity is not represented. Deletion removes by index rather than by searching for an equal object; the two agree because tasks compare by identity and each added task is a new object.
