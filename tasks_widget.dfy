/** The task list of the dashboard widget. Its tasks carry both a `completed`
    flag and a status, and its checkbox rewrites the two together. */
module TasksWidget {
  import opened Tasks

  datatype Assignee = Assignee(name: string, avatar: string, initials: string)

  datatype WidgetTask = WidgetTask(
    id: string,
    title: string,
    description: string,
    priority: Priority,
    status: Status,
    assignee: Assignee,
    dueDate: string,
    completed: bool)

  /** The checkbox on one task: `completed` flips, and the status becomes
      `completed` when the task was not completed and `todo` when it was.
      Afterwards the flag and the status agree, whatever they were before, and
      no other field changes. */
  function Toggled(t: WidgetTask): (r: WidgetTask)
    ensures r.completed == !t.completed
    ensures r.status == (if t.completed then Todo else Completed)
    ensures r.completed <==> r.status == Completed
    ensures r.(completed := t.completed, status := t.status) == t
  {
    t.(completed := !t.completed, status := if t.completed then Todo else Completed)
  }

  /** Toggling twice gives `completed` back, and leaves the status agreeing
      with it: a task that was in progress comes back as `todo`. */
  lemma ToggleTwice(t: WidgetTask)
    ensures Toggled(Toggled(t)).completed == t.completed
    ensures Toggled(Toggled(t)).status == (if t.completed then Completed else Todo)
    ensures t.status == (if t.completed then Completed else Todo) ==> Toggled(Toggled(t)) == t
    ensures t.status == InProgress ==> Toggled(Toggled(t)) != t
  {
    var twice := Toggled(Toggled(t));
    assert twice == t.(completed := twice.completed, status := twice.status);
  }

  /** `toggleTask`: the tasks whose id matches are toggled, the others keep
      their place and their fields; an unknown id leaves the list as it was. */
  function WithToggled(tasks: seq<WidgetTask>, id: string): (r: seq<WidgetTask>)
    ensures |r| == |tasks|
    ensures forall i :: 0 <= i < |tasks| ==> r[i] == (if tasks[i].id == id then Toggled(tasks[i]) else tasks[i])
    ensures (forall i :: 0 <= i < |tasks| ==> tasks[i].id != id) ==> r == tasks
  {
    seq(|tasks|, i requires 0 <= i < |tasks| => if tasks[i].id == id then Toggled(tasks[i]) else tasks[i])
  }

  /** After a toggle the flag and the status agree on every toggled task. */
  lemma ToggleTaskConsistent(tasks: seq<WidgetTask>, id: string)
    ensures forall i :: 0 <= i < |tasks| && tasks[i].id == id ==>
      (WithToggled(tasks, id)[i].completed <==> WithToggled(tasks, id)[i].status == Completed)
  {
  }

  /** Toggling the same id twice restores every `completed` flag; a list in
      which every task is either completed or `todo` is restored whole. */
  lemma ToggleTaskTwice(tasks: seq<WidgetTask>, id: string)
    ensures |WithToggled(WithToggled(tasks, id), id)| == |tasks|
    ensures forall i :: 0 <= i < |tasks| ==> WithToggled(WithToggled(tasks, id), id)[i].completed == tasks[i].completed
    ensures (forall i :: 0 <= i < |tasks| ==> tasks[i].status == (if tasks[i].completed then Completed else Todo)) ==>
      WithToggled(WithToggled(tasks, id), id) == tasks
  {
    var twice := WithToggled(WithToggled(tasks, id), id);
    forall i | 0 <= i < |tasks| ensures twice[i].completed == tasks[i].completed {
      ToggleTwice(tasks[i]);
    }
    if forall i :: 0 <= i < |tasks| ==> tasks[i].status == (if tasks[i].completed then Completed else Todo) {
      forall i | 0 <= i < |tasks| ensures twice[i] == tasks[i] {
        ToggleTwice(tasks[i]);
        assert twice[i] == (if tasks[i].id == id then Toggled(Toggled(tasks[i])) else tasks[i]);
      }
    }
  }

  /** The widget's state: its task list. */
  class TasksWidgetState {
    var taskList: seq<WidgetTask>

    constructor(seed: seq<WidgetTask>)
      ensures taskList == seed
    {
      taskList := seed;
    }

    method ToggleTask(id: string)
      modifies this
      ensures taskList == WithToggled(old(taskList), id)
    {
      taskList := WithToggled(taskList, id);
    }
  }
}
