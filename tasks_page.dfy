/** The task board of the Tasks page: one list of tasks, the single source of
    the tab list, the tab counts and the three kanban columns. Status changes
    come from three places that all write the same field: the click-to-advance
    button, `updateTaskStatus`, and the drop decision of a kanban drag. */
module Tasks {
  import opened Collections
  import opened Text

  datatype Status = Todo | InProgress | Completed
  datatype Priority = Low | Medium | High

  datatype Task = Task(
    id: int,
    title: string,
    description: string,
    status: Status,
    priority: Priority,
    assignee: string,
    dueDate: string,
    tags: seq<string>)

  /** What the add-task dialog hands to `addTask`: every field but the id. */
  datatype TaskDraft = TaskDraft(
    title: string,
    description: string,
    status: Status,
    priority: Priority,
    assignee: string,
    dueDate: string,
    tags: seq<string>)

  /** The tab the board shows: "All Tasks" or one status. */
  datatype Tab = AllTab | StatusTab(status: Status)

  /** What a drag ended over: nothing, a kanban column, another task card (the
      card's data carries that task as it was rendered), or anything else. */
  datatype DropTarget = NoTarget | OverColumn(status: Status) | OverTask(task: Task) | OverOther

  ghost predicate DistinctIds(tasks: seq<Task>) {
    forall i, j :: 0 <= i < j < |tasks| ==> tasks[i].id != tasks[j].id
  }

  function DraftOf(t: Task): TaskDraft {
    TaskDraft(t.title, t.description, t.status, t.priority, t.assignee, t.dueDate, t.tags)
  }

  function Ids(tasks: seq<Task>): (ids: seq<int>)
    ensures |ids| == |tasks| && forall i :: 0 <= i < |tasks| ==> ids[i] == tasks[i].id
  {
    seq(|tasks|, i requires 0 <= i < |tasks| => tasks[i].id)
  }

  /** The id `addTask` gives a new task, `Math.max(...ids, 0) + 1`: larger
      than every id on the board and than 0, and one more than an id on the
      board or than 0. */
  function NextId(tasks: seq<Task>): (id: int)
    ensures id >= 1
    ensures forall i :: 0 <= i < |tasks| ==> tasks[i].id < id
    ensures id == 1 || exists i :: 0 <= i < |tasks| && tasks[i].id == id - 1
  {
    MaxOrZero(Ids(tasks)) + 1
  }

  /** `addTask`: the draft becomes a task with a fresh id, placed in front of
      the old tasks, which follow unchanged and in order. The draft is copied as
      it is: its status is not forced to `todo` and its title is not checked. */
  function WithTask(tasks: seq<Task>, draft: TaskDraft): (r: seq<Task>)
    ensures |r| == |tasks| + 1 && r[1..] == tasks
    ensures DraftOf(r[0]) == draft
    ensures r[0].id == NextId(tasks)
    ensures forall i :: 0 <= i < |tasks| ==> tasks[i].id < r[0].id
    ensures DistinctIds(tasks) ==> DistinctIds(r)
  {
    var t := Task(NextId(tasks), draft.title, draft.description, draft.status, draft.priority,
                  draft.assignee, draft.dueDate, draft.tags);
    assert ([t] + tasks)[1..] == tasks;
    [t] + tasks
  }

  /** `updateTaskStatus`: every task whose id matches gets the new status;
      nothing else changes, and an unknown id leaves the list as it was. */
  function SetStatus(tasks: seq<Task>, id: int, s: Status): (r: seq<Task>)
    ensures |r| == |tasks|
    ensures forall i :: 0 <= i < |tasks| ==> r[i].(status := tasks[i].status) == tasks[i]
    ensures forall i :: 0 <= i < |tasks| && tasks[i].id == id ==> r[i].status == s
    ensures forall i :: 0 <= i < |tasks| && tasks[i].id != id ==> r[i] == tasks[i]
    ensures (forall i :: 0 <= i < |tasks| ==> tasks[i].id != id) ==> r == tasks
  {
    seq(|tasks|, i requires 0 <= i < |tasks| => if tasks[i].id == id then tasks[i].(status := s) else tasks[i])
  }

  /** With distinct ids, setting the status of the task at index `k` rewrites
      that one element. */
  lemma SetStatusAt(tasks: seq<Task>, k: int, s: Status)
    requires DistinctIds(tasks) && 0 <= k < |tasks|
    ensures SetStatus(tasks, tasks[k].id, s) == tasks[k := tasks[k].(status := s)]
  {
  }

  /** Ids never change under a status update, so they stay distinct. */
  lemma SetStatusKeepsIds(tasks: seq<Task>, id: int, s: Status)
    ensures Ids(SetStatus(tasks, id, s)) == Ids(tasks)
    ensures DistinctIds(tasks) ==> DistinctIds(SetStatus(tasks, id, s))
  {
  }

  /** Setting a status twice is setting it once. */
  lemma SetStatusIdempotent(tasks: seq<Task>, id: int, s: Status)
    ensures SetStatus(SetStatus(tasks, id, s), id, s) == SetStatus(tasks, id, s)
  {
  }

  /** The click-to-advance transition of the task list's status button. */
  function NextStatus(s: Status): (r: Status)
    ensures r != s
  {
    if s == Todo then InProgress else if s == InProgress then Completed else Todo
  }

  function StatusRank(s: Status): nat {
    match s
    case Todo => 0
    case InProgress => 1
    case Completed => 2
  }

  /** The transition is a rotation of three states: it moves one step round
      todo, in-progress, completed, and three steps come back to the start. */
  lemma NextStatusCycle(s: Status)
    ensures StatusRank(NextStatus(s)) == (StatusRank(s) + 1) % 3
    ensures NextStatus(NextStatus(NextStatus(s))) == s
  {
  }

  /** A click on the status button of the task at index `k`: the handler asks
      for the next status of the task as it was rendered. */
  function ClickAt(tasks: seq<Task>, k: int): (r: seq<Task>)
    requires 0 <= k < |tasks|
    ensures |r| == |tasks| && Ids(r) == Ids(tasks)
    ensures r[k].status == NextStatus(tasks[k].status)
    ensures DistinctIds(tasks) ==> r == tasks[k := tasks[k].(status := NextStatus(tasks[k].status))]
  {
    SetStatusKeepsIds(tasks, tasks[k].id, NextStatus(tasks[k].status));
    SetStatus(tasks, tasks[k].id, NextStatus(tasks[k].status))
  }

  /** Cycle closure on the board: three clicks on the same task give back the
      board as it was. */
  lemma ClickThriceRestores(tasks: seq<Task>, k: int)
    requires DistinctIds(tasks) && 0 <= k < |tasks|
    ensures |ClickAt(tasks, k)| == |tasks| && |ClickAt(ClickAt(tasks, k), k)| == |tasks|
    ensures ClickAt(ClickAt(ClickAt(tasks, k), k), k) == tasks
  {
    var t := tasks[k];
    var once := ClickAt(tasks, k);
    SetStatusAt(tasks, k, NextStatus(t.status));
    SetStatusKeepsIds(tasks, t.id, NextStatus(t.status));
    var twice := ClickAt(once, k);
    SetStatusAt(once, k, NextStatus(once[k].status));
    SetStatusKeepsIds(once, t.id, NextStatus(once[k].status));
    SetStatusAt(twice, k, NextStatus(twice[k].status));
    NextStatusCycle(t.status);
    assert ClickAt(twice, k) == tasks[k := t];
  }

  /** `tasks.find(task => task.id === id)`, as an index: the first task with
      that id, or -1 when there is none. */
  function FindIndex(tasks: seq<Task>, id: int): (k: int)
    ensures -1 <= k < |tasks|
    ensures k == -1 <==> forall i :: 0 <= i < |tasks| ==> tasks[i].id != id
    ensures k >= 0 ==> tasks[k].id == id && forall i :: 0 <= i < k ==> tasks[i].id != id
    decreases |tasks|
  {
    if tasks == [] then -1
    else if tasks[0].id == id then 0
    else
      var k := FindIndex(tasks[1..], id);
      if k == -1 then -1 else k + 1
  }

  /** Which task `find` returns depends only on the ids. */
  lemma FindIndexByIds(a: seq<Task>, b: seq<Task>, id: int)
    requires Ids(a) == Ids(b)
    ensures FindIndex(a, id) == FindIndex(b, id)
  {
    assert |a| == |Ids(a)| == |b|;
    forall i | 0 <= i < |a| ensures a[i].id == b[i].id {
      assert Ids(a)[i] == Ids(b)[i];
    }
  }

  /** The status update a drag issues when it ends, if any. Nothing is issued
      when the drag ended over nothing or over something that is neither a
      column nor a task, when the dragged id is not on the board, or when the
      dragged task already has the target status. */
  function DropStatus(tasks: seq<Task>, activeId: int, over: DropTarget): (r: Option<Status>)
    ensures over.NoTarget? || over.OverOther? || FindIndex(tasks, activeId) == -1 ==> r == None
    ensures r.Some? ==> r.value != tasks[FindIndex(tasks, activeId)].status
    ensures over.OverColumn? && FindIndex(tasks, activeId) >= 0 ==>
      (r.Some? <==> tasks[FindIndex(tasks, activeId)].status != over.status) && (r.Some? ==> r.value == over.status)
    ensures over.OverTask? && FindIndex(tasks, activeId) >= 0 ==>
      (r.Some? <==> tasks[FindIndex(tasks, activeId)].status != over.task.status) && (r.Some? ==> r.value == over.task.status)
  {
    if over.NoTarget? then None
    else
      var k := FindIndex(tasks, activeId);
      if k == -1 then None
      else
        var current := tasks[k].status;
        match over
        case OverColumn(s) => if current != s then Some(s) else None
        case OverTask(t) => if current != t.status then Some(t.status) else None
        case OverOther => None
  }

  /** The task list after `handleDragEnd`: only statuses change, and only
      that of the dragged task, which takes the status of the drop decision. */
  function DragEnd(tasks: seq<Task>, activeId: int, over: DropTarget): (r: seq<Task>)
    ensures |r| == |tasks|
    ensures forall i :: 0 <= i < |tasks| && tasks[i].id != activeId ==> r[i] == tasks[i]
    ensures forall i :: 0 <= i < |tasks| && tasks[i].id == activeId ==>
      r[i] == tasks[i].(status := match DropStatus(tasks, activeId, over)
                                 case None => tasks[i].status
                                 case Some(s) => s)
  {
    match DropStatus(tasks, activeId, over)
    case None => tasks
    case Some(s) => SetStatus(tasks, activeId, s)
  }

  /** Where a drop lands: over a column or a card, every task with the dragged
      id ends up with the status of that column or card; any other drop leaves
      the list as it was. */
  lemma DragEndOutcome(tasks: seq<Task>, activeId: int, over: DropTarget)
    ensures |DragEnd(tasks, activeId, over)| == |tasks|
    ensures over.NoTarget? || over.OverOther? || FindIndex(tasks, activeId) == -1 ==>
      DragEnd(tasks, activeId, over) == tasks
    ensures FindIndex(tasks, activeId) >= 0 && DistinctIds(tasks) && (over.OverColumn? || over.OverTask?) ==>
      DragEnd(tasks, activeId, over) == SetStatus(tasks, activeId, if over.OverColumn? then over.status else over.task.status)
  {
    var k := FindIndex(tasks, activeId);
    if k >= 0 && DistinctIds(tasks) && DropStatus(tasks, activeId, over).None? {
      SetStatusAt(tasks, k, tasks[k].status);
      assert tasks[k := tasks[k].(status := tasks[k].status)] == tasks;
    }
  }

  /** Dropping a task where it already belongs issues no update, so ending the
      same drag a second time changes nothing. */
  lemma DragEndIdempotent(tasks: seq<Task>, activeId: int, over: DropTarget)
    ensures DragEnd(DragEnd(tasks, activeId, over), activeId, over) == DragEnd(tasks, activeId, over)
  {
    var once := DragEnd(tasks, activeId, over);
    match DropStatus(tasks, activeId, over)
    case None =>
    case Some(s) =>
      SetStatusKeepsIds(tasks, activeId, s);
      FindIndexByIds(once, tasks, activeId);
      assert DropStatus(once, activeId, over) == None;
  }

  /** The click and the drag write the same field the same way: dropping a
      task on the column of its next status is a click on it. */
  lemma DropOnNextColumnIsClick(tasks: seq<Task>, k: int)
    requires DistinctIds(tasks) && 0 <= k < |tasks|
    ensures DragEnd(tasks, tasks[k].id, OverColumn(NextStatus(tasks[k].status))) == ClickAt(tasks, k)
  {
    var id := tasks[k].id;
    assert FindIndex(tasks, id) == k;
    DragEndOutcome(tasks, id, OverColumn(NextStatus(tasks[k].status)));
  }

  function StatusIs(s: Status): Task -> bool {
    (t: Task) => t.status == s
  }

  /** `tasksByStatus[s]`: the kanban column and status tab for `s`, the tasks
      with that status in board order. */
  function ByStatus(tasks: seq<Task>, s: Status): (r: seq<Task>)
    ensures IsSubsequence(r, tasks)
    ensures forall t :: t in r <==> t in tasks && t.status == s
    ensures forall t :: multiset(r)[t] == if t.status == s then multiset(tasks)[t] else 0
  {
    FilterSpec(StatusIs(s), tasks);
    Filter(StatusIs(s), tasks)
  }

  /** The three columns partition the board: each task is in the column of its
      own status and in no other, and the column sizes add up to the board. */
  lemma {:induction false} BucketsPartition(tasks: seq<Task>)
    ensures |ByStatus(tasks, Todo)| + |ByStatus(tasks, InProgress)| + |ByStatus(tasks, Completed)| == |tasks|
    ensures forall t, s :: t in tasks ==> (t in ByStatus(tasks, s) <==> s == t.status)
    decreases |tasks|
  {
    if tasks != [] {
      BucketsPartition(tasks[1..]);
    }
  }

  /** The counts on the four tab triggers. */
  datatype TabCounts = TabCounts(all: nat, todo: nat, inProgress: nat, completed: nat)

  function CountTabs(tasks: seq<Task>): (c: TabCounts)
    ensures c.all == |tasks| == c.todo + c.inProgress + c.completed
    ensures c.todo == |ByStatus(tasks, Todo)| && c.inProgress == |ByStatus(tasks, InProgress)|
    ensures c.completed == |ByStatus(tasks, Completed)|
  {
    BucketsPartition(tasks);
    TabCounts(|tasks|, |ByStatus(tasks, Todo)|, |ByStatus(tasks, InProgress)|, |ByStatus(tasks, Completed)|)
  }

  /** The search box matches a task when the lower-cased title or description
      contains the lower-cased term. */
  predicate MatchesSearch(term: string, t: Task) {
    Contains(Lower(t.title), Lower(term)) || Contains(Lower(t.description), Lower(term))
  }

  predicate MatchesTab(tab: Tab, t: Task) {
    tab.AllTab? || t.status == tab.status
  }

  function MatchesFilter(term: string, tab: Tab): Task -> bool {
    (t: Task) => MatchesSearch(term, t) && MatchesTab(tab, t)
  }

  /** `filteredTasks`: the tasks that match the search and the active tab, in
      board order. */
  function FilteredTasks(tasks: seq<Task>, term: string, tab: Tab): (r: seq<Task>)
    ensures IsSubsequence(r, tasks)
    ensures forall t :: t in r <==> t in tasks && MatchesSearch(term, t) && MatchesTab(tab, t)
    ensures forall t :: multiset(r)[t] == if MatchesSearch(term, t) && MatchesTab(tab, t) then multiset(tasks)[t] else 0
  {
    FilterSpec(MatchesFilter(term, tab), tasks);
    Filter(MatchesFilter(term, tab), tasks)
  }

  /** An empty search on "All Tasks" lists the whole board. */
  lemma EmptySearchKeepsAll(tasks: seq<Task>)
    ensures FilteredTasks(tasks, [], AllTab) == tasks
  {
    forall i | 0 <= i < |tasks| ensures MatchesFilter([], AllTab)(tasks[i]) {
      ContainsEmpty(Lower(tasks[i].title));
    }
    FilterKeepsAll(MatchesFilter([], AllTab), tasks);
  }

  /** The list under the tab that is showing: "All Tasks" shows the filtered
      list, a status tab shows that status's bucket. */
  function TabContent(tasks: seq<Task>, term: string, tab: Tab): (r: seq<Task>)
    ensures IsSubsequence(r, tasks)
    ensures forall t :: t in r <==> t in tasks && MatchesTab(tab, t) && (tab.AllTab? ==> MatchesSearch(term, t))
    ensures forall t :: multiset(r)[t] == if MatchesTab(tab, t) && (tab.AllTab? ==> MatchesSearch(term, t)) then multiset(tasks)[t] else 0
  {
    match tab
    case AllTab => FilteredTasks(tasks, term, AllTab)
    case StatusTab(s) => ByStatus(tasks, s)
  }

  /** The search term has no effect on a status tab: it shows every task of its
      status, including those the search would hide. */
  lemma StatusTabIgnoresSearch(tasks: seq<Task>, term: string, s: Status)
    ensures TabContent(tasks, term, StatusTab(s)) == TabContent(tasks, [], StatusTab(s))
    ensures forall t :: t in tasks && t.status == s ==> t in TabContent(tasks, term, StatusTab(s))
  {
  }

  /** The state of the Tasks page. */
  class TaskBoard {
    var tasks: seq<Task>
    var searchTerm: string
    var activeTab: Tab
    var activeId: Option<int>

    ghost predicate Valid()
      reads this
    {
      DistinctIds(tasks)
    }

    /** The page starts with its seed list, an empty search, the "All Tasks"
        tab and no drag in progress. */
    constructor(seed: seq<Task>)
      requires DistinctIds(seed)
      ensures Valid()
      ensures tasks == seed && searchTerm == [] && activeTab == AllTab && activeId == None
    {
      tasks := seed;
      searchTerm := [];
      activeTab := AllTab;
      activeId := None;
    }

    method AddTask(draft: TaskDraft)
      requires Valid()
      modifies this
      ensures Valid()
      ensures tasks == WithTask(old(tasks), draft)
      ensures searchTerm == old(searchTerm) && activeTab == old(activeTab) && activeId == old(activeId)
    {
      tasks := WithTask(tasks, draft);
    }

    method UpdateTaskStatus(id: int, s: Status)
      requires Valid()
      modifies this
      ensures Valid()
      ensures tasks == SetStatus(old(tasks), id, s)
      ensures searchTerm == old(searchTerm) && activeTab == old(activeTab) && activeId == old(activeId)
    {
      SetStatusKeepsIds(tasks, id, s);
      tasks := SetStatus(tasks, id, s);
    }

    method HandleDragStart(id: int)
      modifies this
      ensures activeId == Some(id)
      ensures tasks == old(tasks) && searchTerm == old(searchTerm) && activeTab == old(activeTab)
    {
      activeId := Some(id);
    }

    /** The drag is over whatever it did: `activeId` is cleared, and the board
        takes the drop decision. */
    method HandleDragEnd(id: int, over: DropTarget)
      requires Valid()
      modifies this
      ensures Valid()
      ensures activeId == None
      ensures tasks == DragEnd(old(tasks), id, over)
      ensures searchTerm == old(searchTerm) && activeTab == old(activeTab)
    {
      activeId := None;
      var decision := DropStatus(tasks, id, over);
      if decision.Some? {
        SetStatusKeepsIds(tasks, id, decision.value);
        tasks := SetStatus(tasks, id, decision.value);
      }
    }

    method SetSearchTerm(term: string)
      modifies this
      ensures searchTerm == term
      ensures tasks == old(tasks) && activeTab == old(activeTab) && activeId == old(activeId)
    {
      searchTerm := term;
    }

    method SetActiveTab(tab: Tab)
      modifies this
      ensures activeTab == tab
      ensures tasks == old(tasks) && searchTerm == old(searchTerm) && activeId == old(activeId)
    {
      activeTab := tab;
    }

    /** The list the page shows under its tabs: the board's tasks in board
        order that belong to the active tab, filtered by the search only on
        "All Tasks". */
    function Shown(): (r: seq<Task>)
      reads this
      ensures IsSubsequence(r, tasks)
      ensures forall t :: t in r <==> t in tasks && MatchesTab(activeTab, t) && (activeTab.AllTab? ==> MatchesSearch(searchTerm, t))
      ensures forall t :: multiset(r)[t] == if MatchesTab(activeTab, t) && (activeTab.AllTab? ==> MatchesSearch(searchTerm, t)) then multiset(tasks)[t] else 0
    {
      TabContent(tasks, searchTerm, activeTab)
    }
  }
}
