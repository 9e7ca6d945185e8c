/** The Projects page: a list of projects that new ones are added to in front,
    a search box and a status filter over it, the status counts on the stats
    cards, and the team avatar row of each project card. */
module Projects {
  import opened Collections
  import opened Text

  datatype ProjectStatus = Planning | Active | Completed | OnHold

  datatype Member = Member(name: string, initials: string)

  /** A JavaScript number as `parseInt` leaves it: an integer, or `NaN`. */
  datatype Budget = Amount(value: int) | NotANumber

  datatype Project = Project(
    id: int,
    name: string,
    description: string,
    status: ProjectStatus,
    progress: int,
    startDate: string,
    endDate: string,
    team: seq<Member>,
    tasksTotal: int,
    tasksCompleted: int,
    budget: Budget,
    spent: int)

  /** What the new-project dialog hands to `addProject`: every field but the
      id and the four counters. */
  datatype ProjectDraft = ProjectDraft(
    name: string,
    description: string,
    status: ProjectStatus,
    startDate: string,
    endDate: string,
    budget: Budget,
    team: seq<Member>)

  /** The status filter of the page: "All" or one status. */
  datatype StatusFilter = AllStatuses | OnlyStatus(status: ProjectStatus)

  function DraftOf(p: Project): ProjectDraft {
    ProjectDraft(p.name, p.description, p.status, p.startDate, p.endDate, p.budget, p.team)
  }

  ghost predicate DistinctIds(projects: seq<Project>) {
    forall i, j :: 0 <= i < j < |projects| ==> projects[i].id != projects[j].id
  }

  function Ids(projects: seq<Project>): (ids: seq<int>)
    ensures |ids| == |projects| && forall i :: 0 <= i < |projects| ==> ids[i] == projects[i].id
  {
    seq(|projects|, i requires 0 <= i < |projects| => projects[i].id)
  }

  /** `addProject`: the draft becomes a project with id
      `Math.max(...ids, 0) + 1`, larger than every id in the list, and with
      progress, task counts and spending at zero; it goes in front of the old
      projects, which follow unchanged and in order. */
  function WithProject(projects: seq<Project>, draft: ProjectDraft): (r: seq<Project>)
    ensures |r| == |projects| + 1 && r[1..] == projects
    ensures DraftOf(r[0]) == draft
    ensures r[0].progress == 0 && r[0].tasksTotal == 0 && r[0].tasksCompleted == 0 && r[0].spent == 0
    ensures r[0].id >= 1 && forall i :: 0 <= i < |projects| ==> projects[i].id < r[0].id
    ensures r[0].id == 1 || exists i :: 0 <= i < |projects| && projects[i].id == r[0].id - 1
    ensures DistinctIds(projects) ==> DistinctIds(r)
  {
    var p := Project(MaxOrZero(Ids(projects)) + 1, draft.name, draft.description, draft.status, 0,
                     draft.startDate, draft.endDate, draft.team, 0, 0, draft.budget, 0);
    assert ([p] + projects)[1..] == projects;
    [p] + projects
  }

  /** The search matches a project when the lower-cased name or description
      contains the lower-cased term. */
  predicate MatchesSearch(term: string, p: Project) {
    Contains(Lower(p.name), Lower(term)) || Contains(Lower(p.description), Lower(term))
  }

  predicate MatchesStatus(filter: StatusFilter, p: Project) {
    filter.AllStatuses? || p.status == filter.status
  }

  function Matches(term: string, filter: StatusFilter): Project -> bool {
    (p: Project) => MatchesSearch(term, p) && MatchesStatus(filter, p)
  }

  /** `filteredProjects`: the projects that match both the search and the
      status filter, in list order. */
  function FilteredProjects(projects: seq<Project>, term: string, filter: StatusFilter): (r: seq<Project>)
    ensures IsSubsequence(r, projects)
    ensures forall p :: p in r <==> p in projects && MatchesSearch(term, p) && MatchesStatus(filter, p)
    ensures forall p :: multiset(r)[p] == if MatchesSearch(term, p) && MatchesStatus(filter, p) then multiset(projects)[p] else 0
  {
    FilterSpec(Matches(term, filter), projects);
    Filter(Matches(term, filter), projects)
  }

  /** An empty search with the "All" filter shows every project. */
  lemma EmptySearchShowsAll(projects: seq<Project>)
    ensures FilteredProjects(projects, [], AllStatuses) == projects
  {
    forall i | 0 <= i < |projects| ensures Matches([], AllStatuses)(projects[i]) {
      ContainsEmpty(Lower(projects[i].name));
    }
    FilterKeepsAll(Matches([], AllStatuses), projects);
  }

  function HasStatus(s: ProjectStatus): Project -> bool {
    (p: Project) => p.status == s
  }

  /** The status of each project, in list order. */
  function Statuses(projects: seq<Project>): (r: seq<ProjectStatus>)
    ensures |r| == |projects| && forall i :: 0 <= i < |projects| ==> r[i] == projects[i].status
  {
    seq(|projects|, i requires 0 <= i < |projects| => projects[i].status)
  }

  /** The length of the status filter is the number of times the status
      occurs in the list. */
  lemma {:induction false} FilterLengthIsMultiplicity(projects: seq<Project>, s: ProjectStatus)
    ensures |Filter(HasStatus(s), projects)| == multiset(Statuses(projects))[s]
    decreases |projects|
  {
    if projects != [] {
      FilterLengthIsMultiplicity(projects[1..], s);
      assert Statuses(projects) == [projects[0].status] + Statuses(projects[1..]);
    }
  }

  /** The number of projects with status `s`: as many as the times `s`
      occurs among the statuses, and none exactly when no project has it. */
  function CountStatus(projects: seq<Project>, s: ProjectStatus): (n: nat)
    ensures n == multiset(Statuses(projects))[s]
    ensures n <= |projects|
    ensures n == 0 <==> forall i :: 0 <= i < |projects| ==> projects[i].status != s
  {
    FilterEmpty(HasStatus(s), projects);
    FilterLengthIsMultiplicity(projects, s);
    var kept := Filter(HasStatus(s), projects);
    |kept|
  }

  /** The four statuses split the list: the per-status counts add up to its
      length. */
  lemma {:induction false} StatusCountsPartition(projects: seq<Project>)
    ensures CountStatus(projects, Active) + CountStatus(projects, Completed)
          + CountStatus(projects, Planning) + CountStatus(projects, OnHold) == |projects|
    decreases |projects|
  {
    if projects != [] {
      StatusCountsPartition(projects[1..]);
      CountStatusCons(projects, Active);
      CountStatusCons(projects, Completed);
      CountStatusCons(projects, Planning);
      CountStatusCons(projects, OnHold);
    }
  }

  /** The first project adds one to the count of its own status. */
  lemma CountStatusCons(projects: seq<Project>, s: ProjectStatus)
    requires projects != []
    ensures CountStatus(projects, s) == (if projects[0].status == s then 1 else 0) + CountStatus(projects[1..], s)
  {
    assert Filter(HasStatus(s), projects) ==
      (if projects[0].status == s then [projects[0]] else []) + Filter(HasStatus(s), projects[1..]);
  }

  /** The numbers on the stats cards. */
  datatype Stats = Stats(total: nat, active: nat, completed: nat, planning: nat)

  /** `projectStats`: the total is the list length, and the three counted
      statuses together with the uncounted on-hold projects make up the total. */
  function ProjectStats(projects: seq<Project>): (st: Stats)
    ensures st.total == |projects|
    ensures st.active + st.completed + st.planning + CountStatus(projects, OnHold) == st.total
    ensures st.active == CountStatus(projects, Active) && st.completed == CountStatus(projects, Completed)
    ensures st.planning == CountStatus(projects, Planning)
  {
    StatusCountsPartition(projects);
    Stats(|projects|, CountStatus(projects, Active), CountStatus(projects, Completed), CountStatus(projects, Planning))
  }

  /** The avatar row of a project card: the first four members, then a "+n"
      badge for the rest when there are more than four. */
  datatype AvatarRow = AvatarRow(shown: seq<Member>, more: Option<nat>)

  function Avatars(team: seq<Member>): (row: AvatarRow)
    ensures |row.shown| == (if |team| < 4 then |team| else 4) && row.shown == team[..|row.shown|]
    ensures row.more.Some? <==> |team| > 4
    ensures row.more.Some? ==> |row.shown| + row.more.value == |team|
  {
    AvatarRow(if |team| <= 4 then team else team[..4], if |team| > 4 then Some(|team| - 4) else None)
  }

  /** The state of the Projects page. */
  class ProjectsPageState {
    var projects: seq<Project>
    var searchTerm: string
    var statusFilter: StatusFilter

    ghost predicate Valid()
      reads this
    {
      DistinctIds(projects)
    }

    constructor(seed: seq<Project>)
      requires DistinctIds(seed)
      ensures Valid()
      ensures projects == seed && searchTerm == [] && statusFilter == AllStatuses
    {
      projects := seed;
      searchTerm := [];
      statusFilter := AllStatuses;
    }

    method AddProject(draft: ProjectDraft)
      requires Valid()
      modifies this
      ensures Valid()
      ensures projects == WithProject(old(projects), draft)
      ensures searchTerm == old(searchTerm) && statusFilter == old(statusFilter)
    {
      projects := WithProject(projects, draft);
    }

    method SetSearchTerm(term: string)
      modifies this
      ensures searchTerm == term
      ensures projects == old(projects) && statusFilter == old(statusFilter)
    {
      searchTerm := term;
    }

    method SetStatusFilter(filter: StatusFilter)
      modifies this
      ensures statusFilter == filter
      ensures projects == old(projects) && searchTerm == old(searchTerm)
    {
      statusFilter := filter;
    }

    /** The project cards the page shows: the projects in list order that
        match the search and the status filter. */
    function Shown(): (r: seq<Project>)
      reads this
      ensures IsSubsequence(r, projects)
      ensures forall p :: p in r <==> p in projects && MatchesSearch(searchTerm, p) && MatchesStatus(statusFilter, p)
      ensures forall p :: multiset(r)[p] == if MatchesSearch(searchTerm, p) && MatchesStatus(statusFilter, p) then multiset(projects)[p] else 0
    {
      FilteredProjects(projects, searchTerm, statusFilter)
    }
  }
}
