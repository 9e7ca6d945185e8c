# Productivity dashboard: a verified model of its view logic

The dashboard is a React application that works on in-memory mock data. Its
behaviour lives in the component bodies: a task board with a kanban drag and
drop, a task widget with a completion checkbox, a project list with a
new-project dialog, a calendar page and a month-grid widget, and an analytics
page. This project models that logic in Dafny and proves what it promises.

- `collections.dfy` (`Collections`): the JavaScript array operations the
  components use: `filter` as an order-preserving sub-list that keeps every
  matching element as often as it occurs, and `Math.max(...xs, 0)`.
- `text.dfy` (`Text`): the string built-ins: `trim` with the ECMAScript
  whitespace set, `includes`, ASCII `toLowerCase`/`toUpperCase`,
  `split(' ')` followed by taking each word's first character, and `parseInt`.
- `tasks_page.dfy` (`Tasks`): the Tasks page. A class `TaskBoard` holds the
  task list, the search term, the active tab and the id being dragged. Adding a
  task, setting a status, the click-to-advance button and the drop decision of
  a drag are pure functions on the list, and the methods apply them.
- `tasks_widget.dfy` (`TasksWidget`): the dashboard task widget and its
  `toggleTask` checkbox.
- `projects_page.dfy` (`Projects`): the Projects page. It covers adding a
  project, the search with the status filter, the stats cards and the avatar
  row.
- `add_project_dialog.dfy` (`ProjectForm`): the new-project dialog. A class
  holds its nine form fields. It covers the submit guard and the draft it
  produces, the reset, and adding and removing team members with their
  initials.
- `calendar_page.dfy` (`Calendar`): the Calendar page. It covers the events
  of today and of the selected day, the five upcoming events (a stable sort by
  date), and month stepping with year carry.
- `calendar_widget.dfy` (`CalendarGrid`): `getDaysInMonth` as a method with
  its two loops, proved against the grid it must build, and the current-day
  highlight.
- `analytics_page.dfy` (`Analytics`): the efficiency tiers behind the colour
  and badge functions, and member initials.

Dates are integers (milliseconds). The current time, "today" as a year and
month, the ISO date strings of today and thirty days on, the local-day function
behind `toDateString`, the month length and the weekday of the first of the
month are parameters. The mock seed lists are constructor parameters.

Three things the code does differently from what a reader might expect are
modelled as the code does them:
- `addTask` (src/components/pages/TasksPage.tsx:121-127) copies the status
  and title it is given. It does not force the status to `todo` and does not
  check the title. Any such check would live in the add-task dialog, which is
  not part of this model.
- The three status tabs show the whole status bucket, not the search-filtered
  list (src/components/pages/TasksPage.tsx:243-253). Only "All Tasks" applies
  the search. `Tasks.StatusTabIgnoresSearch` states this.
- The month buttons (src/components/pages/CalendarPage.tsx:223, 237) build
  `new Date(year, month ± 1)`, and that constructor reads a year from 0 to 99
  as 1900 + year. In those years the buttons jump to the 1900s, and previous
  then next stops being a round trip. `Calendar.PrevNextRoundTrip` says
  exactly where it holds, and `Calendar.NextAfterDecember99` shows the jump.

## Model

| member | source | states |
|---|---|---|
| `Collections.MaxOrZero` | src/components/pages/TasksPage.tsx:124 | the result is at least 0 and at least every element, and it is 0 or one of the elements |
| `Text.Trim` | src/components/projects/AddProjectDialog.tsx:58 | the result is empty or starts and ends with a non-whitespace character |
| `Text.TrimSpec` | src/components/projects/AddProjectDialog.tsx:58 | the trimmed text is a slice of the input with only whitespace cut from each end, and it is empty exactly when the input is blank |
| `Text.TrimIdempotent` | src/components/projects/AddProjectDialog.tsx:61 | trimming twice is trimming once |
| `Text.Contains` | src/components/pages/TasksPage.tsx:148-149 | true exactly when the needle occurs at some position of the haystack |
| `Text.Lower` | src/components/pages/TasksPage.tsx:148-149 | same length, each character lower-cased: no capital remains and every other character is kept |
| `Text.Upper` | src/components/projects/AddProjectDialog.tsx:90 | same length, each character upper-cased: no small letter remains and every other character is kept |
| `Text.CaseRoundTrip` | src/components/pages/TasksPage.tsx:148-149 | lower-casing after upper-casing is lower-casing and the other way round, and each mapping is idempotent |
| `Text.Split` | src/components/projects/AddProjectDialog.tsx:87 | at least one piece, no piece contains a space, and joining the pieces with spaces gives the input back |
| `Text.FirstLettersOfSplit` | src/components/projects/AddProjectDialog.tsx:86-89 | the first letters of the `split(' ')` pieces are exactly the characters that start a word (a non-space at the start or after a space) |
| `Text.FirstLetters` | src/components/pages/AnalyticsPage.tsx:237 | at most one letter per word, and when no word is empty exactly the first character of each word, in order |
| `Text.LeadingDigits` | src/components/projects/AddProjectDialog.tsx:66 | the longest prefix made of decimal digits |
| `Text.LeadingDigitsThen` | src/components/projects/AddProjectDialog.tsx:66 | the digit run stops at the first character that is not a digit |
| `Text.ParseInt` | src/components/projects/AddProjectDialog.tsx:66 | after leading whitespace and an optional sign, a number exactly when a digit follows; its value is the value of the digit run, negated after a minus |
| `Text.ParseIntDigitsThen` | src/components/projects/AddProjectDialog.tsx:66 | digits followed by a non-digit read as the value of the digits: leading zeros add nothing and a fraction is cut off |
| `Text.ParseIntShowInt` | src/components/projects/AddProjectDialog.tsx:66 | `parseInt` reads back every integer written in decimal, negative ones included |
| `Tasks.NextId` | src/components/pages/TasksPage.tsx:124 | the new id is larger than every id on the board and than 0, and it is 1 or one more than an id on the board: `Math.max(...ids, 0) + 1` |
| `Tasks.WithTask` | src/components/pages/TasksPage.tsx:121-127 | the new task is at index 0 with id `NextId` of the old list and every other field copied from the input (status included), the old tasks follow unchanged, and distinct ids stay distinct |
| `Tasks.SetStatus` | src/components/pages/TasksPage.tsx:161-165 | same length; matching tasks get the new status, only the status changes, other tasks are unchanged, and an unknown id leaves the list identical |
| `Tasks.SetStatusAt` | src/components/pages/TasksPage.tsx:161-165 | with distinct ids, the update rewrites exactly the element at the task's index |
| `Tasks.SetStatusKeepsIds` | src/components/pages/TasksPage.tsx:161-165 | ids are unchanged, so distinct ids stay distinct |
| `Tasks.SetStatusIdempotent` | src/components/pages/TasksPage.tsx:161-165 | setting the same status twice is setting it once |
| `Tasks.NextStatus` | src/components/pages/TasksPage.tsx:333-335 | the next status always differs from the current one |
| `Tasks.NextStatusCycle` | src/components/pages/TasksPage.tsx:333-335 | the transition steps todo, in-progress, completed round a cycle of three, so three steps are the identity |
| `Tasks.ClickAt` | src/components/pages/TasksPage.tsx:331-336 | the clicked task gets the next status, ids and length are kept, and with distinct ids no other element changes |
| `Tasks.ClickThriceRestores` | src/components/pages/TasksPage.tsx:330-336 | three clicks on the status button of a task give back the board as it was |
| `Tasks.FindIndex` | src/components/pages/TasksPage.tsx:177 | the index of the first task with the id, or -1 exactly when no task has it |
| `Tasks.FindIndexByIds` | src/components/pages/TasksPage.tsx:177 | which task `find` returns depends only on the ids |
| `Tasks.DropStatus` | src/components/pages/TasksPage.tsx:171-194 | no update without a target, over a non-column non-task target, or for an unknown id; over a column or a card, an update to that status exactly when the dragged task's status differs |
| `Tasks.DragEnd` | src/components/pages/TasksPage.tsx:171-194 | same length; tasks with other ids are unchanged, and the dragged task keeps every field but the status, which is the drop decision's when there is one |
| `Tasks.DragEndOutcome` | src/components/pages/TasksPage.tsx:171-194 | a drop with no effect leaves the list as it was; a drop over a column or card sets the dragged task's status to that of the column or card |
| `Tasks.DragEndIdempotent` | src/components/pages/TasksPage.tsx:184-192 | ending the same drop twice has the effect of ending it once |
| `Tasks.DropOnNextColumnIsClick` | src/components/pages/TasksPage.tsx:182-186 | dropping a task on the column of its next status does what a click on its status button does |
| `Tasks.ByStatus` | src/components/pages/TasksPage.tsx:155-159 | an order-preserving sub-list holding exactly the tasks with that status, each as often as on the board |
| `Tasks.BucketsPartition` | src/components/pages/TasksPage.tsx:155-159 | every task is in the bucket of its status and in no other, and the bucket sizes add up to the board size |
| `Tasks.CountTabs` | src/components/pages/TasksPage.tsx:232-235 | the "All Tasks" count is the board size, each status count is the size of that status's bucket, and the three add up to the board size |
| `Tasks.FilteredTasks` | src/components/pages/TasksPage.tsx:147-153 | an order-preserving sub-list keeping a task exactly when the lower-cased title or description contains the lower-cased term and the tab is "all" or the task's status, with multiplicities kept |
| `Tasks.EmptySearchKeepsAll` | src/components/pages/TasksPage.tsx:147-153 | an empty term on "All Tasks" keeps the whole board |
| `Tasks.TabContent` | src/components/pages/TasksPage.tsx:239-253 | an order-preserving sub-list of the board holding exactly the tasks of the tab, filtered by the search only on "All Tasks", each as often as on the board |
| `Tasks.StatusTabIgnoresSearch` | src/components/pages/TasksPage.tsx:243-253 | a status tab shows the same list whatever the search term, including tasks the search would hide |
| `Tasks.TaskBoard.constructor` | src/components/pages/TasksPage.tsx:109-111 | the board starts with its seed, an empty search, "All Tasks" and no drag in progress |
| `Tasks.TaskBoard.AddTask` | src/components/pages/TasksPage.tsx:121-127 | the list becomes `WithTask` of the old list, ids stay distinct, and the other state is kept |
| `Tasks.TaskBoard.UpdateTaskStatus` | src/components/pages/TasksPage.tsx:161-165 | the list becomes `SetStatus` of the old list, ids stay distinct, and the other state is kept |
| `Tasks.TaskBoard.HandleDragStart` | src/components/pages/TasksPage.tsx:167-169 | the dragged id is recorded and nothing else changes |
| `Tasks.TaskBoard.HandleDragEnd` | src/components/pages/TasksPage.tsx:171-194 | the dragged id is always cleared and the list takes the drop decision |
| `Tasks.TaskBoard.SetSearchTerm` | src/components/pages/TasksPage.tsx:218 | only the search term changes |
| `Tasks.TaskBoard.SetActiveTab` | src/components/pages/TasksPage.tsx:229 | only the active tab changes |
| `Tasks.TaskBoard.Shown` | src/components/pages/TasksPage.tsx:239-253 | the shown list is an order-preserving sub-list of the board with exactly the tasks of the active tab, filtered by the search term only on "All Tasks", each as often as on the board |
| `TasksWidget.Toggled` | src/components/dashboard/TasksWidget.tsx:85 | `completed` flips, the status becomes completed or todo by the old flag, afterwards flag and status agree, and no other field changes |
| `TasksWidget.ToggleTwice` | src/components/dashboard/TasksWidget.tsx:85 | two toggles restore `completed`; they restore the whole task when flag and status agreed, and never one that was in progress |
| `TasksWidget.WithToggled` | src/components/dashboard/TasksWidget.tsx:82-88 | same length; tasks with the id are toggled and the others stay, and an unknown id leaves the list identical |
| `TasksWidget.ToggleTaskConsistent` | src/components/dashboard/TasksWidget.tsx:85 | every toggled task has `completed` exactly when its status is completed |
| `TasksWidget.ToggleTaskTwice` | src/components/dashboard/TasksWidget.tsx:82-88 | toggling an id twice restores every flag, and the whole list when every task's flag and status agreed |
| `TasksWidget.TasksWidgetState.constructor` | src/components/dashboard/TasksWidget.tsx:80 | the widget starts with its seed list |
| `TasksWidget.TasksWidgetState.ToggleTask` | src/components/dashboard/TasksWidget.tsx:82-88 | the list becomes `WithToggled` of the old list |
| `Projects.WithProject` | src/components/pages/ProjectsPage.tsx:139-149 | the new project is in front with id `Math.max(...ids, 0) + 1` (above every id and 0, and 1 or one more than an id), the input's fields and zero progress, task counts and spending; the old projects follow unchanged and distinct ids stay distinct |
| `Projects.FilteredProjects` | src/components/pages/ProjectsPage.tsx:171-176 | an order-preserving sub-list keeping a project exactly when name or description contains the term case-insensitively and the filter is "all" or its status, with multiplicities kept |
| `Projects.EmptySearchShowsAll` | src/components/pages/ProjectsPage.tsx:171-176 | an empty term with the "all" filter shows every project |
| `Projects.CountStatus` | src/components/pages/ProjectsPage.tsx:180-182 | the number of times the status occurs among the projects' statuses, so at most the list length, and 0 exactly when no project has the status |
| `Projects.StatusCountsPartition` | src/components/pages/ProjectsPage.tsx:178-183 | the four status counts add up to the list length |
| `Projects.ProjectStats` | src/components/pages/ProjectsPage.tsx:178-183 | the total is the list length; active, completed and planning are each the number of projects with that status, and with the uncounted on-hold projects they make up the total |
| `Projects.Avatars` | src/components/pages/ProjectsPage.tsx:344-353 | the first min(n, 4) members are shown, a "+k" badge appears exactly when n > 4, and shown plus k is n |
| `Projects.ProjectsPageState.constructor` | src/components/pages/ProjectsPage.tsx:136-137 | the page starts with its seed, an empty search and the "all" filter |
| `Projects.ProjectsPageState.AddProject` | src/components/pages/ProjectsPage.tsx:139-149 | the list becomes `WithProject` of the old list, ids stay distinct, and the other state is kept |
| `Projects.ProjectsPageState.SetSearchTerm` | src/components/pages/ProjectsPage.tsx:248 | only the search term changes |
| `Projects.ProjectsPageState.SetStatusFilter` | src/components/pages/ProjectsPage.tsx:260-264 | only the status filter changes |
| `Projects.ProjectsPageState.Shown` | src/components/pages/ProjectsPage.tsx:171-176 | the cards shown are an order-preserving sub-list of the projects holding exactly those that match the search and the status filter, each as often as in the list |
| `ProjectForm.BudgetOf` | src/components/projects/AddProjectDialog.tsx:66 | an empty field gives 0; otherwise the budget is `NaN` exactly when `parseInt` finds no number, and the number it finds when it finds one |
| `ProjectForm.BudgetOfShowInt` | src/components/projects/AddProjectDialog.tsx:66 | a field holding an integer in decimal submits that integer |
| `ProjectForm.BudgetOfDigitsThen` | src/components/projects/AddProjectDialog.tsx:66 | digits followed by a non-digit submit the value of the digits ("007" gives 7, "1.5" gives 1) |
| `ProjectForm.SubmitDraft` | src/components/projects/AddProjectDialog.tsx:55-70 | no draft exactly when the name is blank; otherwise trimmed name (non-empty) and description, the chosen status and team, the date defaults, and the budget read from the field |
| `ProjectForm.Initials` | src/components/projects/AddProjectDialog.tsx:86-91 | the first min(2, w) upper-cased word starts of the trimmed name, where w is the number of word starts; never more than the number of words |
| `ProjectForm.NewMember` | src/components/projects/AddProjectDialog.tsx:84-99 | no member exactly when the name is blank; otherwise the trimmed non-empty name with its initials |
| `ProjectForm.WithoutIndex` | src/components/projects/AddProjectDialog.tsx:101-103 | an index in range removes exactly that element and keeps the others in order; any other index leaves the list unchanged |
| `ProjectForm.ProjectDialog.constructor` | src/components/projects/AddProjectDialog.tsx:45-53 | every field starts at its default: closed, empty strings, planning status, no team |
| `ProjectForm.ProjectDialog.SetOpen` | src/components/projects/AddProjectDialog.tsx:113 | only the open flag changes |
| `ProjectForm.ProjectDialog.SetName` | src/components/projects/AddProjectDialog.tsx:135 | only the name changes |
| `ProjectForm.ProjectDialog.SetDescription` | src/components/projects/AddProjectDialog.tsx:146 | only the description changes |
| `ProjectForm.ProjectDialog.SetStatus` | src/components/projects/AddProjectDialog.tsx:155 | only the status changes |
| `ProjectForm.ProjectDialog.SetBudget` | src/components/projects/AddProjectDialog.tsx:174 | only the budget text changes |
| `ProjectForm.ProjectDialog.SetStartDate` | src/components/projects/AddProjectDialog.tsx:187 | only the start date changes |
| `ProjectForm.ProjectDialog.SetEndDate` | src/components/projects/AddProjectDialog.tsx:197 | only the end date changes |
| `ProjectForm.ProjectDialog.SetNewMemberName` | src/components/projects/AddProjectDialog.tsx:208 | only the member-name input changes |
| `ProjectForm.ProjectDialog.Reset` | src/components/projects/AddProjectDialog.tsx:73-80 | every form field returns to its default and the open flag is kept |
| `ProjectForm.ProjectDialog.HandleSubmit` | src/components/projects/AddProjectDialog.tsx:55-82 | the draft passed on is `SubmitDraft` of the form; a blank name changes nothing, a submit resets every field and closes the dialog |
| `ProjectForm.ProjectDialog.Cancel` | src/components/projects/AddProjectDialog.tsx:238-249 | every field returns to its default and the dialog closes |
| `ProjectForm.ProjectDialog.AddTeamMember` | src/components/projects/AddProjectDialog.tsx:84-99 | a blank name changes nothing; otherwise one member is appended at the end and the input is cleared, and nothing else changes |
| `ProjectForm.ProjectDialog.HandleKeyPress` | src/components/projects/AddProjectDialog.tsx:105-110 | Enter adds the member as `AddTeamMember` does; any other key changes nothing |
| `ProjectForm.ProjectDialog.RemoveMember` | src/components/projects/AddProjectDialog.tsx:101-103 | the team becomes `WithoutIndex` of the old team and nothing else changes |
| `Calendar.DayEvents` | src/components/pages/CalendarPage.tsx:131-133 | no selection gives no events; otherwise an order-preserving sub-list of exactly the events on the selected local day, with multiplicities kept |
| `Calendar.DayEventsOrder` | src/components/pages/CalendarPage.tsx:131-133 | two events on the selected day appear in list order |
| `Calendar.SortByDate` | src/components/pages/CalendarPage.tsx:137 | a permutation of the input, ascending by date |
| `Calendar.InsertSorted` | src/components/pages/CalendarPage.tsx:137 | inserting into a date-sorted list keeps it sorted |
| `Calendar.SortByDateStable` | src/components/pages/CalendarPage.tsx:137 | events with equal dates keep their list order |
| `Calendar.UpcomingEvents` | src/components/pages/CalendarPage.tsx:135-138 | min(5, number of events at or after now) events, all at or after now, ascending by date, drawn from the list |
| `Calendar.UpcomingAreEarliest` | src/components/pages/CalendarPage.tsx:135-138 | an event at or after now that is left out is no earlier than any listed one |
| `Calendar.Normalize` | src/components/pages/CalendarPage.tsx:223 | the year is read as 1900 + year when it is 0 to 99, then an out-of-range month carries into it, keeping the month count |
| `Calendar.PrevMonth` | src/components/pages/CalendarPage.tsx:223 | one month back from the month with its year read that way: January gives December of the year before, any other month the month before |
| `Calendar.NextMonth` | src/components/pages/CalendarPage.tsx:237 | one month on from the month with its year read that way: December gives January of the year after, any other month the month after |
| `Calendar.PrevNextRoundTrip` | src/components/pages/CalendarPage.tsx:223-237 | previous then next gives the month back exactly outside January 0 to January 100, and next then previous exactly outside December -1 to December 99 |
| `Calendar.NextAfterDecember99` | src/components/pages/CalendarPage.tsx:223-237 | previous from January 100 is December 99, and next from there is January 2000 |
| `Calendar.CalendarView.constructor` | src/components/pages/CalendarPage.tsx:48-50 | the selection and the shown month start at the current time, and the events are the seed |
| `Calendar.CalendarView.ShowPreviousMonth` | src/components/pages/CalendarPage.tsx:223 | the shown month becomes the previous one and the selection stays |
| `Calendar.CalendarView.ShowNextMonth` | src/components/pages/CalendarPage.tsx:237 | the shown month becomes the next one and the selection stays |
| `Calendar.CalendarView.SetMonth` | src/components/pages/CalendarPage.tsx:230 | the shown month is replaced and the selection stays |
| `Calendar.CalendarView.Select` | src/components/pages/CalendarPage.tsx:248 | the selection is replaced and the shown month stays |
| `Calendar.CalendarView.SelectedDateEvents` | src/components/pages/CalendarPage.tsx:131-133 | nothing without a selection; otherwise an order-preserving sub-list of exactly the events on the selected day, each as often as in the list |
| `Calendar.CalendarView.TodayEvents` | src/components/pages/CalendarPage.tsx:127-129 | an order-preserving sub-list of exactly the events on the current day, each as often as in the list |
| `Calendar.CalendarView.Upcoming` | src/components/pages/CalendarPage.tsx:135-138 | min(5, number of events at or after now) events, none before now, ascending by date, drawn from the list |
| `CalendarGrid.CalendarCells` | src/components/dashboard/CalendarWidget.tsx:86-98 | length start + days, the first `start` cells blank, and day k at index start + k - 1 |
| `CalendarGrid.GetDaysInMonth` | src/components/dashboard/CalendarWidget.tsx:78-99 | the two loops build exactly `CalendarCells` |
| `CalendarGrid.FilledCellsConsecutive` | src/components/dashboard/CalendarWidget.tsx:94-96 | filled cells hold days of the month, increasing by one per cell |
| `CalendarGrid.FilledCellsAreTheMonth` | src/components/dashboard/CalendarWidget.tsx:94-96 | the filled cells hold exactly the days 1 to days-in-month |
| `CalendarGrid.Look` | src/components/dashboard/CalendarWidget.tsx:140-146 | a cell is highlighted exactly when it holds the current day, and greyed exactly when it is blank (or holds a 0 that is not the current day) |
| `CalendarGrid.BlanksHighlightNothing` | src/components/dashboard/CalendarWidget.tsx:89-91 | no blank cell is highlighted |
| `CalendarGrid.CurrentDayHighlightedOnce` | src/components/dashboard/CalendarWidget.tsx:142 | exactly one cell is highlighted when the current day is a day of the month, and none otherwise |
| `Analytics.EfficiencyTier` | src/components/pages/AnalyticsPage.tsx:88-92 | green exactly at 90 and above, yellow exactly from 80 below 90, red exactly below 80 |
| `Analytics.TierMonotone` | src/components/pages/AnalyticsPage.tsx:88-92 | a higher efficiency never gets a lower tier |
| `Analytics.EfficiencyColor` | src/components/pages/AnalyticsPage.tsx:88-92 | the text colour of the efficiency's tier |
| `Analytics.EfficiencyBadge` | src/components/pages/AnalyticsPage.tsx:94-98 | the badge classes of the efficiency's tier |
| `Analytics.TierStylesDistinct` | src/components/pages/AnalyticsPage.tsx:88-98 | each tier has its own colour and its own badge |
| `Analytics.ColorAndBadgeAgree` | src/components/pages/AnalyticsPage.tsx:88-98 | two efficiencies share a colour exactly when they share a badge, exactly when they share a tier |
| `Analytics.MemberInitials` | src/components/pages/AnalyticsPage.tsx:237 | the characters that start a word of the name, at most one per space-separated word |

## Left out

- Rendering: JSX, CSS classes other than the efficiency styles, icons, and the colour and icon lookups for priorities, statuses and event kinds.
- The drag-and-drop library: sensors, collision detection, the overlay and sortable wiring. A drop target is an input: nothing, a column, a task card or something else.
- The add-task dialog is not part of this model, so nothing is said about how a task draft is validated before `addTask`.
- The clock, the time zone and the locale: `new Date()`, `toDateString`, `toLocaleString`, `toISOString`, `getDay` and the month length. They become parameters, as listed above, and the date strings are opaque.
- Unicode case mapping: `Text.Lower` and `Text.Upper` map only the ASCII letters.
- JavaScript strings are UTF-16: `word[0]` takes a code unit, and here it takes a whole character.
- Text.ParseInt: reads decimal digits only. The `0x` hexadecimal prefix and number precision (digit runs too long for a double) are not modelled.
- Number precision: ids, budgets and dates are unbounded integers. Efficiencies are exact reals, with no `NaN`.
- `new Date(year, month)` keeps only the year and month it produces; the first-of-month day and time it sets are not modelled.
- The static views (both dashboard overviews, stats cards, activity feed, projects widget), navigation and layout, the theme toggle, notifications and the menu actions with no behaviour.
- The progress percentages of the analytics and project cards, which are floating point.
- Tasks.TaskBoard.constructor and Projects.ProjectsPageState.constructor ask for a seed list with distinct ids. The mock data has them, and the class invariant needs them.
