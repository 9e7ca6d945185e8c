/** The new-project dialog: nine pieces of form state that the handlers
    overwrite, the submit guard that turns them into a project draft, and the
    team-member list with its derived initials. */
module ProjectForm {
  import opened Collections
  import opened Text
  import opened Projects

  /** A snapshot of the dialog's nine state variables. */
  datatype FormState = FormState(
    open: bool,
    name: string,
    description: string,
    status: ProjectStatus,
    startDate: string,
    endDate: string,
    budget: string,
    teamMembers: seq<Member>,
    newMemberName: string)

  /** The initial values, to which both a successful submit and Cancel return. */
  const Defaults := FormState(false, [], [], Planning, [], [], [], [], [])

  /** The budget field as the submit reads it: empty means 0, anything else
      goes through `parseInt`. */
  function BudgetOf(text: string): (b: Budget)
    ensures text == [] ==> b == Amount(0)
    ensures text != [] ==> (b.NotANumber? <==> ParseInt(text).None?)
    ensures text != [] && ParseInt(text).Some? ==> b == Amount(ParseInt(text).value)
  {
    if text == [] then Amount(0)
    else match ParseInt(text)
      case Some(v) => Amount(v)
      case None => NotANumber
  }

  /** A field holding digits followed by anything but a digit submits the
      value of the digits: "007" submits 7 and "1.5" submits 1. */
  lemma BudgetOfDigitsThen(ds: string, rest: string)
    requires ds != [] && forall i :: 0 <= i < |ds| ==> IsDigit(ds[i])
    requires rest == [] || !IsDigit(rest[0])
    ensures BudgetOf(ds + rest) == Amount(DigitsValue(ds) as int)
  {
    ParseIntDigitsThen(ds, rest);
  }

  /** Whatever integer the number field holds is the budget submitted. */
  lemma BudgetOfShowInt(n: int)
    ensures BudgetOf(ShowInt(n)) == Amount(n)
  {
    ParseIntShowInt(n);
  }

  /** The project `handleSubmit` passes on, or `None` when the name is blank
      and the submit stops. Name and description are trimmed, the status and
      team are taken as they are, an empty date falls back to today or to the
      date thirty days on (both supplied by the caller, since the clock is not
      modelled), and the budget is read by `BudgetOf`. */
  function SubmitDraft(f: FormState, today: string, monthAhead: string): (r: Option<ProjectDraft>)
    ensures r.None? <==> IsBlank(f.name)
    ensures r.Some? ==> r.value.name == Trim(f.name) && r.value.name != []
    ensures r.Some? ==> r.value.description == Trim(f.description)
    ensures r.Some? ==> r.value.status == f.status && r.value.team == f.teamMembers
    ensures r.Some? ==> r.value.startDate == (if f.startDate == [] then today else f.startDate)
    ensures r.Some? ==> r.value.endDate == (if f.endDate == [] then monthAhead else f.endDate)
    ensures r.Some? ==> r.value.budget == BudgetOf(f.budget)
  {
    TrimSpec(f.name);
    if Trim(f.name) == [] then None
    else Some(ProjectDraft(
      Trim(f.name),
      Trim(f.description),
      f.status,
      if f.startDate == [] then today else f.startDate,
      if f.endDate == [] then monthAhead else f.endDate,
      BudgetOf(f.budget),
      f.teamMembers))
  }

  /** The initials of a new team member: the upper-cased first letters of the
      space-separated words of the trimmed name, at most two of them. */
  function Initials(name: string): (r: string)
    ensures |r| == (if |WordStarts(Trim(name))| < 2 then |WordStarts(Trim(name))| else 2)
    ensures r == Upper(WordStarts(Trim(name)))[..|r|]
    ensures |r| <= |Split(Trim(name))|
  {
    var letters := Upper(FirstLetters(Split(Trim(name))));
    FirstLettersOfSplit(Trim(name));
    letters[..if |letters| < 2 then |letters| else 2]
  }

  /** The member `addTeamMember` appends, or `None` when the name is blank. */
  function NewMember(text: string): (m: Option<Member>)
    ensures m.None? <==> IsBlank(text)
    ensures m.Some? ==> m.value.name == Trim(text) && m.value.name != [] && m.value.initials == Initials(text)
  {
    TrimSpec(text);
    if Trim(text) == [] then None else Some(Member(Trim(text), Initials(text)))
  }

  /** `list.filter((_, i) => i !== index)`: the element at `index` is dropped
      and the others keep their order; an index outside the list drops
      nothing. */
  function WithoutIndex<T>(s: seq<T>, index: int): (r: seq<T>)
    ensures 0 <= index < |s| ==> r == s[..index] + s[index + 1..]
    ensures !(0 <= index < |s|) ==> r == s
    decreases |s|
  {
    if s == [] then []
    else
      var rest := WithoutIndex(s[1..], index - 1);
      assert 0 < index < |s| ==> s[..index] == [s[0]] + s[1..][..index - 1] && s[index + 1..] == s[1..][index..];
      assert s == [s[0]] + s[1..];
      (if index == 0 then [] else [s[0]]) + rest
  }

  /** The dialog's state. */
  class ProjectDialog {
    var open: bool
    var name: string
    var description: string
    var status: ProjectStatus
    var startDate: string
    var endDate: string
    var budget: string
    var teamMembers: seq<Member>
    var newMemberName: string

    function State(): FormState
      reads this
    {
      FormState(open, name, description, status, startDate, endDate, budget, teamMembers, newMemberName)
    }

    constructor()
      ensures State() == Defaults
    {
      open, name, description, status := false, [], [], Planning;
      startDate, endDate, budget := [], [], [];
      teamMembers, newMemberName := [], [];
    }

    method SetOpen(value: bool)
      modifies this
      ensures State() == old(State()).(open := value)
    {
      open := value;
    }

    method SetName(value: string)
      modifies this
      ensures State() == old(State()).(name := value)
    {
      name := value;
    }

    method SetDescription(value: string)
      modifies this
      ensures State() == old(State()).(description := value)
    {
      description := value;
    }

    method SetStatus(value: ProjectStatus)
      modifies this
      ensures State() == old(State()).(status := value)
    {
      status := value;
    }

    method SetStartDate(value: string)
      modifies this
      ensures State() == old(State()).(startDate := value)
    {
      startDate := value;
    }

    method SetEndDate(value: string)
      modifies this
      ensures State() == old(State()).(endDate := value)
    {
      endDate := value;
    }

    method SetBudget(value: string)
      modifies this
      ensures State() == old(State()).(budget := value)
    {
      budget := value;
    }

    method SetNewMemberName(value: string)
      modifies this
      ensures State() == old(State()).(newMemberName := value)
    {
      newMemberName := value;
    }

    /** Every field back to its initial value. */
    method Reset()
      modifies this
      ensures State() == Defaults.(open := old(open))
    {
      name, description, status := [], [], Planning;
      startDate, endDate, budget := [], [], [];
      teamMembers, newMemberName := [], [];
    }

    /** `handleSubmit`: a blank name stops the submit and nothing changes;
        otherwise the draft is handed to the page and the form is reset and
        closed. */
    method HandleSubmit(today: string, monthAhead: string) returns (added: Option<ProjectDraft>)
      modifies this
      ensures added == SubmitDraft(old(State()), today, monthAhead)
      ensures added.None? ==> State() == old(State())
      ensures added.Some? ==> State() == Defaults
    {
      added := SubmitDraft(State(), today, monthAhead);
      if added.Some? {
        Reset();
        open := false;
      }
    }

    /** The Cancel button: the dialog closes and the form is reset. */
    method Cancel()
      modifies this
      ensures State() == Defaults
    {
      open := false;
      Reset();
    }

    /** `addTeamMember`: a blank name changes nothing; otherwise the trimmed
        name and its initials are appended and the input is cleared. */
    method AddTeamMember()
      modifies this
      ensures IsBlank(old(newMemberName)) ==> State() == old(State())
      ensures !IsBlank(old(newMemberName)) ==>
        State() == old(State()).(teamMembers := old(teamMembers) + [NewMember(old(newMemberName)).value], newMemberName := [])
    {
      var m := NewMember(newMemberName);
      if m.Some? {
        teamMembers := teamMembers + [m.value];
        newMemberName := [];
      }
    }

    /** Enter in the member input adds the member. */
    method HandleKeyPress(key: string)
      modifies this
      ensures key != "Enter" ==> State() == old(State())
      ensures key == "Enter" && IsBlank(old(newMemberName)) ==> State() == old(State())
      ensures key == "Enter" && !IsBlank(old(newMemberName)) ==>
        State() == old(State()).(teamMembers := old(teamMembers) + [NewMember(old(newMemberName)).value], newMemberName := [])
    {
      if key == "Enter" {
        AddTeamMember();
      }
    }

    /** `removeMember`: the member at `index` leaves the list. */
    method RemoveMember(index: int)
      modifies this
      ensures State() == old(State()).(teamMembers := WithoutIndex(old(teamMembers), index))
    {
      teamMembers := WithoutIndex(teamMembers, index);
    }
  }
}
