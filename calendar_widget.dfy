/** The month grid of the dashboard calendar widget: blank cells up to the
    weekday of the first of the month, then the days of the month, with the
    cell of the current day highlighted.

    The month length and the weekday of the first come from the `Date`
    arithmetic of the browser; here they are the inputs. */
module CalendarGrid {
  import opened Collections

  /** The grid `getDaysInMonth` builds, cell by cell: `None` for a blank. */
  function CalendarCells(startingDayOfWeek: nat, daysInMonth: nat): (cells: seq<Option<nat>>)
    ensures |cells| == startingDayOfWeek + daysInMonth
    ensures forall i :: 0 <= i < startingDayOfWeek ==> cells[i] == None
    ensures forall k :: 1 <= k <= daysInMonth ==> cells[startingDayOfWeek + k - 1] == Some(k)
  {
    seq(startingDayOfWeek + daysInMonth,
        i requires 0 <= i < startingDayOfWeek + daysInMonth =>
          if i < startingDayOfWeek then None else Some(i - startingDayOfWeek + 1))
  }

  /** `getDaysInMonth`: one loop pushes the blanks, the next the days. */
  method GetDaysInMonth(startingDayOfWeek: nat, daysInMonth: nat) returns (days: seq<Option<nat>>)
    ensures days == CalendarCells(startingDayOfWeek, daysInMonth)
  {
    days := [];
    var i := 0;
    while i < startingDayOfWeek
      invariant 0 <= i <= startingDayOfWeek
      invariant |days| == i
      invariant forall j :: 0 <= j < i ==> days[j] == None
    {
      days := days + [None];
      i := i + 1;
    }
    var day := 1;
    while day <= daysInMonth
      invariant 1 <= day <= daysInMonth + 1
      invariant |days| == startingDayOfWeek + day - 1
      invariant forall j :: 0 <= j < startingDayOfWeek ==> days[j] == None
      invariant forall k :: 1 <= k < day ==> days[startingDayOfWeek + k - 1] == Some(k)
    {
      days := days + [Some(day)];
      day := day + 1;
    }
    var cells := CalendarCells(startingDayOfWeek, daysInMonth);
    forall j | 0 <= j < |days| ensures days[j] == cells[j] {
      if j >= startingDayOfWeek {
        var k := j - startingDayOfWeek + 1;
        assert days[startingDayOfWeek + k - 1] == Some(k);
      }
    }
  }

  /** The filled cells hold consecutive days: between two of them the day
      number grows by the distance, and every filled cell holds a day of the
      month. */
  lemma FilledCellsConsecutive(startingDayOfWeek: nat, daysInMonth: nat, i: int, j: int)
    requires 0 <= i <= j < startingDayOfWeek + daysInMonth
    requires CalendarCells(startingDayOfWeek, daysInMonth)[i].Some?
    ensures var cells := CalendarCells(startingDayOfWeek, daysInMonth);
      cells[j].Some? && cells[j].value == cells[i].value + (j - i) &&
      1 <= cells[i].value <= cells[j].value <= daysInMonth
  {
    var cells := CalendarCells(startingDayOfWeek, daysInMonth);
    assert i >= startingDayOfWeek;
    assert cells[i] == cells[startingDayOfWeek + (i - startingDayOfWeek + 1) - 1];
    assert cells[j] == cells[startingDayOfWeek + (j - startingDayOfWeek + 1) - 1];
  }

  /** The filled cells hold exactly the days of the month. */
  lemma FilledCellsAreTheMonth(startingDayOfWeek: nat, daysInMonth: nat)
    ensures forall d :: Some(d) in CalendarCells(startingDayOfWeek, daysInMonth) <==> 1 <= d <= daysInMonth
  {
    var cells := CalendarCells(startingDayOfWeek, daysInMonth);
    forall d | Some(d) in cells ensures 1 <= d <= daysInMonth {
      var i :| 0 <= i < |cells| && cells[i] == Some(d);
      FilledCellsConsecutive(startingDayOfWeek, daysInMonth, i, i);
    }
  }

  /** How a cell is drawn: the current day highlighted, another day plain, a
      blank greyed. */
  datatype CellLook = CurrentDay | OtherDay | Blank

  function Look(cell: Option<nat>, currentDay: int): (look: CellLook)
    ensures look == CurrentDay <==> cell == Some(currentDay)
    ensures look == Blank <==> cell.None? || (cell.value == 0 && currentDay != 0)
  {
    if cell.Some? && cell.value == currentDay then CurrentDay
    else if cell.Some? && cell.value != 0 then OtherDay
    else Blank
  }

  /** The number of highlighted cells. */
  function CountCurrent(cells: seq<Option<nat>>, currentDay: int): nat
    decreases |cells|
  {
    if cells == [] then 0
    else CountCurrent(cells[..|cells| - 1], currentDay)
         + (if Look(cells[|cells| - 1], currentDay) == CurrentDay then 1 else 0)
  }

  lemma {:induction false} BlanksHighlightNothing(startingDayOfWeek: nat, currentDay: int)
    ensures CountCurrent(CalendarCells(startingDayOfWeek, 0), currentDay) == 0
    decreases startingDayOfWeek
  {
    if startingDayOfWeek > 0 {
      var cells := CalendarCells(startingDayOfWeek, 0);
      assert cells[..|cells| - 1] == CalendarCells(startingDayOfWeek - 1, 0);
      BlanksHighlightNothing(startingDayOfWeek - 1, currentDay);
    }
  }

  /** At most one cell is highlighted, and exactly one when the current day
      is a day of the month. */
  lemma {:induction false} CurrentDayHighlightedOnce(startingDayOfWeek: nat, daysInMonth: nat, currentDay: int)
    ensures CountCurrent(CalendarCells(startingDayOfWeek, daysInMonth), currentDay)
         == if 1 <= currentDay <= daysInMonth then 1 else 0
    decreases daysInMonth
  {
    if daysInMonth == 0 {
      BlanksHighlightNothing(startingDayOfWeek, currentDay);
    } else {
      var cells := CalendarCells(startingDayOfWeek, daysInMonth);
      assert cells[..|cells| - 1] == CalendarCells(startingDayOfWeek, daysInMonth - 1);
      assert cells[|cells| - 1] == Some(daysInMonth);
      CurrentDayHighlightedOnce(startingDayOfWeek, daysInMonth - 1, currentDay);
    }
  }
}
