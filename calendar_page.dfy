/** The Calendar page: a constant list of events, the events of today and of the
    selected day, the next five upcoming events, and the month shown by the
    calendar with its previous/next buttons.

    A date is a timestamp in milliseconds. `toDateString` equality is equality
    of local calendar days, which depends on the time zone; it is a parameter
    `dayOf` mapping a timestamp to a day number. */
module Calendar {
  import opened Collections

  datatype EventKind = Meeting | TaskEvent | Reminder | Call

  datatype Event = Event(
    id: int,
    title: string,
    description: string,
    date: int,
    startTime: string,
    endTime: string,
    kind: EventKind,
    attendees: Option<seq<string>>,
    location: Option<string>)

  function OnDay(dayOf: int -> int, day: int): Event -> bool {
    (e: Event) => dayOf(e.date) == day
  }

  /** `selectedDateEvents`: nothing when no date is selected, otherwise the
      events on the selected day, each as often as in the list, in list order.
      `todayEvents` is the same filter with the current time as the selection. */
  function DayEvents(events: seq<Event>, dayOf: int -> int, selected: Option<int>): (r: seq<Event>)
    ensures selected.None? ==> r == []
    ensures selected.Some? ==> IsSubsequence(r, events)
    ensures selected.Some? ==> forall e :: e in r <==> e in events && dayOf(e.date) == dayOf(selected.value)
    ensures selected.Some? ==> forall e :: multiset(r)[e] == if dayOf(e.date) == dayOf(selected.value) then multiset(events)[e] else 0
  {
    match selected
    case None => []
    case Some(d) =>
      FilterSpec(OnDay(dayOf, dayOf(d)), events);
      Filter(OnDay(dayOf, dayOf(d)), events)
  }

  /** Two events on the same day as the selection are both listed, in list
      order. */
  lemma DayEventsOrder(events: seq<Event>, dayOf: int -> int, d: int, i: int, j: int)
    requires 0 <= i < j < |events|
    requires dayOf(events[i].date) == dayOf(d) && dayOf(events[j].date) == dayOf(d)
    ensures IsSubsequence([events[i], events[j]], DayEvents(events, dayOf, Some(d)))
  {
    FilterOrder(OnDay(dayOf, dayOf(d)), events, i, j);
  }

  /** Ascending by date. */
  ghost predicate SortedByDate(s: seq<Event>) {
    forall i, j :: 0 <= i < j < |s| ==> s[i].date <= s[j].date
  }

  /** Places `e` before the first event of `sorted` that is not earlier than it. */
  function Insert(e: Event, sorted: seq<Event>): (r: seq<Event>)
    ensures |r| == |sorted| + 1
    ensures multiset(r) == multiset(sorted) + multiset{e}
    decreases |sorted|
  {
    if sorted == [] || e.date <= sorted[0].date then [e] + sorted
    else
      assert sorted == [sorted[0]] + sorted[1..];
      [sorted[0]] + Insert(e, sorted[1..])
  }

  /** Inserting into a sorted list keeps it sorted. */
  lemma {:induction false} InsertSorted(e: Event, sorted: seq<Event>)
    requires SortedByDate(sorted)
    ensures SortedByDate(Insert(e, sorted))
    decreases |sorted|
  {
    if sorted == [] || e.date <= sorted[0].date {
      forall x | x in sorted ensures e.date <= x.date {
        var j :| 0 <= j < |sorted| && sorted[j] == x;
      }
      SortedCons(e, sorted);
    } else {
      var rest := Insert(e, sorted[1..]);
      InsertSorted(e, sorted[1..]);
      forall x | x in rest ensures sorted[0].date <= x.date {
        InsertMember(e, sorted[1..], x);
        if x != e {
          var j :| 0 <= j < |sorted[1..]| && sorted[1..][j] == x;
          assert sorted[j + 1] == x;
        }
      }
      SortedCons(sorted[0], rest);
    }
  }

  lemma InsertMember(e: Event, sorted: seq<Event>, x: Event)
    requires x in Insert(e, sorted)
    ensures x == e || x in sorted
  {
    assert x in multiset(Insert(e, sorted));
  }

  /** An event no later than every event of a sorted list can go in front. */
  lemma SortedCons(h: Event, s: seq<Event>)
    requires SortedByDate(s)
    requires forall x :: x in s ==> h.date <= x.date
    ensures SortedByDate([h] + s)
  {
    var r := [h] + s;
    forall i, j | 0 <= i < j < |r| ensures r[i].date <= r[j].date {
      assert r[j] == s[j - 1];
      if i > 0 {
        assert r[i] == s[i - 1];
      }
    }
  }

  /** The sort with comparator `a.date - b.date`. JavaScript's sort is stable,
      so events with equal dates keep their list order. */
  function SortByDate(s: seq<Event>): (r: seq<Event>)
    ensures |r| == |s|
    ensures multiset(r) == multiset(s)
    ensures SortedByDate(r)
    decreases |s|
  {
    if s == [] then []
    else
      assert s == [s[0]] + s[1..];
      InsertSorted(s[0], SortByDate(s[1..]));
      Insert(s[0], SortByDate(s[1..]))
  }

  function SameDate(d: int): Event -> bool {
    (e: Event) => e.date == d
  }

  /** Inserting into a sorted list puts `e` ahead of the events with its date
      and leaves the order among the others alone. */
  lemma {:induction false} InsertStable(e: Event, sorted: seq<Event>, d: int)
    requires SortedByDate(sorted)
    ensures Filter(SameDate(d), Insert(e, sorted)) ==
      (if e.date == d then [e] else []) + Filter(SameDate(d), sorted)
    decreases |sorted|
  {
    var p := SameDate(d);
    if sorted == [] || e.date <= sorted[0].date {
      assert ([e] + sorted)[1..] == sorted;
      assert Filter(p, [e] + sorted) == (if e.date == d then [e] else []) + Filter(p, sorted);
    } else {
      InsertStable(e, sorted[1..], d);
      var rest := Insert(e, sorted[1..]);
      var h := if sorted[0].date == d then [sorted[0]] else [];
      assert ([sorted[0]] + rest)[1..] == rest;
      assert Filter(p, Insert(e, sorted)) == h + Filter(p, rest);
      assert Filter(p, sorted) == h + Filter(p, sorted[1..]);
      if e.date == d {
        assert h == [];
        assert Filter(p, rest) == [e] + Filter(p, sorted[1..]);
      } else {
        assert Filter(p, rest) == Filter(p, sorted[1..]);
      }
    }
  }

  /** Stability: among events with the same date, the sorted list keeps the
      original order. */
  lemma {:induction false} SortByDateStable(s: seq<Event>, d: int)
    ensures Filter(SameDate(d), SortByDate(s)) == Filter(SameDate(d), s)
    decreases |s|
  {
    if s != [] {
      SortByDateStable(s[1..], d);
      InsertStable(s[0], SortByDate(s[1..]), d);
    }
  }

  function NotBefore(now: int): Event -> bool {
    (e: Event) => e.date >= now
  }

  /** How many events are at or after `now`. */
  function FutureCount(events: seq<Event>, now: int): nat {
    |Filter(NotBefore(now), events)|
  }

  /** `upcomingEvents`: the events at or after `now`, sorted by date, and the
      first five of those. */
  function UpcomingEvents(events: seq<Event>, now: int): (r: seq<Event>)
    ensures |r| == if FutureCount(events, now) < 5 then FutureCount(events, now) else 5
    ensures forall i :: 0 <= i < |r| ==> r[i].date >= now
    ensures SortedByDate(r)
    ensures multiset(r) <= multiset(events)
  {
    var all := SortByDate(Filter(NotBefore(now), events));
    var k := if |all| < 5 then |all| else 5;
    UpcomingFacts(events, now, all, k);
    all[..k]
  }

  lemma UpcomingFacts(events: seq<Event>, now: int, all: seq<Event>, k: int)
    requires all == SortByDate(Filter(NotBefore(now), events)) && 0 <= k <= |all|
    ensures forall i :: 0 <= i < |all[..k]| ==> all[..k][i].date >= now
    ensures SortedByDate(all[..k])
    ensures multiset(all[..k]) <= multiset(events)
  {
    SortedPrefix(all, k);
    assert multiset(all[..k]) <= multiset(events) by {
      FutureSorted(events, now);
      PrefixSubMultiset(all, k);
    }
    forall i | 0 <= i < |all[..k]| ensures all[..k][i].date >= now {
      FutureSorted(events, now);
      assert all[i] in all;
    }
  }

  /** A prefix of a sorted list is sorted. */
  lemma SortedPrefix(s: seq<Event>, k: int)
    requires SortedByDate(s) && 0 <= k <= |s|
    ensures SortedByDate(s[..k])
  {
  }

  /** The sorted future events are the events at or after `now`, each as often
      as in the list. */
  lemma FutureSorted(events: seq<Event>, now: int)
    ensures forall x :: x in SortByDate(Filter(NotBefore(now), events)) ==> x.date >= now
    ensures forall x :: multiset(SortByDate(Filter(NotBefore(now), events)))[x] == if x.date >= now then multiset(events)[x] else 0
    ensures multiset(SortByDate(Filter(NotBefore(now), events))) <= multiset(events)
  {
    var f := Filter(NotBefore(now), events);
    FilterSpec(NotBefore(now), events);
    forall x | x in SortByDate(f) ensures x.date >= now {
      assert x in multiset(f);
    }
  }

  /** The five are the earliest: an upcoming event that is left out (an
      occurrence of it beyond those listed) is no earlier than any listed. */
  lemma UpcomingAreEarliest(events: seq<Event>, now: int, e: Event)
    requires e.date >= now
    requires multiset(UpcomingEvents(events, now))[e] < multiset(events)[e]
    ensures forall i :: 0 <= i < |UpcomingEvents(events, now)| ==> UpcomingEvents(events, now)[i].date <= e.date
  {
    var all := SortByDate(Filter(NotBefore(now), events));
    var k := if |all| < 5 then |all| else 5;
    assert UpcomingEvents(events, now) == all[..k];
    assert multiset(all)[e] == multiset(events)[e] by {
      FutureSorted(events, now);
    }
    var m := LeftOutInTail(all, k, e);
    SortedPrefixBeforeTail(all, k, m);
  }

  /** In a sorted list the events before index `k` are no later than any
      event from `k` on. */
  lemma SortedPrefixBeforeTail(s: seq<Event>, k: int, m: int)
    requires SortedByDate(s)
    requires 0 <= k <= m < |s|
    ensures forall i :: 0 <= i < |s[..k]| ==> s[..k][i].date <= s[m].date
  {
  }

  /** A month as `getFullYear()` and the zero-based `getMonth()`. */
  type Month = m: int | 0 <= m < 12

  datatype YearMonth = YearMonth(year: int, month: Month)

  /** Months counted from year 0. */
  function MonthIndex(ym: YearMonth): int {
    ym.year * 12 + ym.month
  }

  /** The year `new Date(year, month)` uses: the MakeFullYear step of the
      ECMAScript `Date` constructor (section 21.4.2.1 of ECMA-262) reads a year
      from 0 to 99 as a year of the 1900s. */
  function FullYear(year: int): int {
    if 0 <= year <= 99 then 1900 + year else year
  }

  /** `new Date(year, month)`: the year is read by `FullYear`, then an
      out-of-range month carries into it. */
  function Normalize(year: int, month: int): (ym: YearMonth)
    ensures MonthIndex(ym) == FullYear(year) * 12 + month
    ensures !(0 <= year <= 99) ==> MonthIndex(ym) == year * 12 + month
    ensures 0 <= year <= 99 ==> MonthIndex(ym) == (1900 + year) * 12 + month
  {
    var y := FullYear(year);
    YearMonth(y + month / 12, month % 12)
  }

  /** The previous-month button: one month back from the month whose year is
      read by `FullYear`. */
  function PrevMonth(ym: YearMonth): (r: YearMonth)
    ensures MonthIndex(r) == FullYear(ym.year) * 12 + ym.month - 1
    ensures ym.month == 0 ==> r == YearMonth(FullYear(ym.year) - 1, 11)
    ensures ym.month > 0 ==> r == YearMonth(FullYear(ym.year), ym.month - 1)
  {
    Normalize(ym.year, ym.month - 1)
  }

  /** The next-month button: one month on from the month whose year is read
      by `FullYear`. */
  function NextMonth(ym: YearMonth): (r: YearMonth)
    ensures MonthIndex(r) == FullYear(ym.year) * 12 + ym.month + 1
    ensures ym.month == 11 ==> r == YearMonth(FullYear(ym.year) + 1, 0)
    ensures ym.month < 11 ==> r == YearMonth(FullYear(ym.year), ym.month + 1)
  {
    Normalize(ym.year, ym.month + 1)
  }

  /** A month is determined by its index. */
  lemma MonthIndexInjective(a: YearMonth, b: YearMonth)
    requires MonthIndex(a) == MonthIndex(b)
    ensures a == b
  {
  }

  /** Previous and next undo each other exactly when no year from 0 to 99 is
      met on the way: next after previous gives the month back unless the
      month lies in January of year 0 up to January of year 100, and previous
      after next unless it lies in December of year -1 up to December of
      year 99. */
  lemma PrevNextRoundTrip(ym: YearMonth)
    ensures NextMonth(PrevMonth(ym)) == ym <==> !(0 <= MonthIndex(ym) <= 1200)
    ensures PrevMonth(NextMonth(ym)) == ym <==> !(-1 <= MonthIndex(ym) < 1200)
  {
    var back := PrevMonth(ym);
    var on := NextMonth(ym);
    if !(0 <= MonthIndex(ym) <= 1200) {
      assert !(0 <= back.year <= 99);
      MonthIndexInjective(NextMonth(back), ym);
    }
    if !(-1 <= MonthIndex(ym) < 1200) {
      assert !(0 <= on.year <= 99);
      MonthIndexInjective(PrevMonth(on), ym);
    }
  }

  /** The two-digit year breaks the round trip: previous from January of
      year 100 is December of year 99, and next from there is January 2000. */
  lemma NextAfterDecember99()
    ensures PrevMonth(YearMonth(100, 0)) == YearMonth(99, 11)
    ensures NextMonth(YearMonth(99, 11)) == YearMonth(2000, 0)
  {
  }

  /** The page's state. The event list is set once and never changed. */
  class CalendarView {
    const events: seq<Event>
    var selectedDate: Option<int>
    var currentMonth: YearMonth

    /** Both the selection and the shown month start at the current time. */
    constructor(seed: seq<Event>, now: int, thisMonth: YearMonth)
      ensures events == seed && selectedDate == Some(now) && currentMonth == thisMonth
    {
      events := seed;
      selectedDate := Some(now);
      currentMonth := thisMonth;
    }

    method ShowPreviousMonth()
      modifies this
      ensures currentMonth == PrevMonth(old(currentMonth)) && selectedDate == old(selectedDate)
    {
      currentMonth := PrevMonth(currentMonth);
    }

    method ShowNextMonth()
      modifies this
      ensures currentMonth == NextMonth(old(currentMonth)) && selectedDate == old(selectedDate)
    {
      currentMonth := NextMonth(currentMonth);
    }

    /** The Today button, and the calendar's own month navigation: the shown
        month is replaced and the selection stays. */
    method SetMonth(ym: YearMonth)
      modifies this
      ensures currentMonth == ym && selectedDate == old(selectedDate)
    {
      currentMonth := ym;
    }

    /** Picking a day in the calendar, or clearing the pick. */
    method Select(d: Option<int>)
      modifies this
      ensures selectedDate == d && currentMonth == old(currentMonth)
    {
      selectedDate := d;
    }

    /** `selectedDateEvents`: nothing without a selection, otherwise the
        events of the selected day in list order. */
    function SelectedDateEvents(dayOf: int -> int): (r: seq<Event>)
      reads this
      ensures selectedDate.None? ==> r == []
      ensures selectedDate.Some? ==> IsSubsequence(r, events)
      ensures selectedDate.Some? ==> forall e :: e in r <==> e in events && dayOf(e.date) == dayOf(selectedDate.value)
      ensures selectedDate.Some? ==> forall e :: multiset(r)[e] == if dayOf(e.date) == dayOf(selectedDate.value) then multiset(events)[e] else 0
    {
      DayEvents(events, dayOf, selectedDate)
    }

    /** `todayEvents`: the events of the current day in list order. */
    function TodayEvents(dayOf: int -> int, now: int): (r: seq<Event>)
      reads this
      ensures IsSubsequence(r, events)
      ensures forall e :: e in r <==> e in events && dayOf(e.date) == dayOf(now)
      ensures forall e :: multiset(r)[e] == if dayOf(e.date) == dayOf(now) then multiset(events)[e] else 0
    {
      DayEvents(events, dayOf, Some(now))
    }

    /** `upcomingEvents`: at most five events, none before `now`, in date
        order, drawn from the list. */
    function Upcoming(now: int): (r: seq<Event>)
      reads this
      ensures |r| == if FutureCount(events, now) < 5 then FutureCount(events, now) else 5
      ensures forall i :: 0 <= i < |r| ==> r[i].date >= now
      ensures SortedByDate(r)
      ensures multiset(r) <= multiset(events)
    {
      UpcomingEvents(events, now)
    }
  }
}
