/**
 * The calendar page: the `dd/mm/yyyy` label, the same-day test, the per-day
 * task filter, the 42-cell month grid, and the page's selection and modal
 * state. A month enters the grid as its first weekday (0 = Sunday .. 6) and
 * its number of days, the values JavaScript's `Date` reports for it.
 */
module Calendar {
  import opened Wrappers
  import opened Text
  import opened Seqs
  import opened Dates
  import opened TaskActions

  const GridCells: nat := 42

  /** The instant whose millisecond timestamp is 0, which JavaScript treats as false. */
  const Epoch: DateTime := DateTime(Date(1970, 0, 1), 0, 0, 0, 0)

  /** `formatDateToIndianStyle`: `dd/mm/yyyy`, day and 1-based month padded to two digits. */
  function FormatDateToIndianStyle(t: DateTime): (s: string)
    ensures WellFormed(t.date) ==>
              |s| >= 7 && s[2] == '/' && s[5] == '/'
              && AllDigits(s[..2]) && AllDigits(s[3..5]) && AllDigits(s[6..])
  {
    var dd, mm, yy := Pad(t.date.day, 2), Pad(t.date.month + 1, 2), NatToString(t.date.year);
    assert WellFormed(t.date) ==> |dd| == 2 && |mm| == 2 by {
      if WellFormed(t.date) {
        Pow10Small();
        PadRoundTrip(t.date.day, 2);
        PadRoundTrip(t.date.month + 1, 2);
      }
    }
    if |dd| == 2 && |mm| == 2 then SlashedParts(dd, mm, yy); dd + "/" + mm + "/" + yy
    else dd + "/" + mm + "/" + yy
  }

  /** Where the parts of a slashed label with two-character day and month sit. */
  lemma {:induction false} SlashedParts(a: string, b: string, c: string)
    requires |a| == 2 && |b| == 2
    ensures var s := a + "/" + b + "/" + c;
            |s| == 6 + |c| && s[2] == '/' && s[5] == '/' && s[..2] == a && s[3..5] == b && s[6..] == c
  {
    var s := a + "/" + b + "/" + c;
    assert s[..2] == a && s[3..5] == b && s[6..] == c;
  }

  /** Reads a `dd/mm/yyyy` label back into a date. */
  function ParseIndianStyle(s: string): Option<Date> {
    if |s| >= 7 && s[2] == '/' && s[5] == '/'
       && AllDigits(s[..2]) && AllDigits(s[3..5]) && AllDigits(s[6..])
       && DigitsValue(s[3..5]) >= 1
    then Some(Date(DigitsValue(s[6..]), DigitsValue(s[3..5]) - 1, DigitsValue(s[..2])))
    else None
  }

  lemma {:induction false} ParseSlashed(a: string, b: string, c: string)
    requires |a| == 2 && |b| == 2 && |c| >= 1
    requires AllDigits(a) && AllDigits(b) && AllDigits(c) && DigitsValue(b) >= 1
    ensures var s := a + "/" + b + "/" + c;
            s[2] == '/' && s[5] == '/'
            && ParseIndianStyle(s) == Some(Date(DigitsValue(c), DigitsValue(b) - 1, DigitsValue(a)))
  {
    var s := a + "/" + b + "/" + c;
    assert s[..2] == a && s[3..5] == b && s[6..] == c;
  }

  /** The label has day and month in two digits each and reads back as the date it shows. */
  lemma {:induction false} IndianStyleRoundTrip(t: DateTime)
    requires WellFormed(t.date)
    ensures var s := FormatDateToIndianStyle(t);
            s[2] == '/' && s[5] == '/' && ParseIndianStyle(s) == Some(t.date)
  {
    var dd, mm, yy := Pad(t.date.day, 2), Pad(t.date.month + 1, 2), NatToString(t.date.year);
    assert FormatDateToIndianStyle(t) == dd + "/" + mm + "/" + yy;
    Pow10Small();
    PadRoundTrip(t.date.day, 2);
    PadRoundTrip(t.date.month + 1, 2);
    NatToStringRoundTrip(t.date.year);
    ParseSlashed(dd, mm, yy);
  }

  /** `isSameDay`: year, month and day all agree. */
  function IsSameDay(a: Date, b: Date): (same: bool)
    ensures same <==> a == b
  {
    a.year == b.year && a.month == b.month && a.day == b.day
  }

  /** JavaScript truthiness of the due timestamp: absent, or exactly 0, counts as no due date. */
  predicate HasDueDate(t: CalendarRow) {
    t.dueDate.Some? && t.dueDate.value != Epoch
  }

  /** `getTasksForDay`: the incomplete tasks due on `date`, in their original order. */
  function GetTasksForDay(tasks: seq<CalendarRow>, date: Date): (r: seq<CalendarRow>)
    ensures forall t :: t in r <==>
              t in tasks && t.dueDate.Some? && t.dueDate.value != Epoch
              && t.dueDate.value.date == date && !t.completed
    ensures forall t {:trigger multiset(r)[t]} ::
              multiset(r)[t] == if HasDueDate(t) && t.dueDate.value.date == date && !t.completed
                                then multiset(tasks)[t] else 0
    ensures IsSubsequence(r, tasks)
  {
    var keep := (t: CalendarRow) => HasDueDate(t) && IsSameDay(t.dueDate.value.date, date) && !t.completed;
    FilterIsSubsequence(tasks, keep);
    Filter(tasks, keep)
  }

  /** The page's conversion of a fetched row: a due timestamp of 0 becomes `null`. */
  function LoadedRow(t: CalendarRow): (u: CalendarRow)
    ensures u.dueDate == if t.dueDate == Some(Epoch) then None else t.dueDate
    ensures u.(dueDate := t.dueDate) == t
  {
    if t.dueDate == Some(Epoch) then t.(dueDate := None) else t
  }

  /** The day number cell `index` stands for; at most 0 or past the month's end outside it. */
  function CellDay(index: int, firstWeekday: int): int {
    index - firstWeekday + 1
  }

  predicate InMonth(day: int, daysInMonth: int) {
    0 < day <= daysInMonth
  }

  /** A grid cell: its day number and the number it shows (blank outside the month). */
  datatype Cell = Cell(day: int, number: Option<nat>)

  function MonthGrid(firstWeekday: nat, daysInMonth: nat): (cells: seq<Cell>)
    ensures |cells| == GridCells
    ensures forall i :: 0 <= i < |cells| ==> cells[i].day + firstWeekday == i + 1
    ensures forall i :: 0 <= i < |cells| ==>
              (cells[i].number.Some? <==> 1 <= cells[i].day <= daysInMonth)
              && (cells[i].number.Some? ==> cells[i].number.value == cells[i].day)
  {
    seq(GridCells, i requires 0 <= i < GridCells =>
      var day := CellDay(i, firstWeekday);
      Cell(day, if InMonth(day, daysInMonth) then Some(day as nat) else None))
  }

  /** With at most 6 leading blanks and at most 31 days, every day of the month has exactly one cell. */
  lemma {:induction false} EveryDayInExactlyOneCell(firstWeekday: nat, daysInMonth: nat, d: nat)
    requires firstWeekday <= 6 && daysInMonth <= 31
    requires 1 <= d <= daysInMonth
    ensures var cells := MonthGrid(firstWeekday, daysInMonth);
            var i := d + firstWeekday - 1;
            i < GridCells && cells[i].number == Some(d)
            && forall j :: 0 <= j < GridCells && cells[j].number == Some(d) ==> j == i
  {
  }

  /** The calendar page's state, and its event handlers. */
  class TaskCalendar {
    var selectedDate: Date
    /** The month the grid shows (its day is ignored). */
    var currentMonth: Date
    var tasks: seq<CalendarRow>
    var isLoading: bool
    var showTasks: bool
    var tasksForSelectedDate: seq<CalendarRow>

    ghost predicate Valid()
      reads this
    {
      WellFormed(selectedDate) && WellFormed(currentMonth)
      && forall t :: t in tasksForSelectedDate ==> t.dueDate.Some? && !t.completed
    }

    constructor (today: Date)
      requires WellFormed(today)
      ensures Valid()
      ensures selectedDate == today && currentMonth == today
      ensures tasks == [] && isLoading && !showTasks && tasksForSelectedDate == []
    {
      selectedDate, currentMonth := today, today;
      tasks := [];
      isLoading := true;
      showTasks := false;
      tasksForSelectedDate := [];
    }

    /** The effect's fetch: on success the rows are stored; either way loading ends. */
    method TasksFetched(fetched: Result<seq<CalendarRow>>)
      requires Valid()
      modifies this
      ensures Valid() && !isLoading
      ensures fetched.Ok? ==> |tasks| == |fetched.value|
                              && forall i :: 0 <= i < |tasks| ==> tasks[i] == LoadedRow(fetched.value[i])
      ensures fetched.Err? ==> tasks == old(tasks)
      ensures selectedDate == old(selectedDate) && currentMonth == old(currentMonth)
      ensures showTasks == old(showTasks) && tasksForSelectedDate == old(tasksForSelectedDate)
    {
      isLoading := true;
      match fetched {
        case Ok(rows) =>
          tasks := seq(|rows|, i requires 0 <= i < |rows| => LoadedRow(rows[i]));
        case Err(_) =>
      }
      isLoading := false;
    }

    /** The date picker's `onChange`: a picked date becomes both the selection and the grid's month. */
    method DatePicked(date: Option<Date>)
      requires Valid() && (date.Some? ==> WellFormed(date.value))
      modifies this
      ensures Valid()
      ensures date.None? ==> unchanged(this)
      ensures date.Some? ==> selectedDate == date.value && currentMonth == date.value
      ensures tasks == old(tasks) && isLoading == old(isLoading)
      ensures showTasks == old(showTasks) && tasksForSelectedDate == old(tasksForSelectedDate)
    {
      if date.Some? {
        selectedDate := date.value;
        currentMonth := date.value;
      }
    }

    /** A click on grid cell `index`: an in-month cell selects its date and stores its tasks. */
    method ClickCell(index: nat, firstWeekday: nat, daysInMonth: nat)
      requires Valid()
      requires index < GridCells && firstWeekday <= 6 && 28 <= daysInMonth <= 31
      modifies this
      ensures Valid()
      ensures !InMonth(CellDay(index, firstWeekday), daysInMonth) ==> unchanged(this)
      ensures InMonth(CellDay(index, firstWeekday), daysInMonth) ==>
                && selectedDate == Date(currentMonth.year, currentMonth.month, CellDay(index, firstWeekday) as nat)
                && tasksForSelectedDate == GetTasksForDay(tasks, selectedDate)
                && showTasks == (old(showTasks) || |tasksForSelectedDate| > 0)
      ensures currentMonth == old(currentMonth) && tasks == old(tasks) && isLoading == old(isLoading)
    {
      var day := CellDay(index, firstWeekday);
      if InMonth(day, daysInMonth) {
        var date := Date(currentMonth.year, currentMonth.month, day as nat);
        var tasksForDay := GetTasksForDay(tasks, date);
        selectedDate := date;
        tasksForSelectedDate := tasksForDay;
        if |tasksForDay| > 0 {
          showTasks := true;
        }
      }
    }

    /** `handleCloseTasks`: hides the modal and empties its list. */
    method CloseTasks()
      requires Valid()
      modifies this
      ensures Valid()
      ensures !showTasks && tasksForSelectedDate == []
      ensures selectedDate == old(selectedDate) && currentMonth == old(currentMonth)
      ensures tasks == old(tasks) && isLoading == old(isLoading)
    {
      showTasks := false;
      tasksForSelectedDate := [];
    }

    /** The side panel's list: the selected day's incomplete tasks. */
    function SelectedDayTasks(): (r: seq<CalendarRow>)
      reads this
      ensures IsSubsequence(r, tasks)
      ensures forall t :: t in r <==>
                t in tasks && HasDueDate(t) && t.dueDate.value.date == selectedDate && !t.completed
      ensures forall t {:trigger multiset(r)[t]} ::
                multiset(r)[t] == if HasDueDate(t) && t.dueDate.value.date == selectedDate && !t.completed
                                  then multiset(tasks)[t] else 0
    {
      GetTasksForDay(tasks, selectedDate)
    }
  }
}
