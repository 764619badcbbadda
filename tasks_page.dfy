/** The "Tasks for today" page: the caller's tasks due on the current UTC day. */
module TasksPage {
  import opened Wrappers
  import opened Seqs
  import opened Dates
  import opened TaskActions

  /** `tasksForToday`: tasks whose due date's ISO day key equals that of `now`. */
  function TasksForToday(tasks: seq<Task>, now: DateTime): (r: seq<Task>)
    ensures IsSubsequence(r, tasks)
    ensures forall t :: t in r ==> t.dueDate.Some?
    ensures forall t :: t in r <==>
              t in tasks && t.dueDate.Some? && IsoDate(t.dueDate.value.date) == IsoDate(now.date)
    ensures forall t {:trigger multiset(r)[t]} ::
              multiset(r)[t] == if t.dueDate.Some? && IsoDate(t.dueDate.value.date) == IsoDate(now.date)
                                then multiset(tasks)[t] else 0
  {
    var today := IsoDayKey(now);
    var dueToday := (t: Task) => t.dueDate.Some? && IsoDayKey(t.dueDate.value) == today;
    FilterIsSubsequence(tasks, dueToday);
    Filter(tasks, dueToday)
  }

  /** For dates in the four-digit year range, a task is kept exactly when it is due on today's date. */
  lemma {:induction false} KeptExactlyWhenDueToday(tasks: seq<Task>, now: DateTime, t: Task)
    requires t in tasks
    requires WellFormed(now.date) && FourDigitYear(now.date)
    requires t.dueDate.Some? ==> WellFormed(t.dueDate.value.date) && FourDigitYear(t.dueDate.value.date)
    ensures t in TasksForToday(tasks, now) <==> t.dueDate.Some? && t.dueDate.value.date == now.date
  {
    if t.dueDate.Some? {
      IsoDateInjective(t.dueDate.value.date, now.date);
    }
  }

  /** A task without a due date is never listed, whatever its other fields. */
  lemma {:induction false} NoDueDateNeverKept(tasks: seq<Task>, now: DateTime, t: Task)
    requires t.dueDate.None?
    ensures t !in TasksForToday(tasks, now)
  {
  }
}
