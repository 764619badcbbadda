/**
 * The "edit task" dialog: the form's default values taken from the task,
 * and the `editTask` argument built on submit.
 */
module EditTaskForm {
  import opened Wrappers
  import opened Text
  import opened Dates
  import opened TaskActions
  import opened TaskForm

  /** `defaultValues`: the task's title, description (or `""`), flag, and the day key of its due date. */
  function DefaultValues(t: Task): (v: FormValues)
    ensures v.title == t.title && v.completed == Some(t.completed)
    ensures v.description == Some(t.description.GetOr(""))
    ensures v.dueDate == if t.dueDate.Some? then Some(IsoDate(t.dueDate.value.date)) else None
  {
    FormValues(t.title, Some(t.description.GetOr("")), Some(t.completed),
               if t.dueDate.Some? then Some(IsoDayKey(t.dueDate.value)) else None)
  }

  /** A stored task within the limits opens with values the schema accepts. */
  lemma {:induction false} DefaultsAccepted(t: Task, parse: string -> Option<DateTime>)
    requires TitleOk(t.title) && DescriptionOk(t.description)
    requires t.dueDate.Some? ==> parse(IsoDate(t.dueDate.value.date)).Some?
    ensures SchemaAccepts(DefaultValues(t), parse)
  {
  }

  /** The `editTask` argument `onSubmit` builds from validated values. */
  function SubmitPayload(t: Task, v: FormValues, parse: string -> Option<DateTime>): (e: TaskEdit)
    requires SchemaAccepts(v, parse)
    ensures e.id == t.id && e.project == Keep
    ensures e.title == Set(v.title)
    ensures e.description == if v.description.Some? then Set(v.description.value) else Keep
    ensures e.completed == if v.completed.Some? then Set(v.completed.value) else Keep
    ensures e.dueDate == Set(SubmittedDueDate(v.dueDate, parse))
  {
    TaskEdit(t.id, Set(v.title),
             match v.description case Some(d) => Set(d) case None => Keep,
             Set(SubmittedDueDate(v.dueDate, parse)),
             match v.completed case Some(c) => Set(c) case None => Keep,
             Keep)
  }

  /**
   * Saving the dialog without changing anything keeps the title, flag,
   * project and owner, turns a missing description into `""`, and replaces
   * the due date by what `parse` makes of its `YYYY-MM-DD` day key.
   */
  lemma {:induction false} SubmitDefaultsUnchanged(t: Task, parse: string -> Option<DateTime>, now: DateTime)
    requires SchemaAccepts(DefaultValues(t), parse)
    ensures var u := ApplyEdit(t, SubmitPayload(t, DefaultValues(t), parse), now);
            u == t.(description := Some(t.description.GetOr("")),
                    dueDate := if t.dueDate.Some? then parse(IsoDate(t.dueDate.value.date)) else None,
                    updatedAt := now)
  {
  }
}
