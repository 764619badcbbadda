/**
 * The validation rules both task dialogs share (their zod `formSchema`s
 * agree field by field apart from the add dialog's free `project`), and the
 * conversion of the due-date text into the value submitted to the server.
 * JavaScript's `Date.parse` / `new Date(text)` is the parameter `parse`,
 * which yields `None` where `Date.parse` yields `NaN`.
 */
module TaskForm {
  import opened Wrappers
  import opened Text
  import opened Dates

  const MaxTitleLength: nat := 255
  const MaxDescriptionLength: nat := 9999

  /** The values the form hands to `onSubmit`; `None` is an absent field. */
  datatype FormValues = FormValues(
    title: string,
    description: Option<string>,
    completed: Option<bool>,
    dueDate: Option<string>)

  /**
   * `z.string().min(1).max(255)`. zod measures `.length`, which counts UTF-16
   * code units, so a character outside the Basic Multilingual Plane counts twice.
   */
  predicate TitleOk(title: string): (ok: bool)
    ensures ok ==> 1 <= |title| <= MaxTitleLength
    ensures 1 <= |title| <= MaxTitleLength / 2 ==> ok
    ensures (forall i :: 0 <= i < |title| ==> title[i] as int < 0x1_0000) ==>
              (ok <==> 1 <= |title| <= MaxTitleLength)
  {
    1 <= Utf16Length(title) <= MaxTitleLength
  }

  /** `z.string().max(9999).optional()`, measured in UTF-16 code units like the title. */
  predicate DescriptionOk(description: Option<string>): (ok: bool)
    ensures ok ==> description.None? || |description.value| <= MaxDescriptionLength
    ensures description.None? || |description.value| <= MaxDescriptionLength / 2 ==> ok
    ensures description.Some? && (forall i :: 0 <= i < |description.value| ==> description.value[i] as int < 0x1_0000) ==>
              (ok <==> |description.value| <= MaxDescriptionLength)
  {
    description.None? || Utf16Length(description.value) <= MaxDescriptionLength
  }

  /** `z.string().optional().refine(value => !value || !isNaN(Date.parse(value)))` */
  predicate DueDateOk(dueDate: Option<string>, parse: string -> Option<DateTime>): (ok: bool)
    ensures dueDate.None? || dueDate == Some("") ==> ok
    ensures dueDate.Some? && dueDate.value != "" ==> (ok <==> parse(dueDate.value).Some?)
  {
    dueDate.None? || dueDate.value == "" || parse(dueDate.value).Some?
  }

  /**
   * The whole schema: an accepted form has a title of 1..255 characters, a
   * description of at most 9999 characters and a due date that is absent,
   * empty or parses.
   */
  predicate SchemaAccepts(v: FormValues, parse: string -> Option<DateTime>): (ok: bool)
    ensures ok ==> 1 <= |v.title| <= MaxTitleLength
    ensures ok ==> v.description.None? || |v.description.value| <= MaxDescriptionLength
    ensures ok && v.dueDate.Some? && v.dueDate.value != "" ==> parse(v.dueDate.value).Some?
  {
    TitleOk(v.title) && DescriptionOk(v.description) && DueDateOk(v.dueDate, parse)
  }

  /**
   * The title limits at their boundaries. For a character of the Basic
   * Multilingual Plane, 255 copies pass and 256 fail; for any other
   * character, which JavaScript counts twice, 127 copies pass and 128 fail.
   */
  lemma {:induction false} TitleLimits(c: char)
    ensures !TitleOk("") && TitleOk([c])
    ensures c as int < 0x1_0000 ==> TitleOk(seq(255, _ => c)) && !TitleOk(seq(256, _ => c))
    ensures c as int >= 0x1_0000 ==> TitleOk(seq(127, _ => c)) && !TitleOk(seq(128, _ => c))
  {
    UniformUtf16Length(c, 255);
    UniformUtf16Length(c, 256);
    UniformUtf16Length(c, 127);
    UniformUtf16Length(c, 128);
  }

  /** `values.dueDate ? new Date(values.dueDate) : null` on validated values. */
  function SubmittedDueDate(dueDate: Option<string>, parse: string -> Option<DateTime>): (d: Option<DateTime>)
    requires DueDateOk(dueDate, parse)
    ensures d.None? <==> dueDate.None? || dueDate.value == ""
    ensures d.Some? ==> parse(dueDate.value) == d
  {
    if dueDate.None? || dueDate.value == "" then None else parse(dueDate.value)
  }
}
