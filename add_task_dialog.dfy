/**
 * The "Create task" dialog: its initial values, the project suggestion
 * list, the choice of project on submit, and the state its handlers change
 * (`open`, `projects`, `newProject`, `showProjectList` and the form's
 * `project` field).
 */
module AddTaskForm {
  import opened Wrappers
  import opened Text
  import opened Seqs
  import opened Dates
  import opened TaskActions
  import opened TaskForm

  /** `defaultValues`: an empty title and an empty description. */
  const InitialValues: FormValues := FormValues("", Some(""), None, None)

  /** The form as it opens cannot be submitted: the empty title fails `min(1)`. */
  lemma {:induction false} InitialValuesRejected(parse: string -> Option<DateTime>)
    ensures !SchemaAccepts(InitialValues, parse)
    ensures SchemaAccepts(InitialValues.(title := "Task"), parse)
  {
  }

  /** `newProject || values.project` */
  function ChooseProject(newProject: string, formProject: Option<string>): (p: Option<string>)
    ensures newProject != "" ==> p == Some(newProject)
    ensures newProject == "" ==> p == formProject
  {
    if newProject != "" then Some(newProject) else formProject
  }

  /** The `addTask` argument built by `onSubmit` from validated values. */
  function SubmitPayload(values: FormValues, newProject: string, formProject: Option<string>,
                         parse: string -> Option<DateTime>): (t: NewTask)
    requires SchemaAccepts(values, parse)
    ensures t.title == values.title && t.description == values.description
    ensures t.completed == values.completed
    ensures t.dueDate == SubmittedDueDate(values.dueDate, parse)
    ensures t.dueDate.None? <==> values.dueDate.None? || values.dueDate.value == ""
    ensures t.project == ChooseProject(newProject, formProject)
  {
    NewTask(values.title, values.description, SubmittedDueDate(values.dueDate, parse),
            values.completed, ChooseProject(newProject, formProject))
  }

  /** A project matches the query when its lower-cased text includes the lower-cased query. */
  predicate Matches(project: string, query: string) {
    Contains(ToLower(project), ToLower(query))
  }

  /** The suggestion list: the loaded projects that match the query, in their loaded order. */
  function Suggestions(projects: seq<string>, query: string): (r: seq<string>)
    ensures IsSubsequence(r, projects)
    ensures forall p :: p in r <==> p in projects && Matches(p, query)
    ensures forall p {:trigger multiset(r)[p]} ::
              multiset(r)[p] == if Matches(p, query) then multiset(projects)[p] else 0
  {
    if projects == [] then []
    else
      var rest := Suggestions(projects[1..], query);
      assert projects == [projects[0]] + projects[1..];
      if Matches(projects[0], query) then
        assert ([projects[0]] + rest)[1..] == rest;
        [projects[0]] + rest
      else
        assert rest != [] ==> rest[0] in rest;
        rest
  }

  /** An empty query suggests every project, in order. */
  lemma {:induction false} EmptyQuerySuggestsAll(projects: seq<string>)
    ensures Suggestions(projects, "") == projects
  {
    if projects != [] {
      ContainsEmpty(ToLower(projects[0]));
      EmptyQuerySuggestsAll(projects[1..]);
    }
  }

  /** The query's case does not matter. */
  lemma {:induction false} SuggestionsIgnoreQueryCase(projects: seq<string>, query: string)
    ensures Suggestions(projects, ToLower(query)) == Suggestions(projects, query)
  {
    if projects != [] {
      ToLowerIdempotent(query);
      SuggestionsIgnoreQueryCase(projects[1..], query);
    }
  }

  /** The state of one add-task dialog. */
  class AddTaskDialog {
    var open: bool
    var projects: seq<string>
    /** The text of the project input. */
    var newProject: string
    var showProjectList: bool
    /** The form's `project` field (`undefined` until set). */
    var formProject: Option<string>

    /** The form's project, once set, is the input's text. */
    ghost predicate Valid()
      reads this
    {
      formProject.Some? ==> formProject.value == newProject
    }

    constructor ()
      ensures Valid() && !open && projects == [] && newProject == ""
      ensures !showProjectList && formProject == None
    {
      open := false;
      projects := [];
      newProject := "";
      showProjectList := false;
      formProject := None;
    }

    /** The list under the input, empty while it is hidden. */
    function VisibleSuggestions(): (r: seq<string>)
      reads this
      ensures showProjectList && |projects| > 0 ==> r == Suggestions(projects, newProject)
      ensures !showProjectList || projects == [] ==> r == []
    {
      if showProjectList && |projects| > 0 then Suggestions(projects, newProject) else []
    }

    /** "Scroll for more..." appears under a visible list of more than 3 matches. */
    function ScrollHintShown(): (shown: bool)
      reads this
      ensures shown <==> |VisibleSuggestions()| > 3
    {
      showProjectList && |projects| > 0 && |Suggestions(projects, newProject)| > 3
    }

    /** `onOpenChange` of the dialog. */
    method SetOpen(o: bool)
      requires Valid()
      modifies this`open
      ensures Valid() && open == o
    {
      open := o;
    }

    /** The effect's `getProjects` call: on success the labels are stored. */
    method ProjectsFetched(fetched: Result<seq<string>>)
      requires Valid()
      modifies this`projects
      ensures Valid()
      ensures projects == if fetched.Ok? then fetched.value else old(projects)
    {
      if fetched.Ok? {
        projects := fetched.value;
      }
    }

    method FocusProjectInput()
      requires Valid()
      modifies this`showProjectList
      ensures Valid() && showProjectList
    {
      showProjectList := true;
    }

    /** Typing in the project input sets both the input text and the form's project. */
    method TypeProjectName(text: string)
      requires Valid()
      modifies this`newProject, this`formProject
      ensures Valid() && newProject == text && formProject == Some(text)
    {
      newProject := text;
      formProject := Some(text);
    }

    /** Picking a suggestion sets the input text and the form's project to it and hides the list. */
    method PickSuggestion(project: string)
      requires Valid() && project in VisibleSuggestions()
      modifies this`newProject, this`formProject, this`showProjectList
      ensures Valid() && project in projects
      ensures newProject == project && formProject == Some(project) && !showProjectList
    {
      newProject := project;
      formProject := Some(project);
      showProjectList := false;
    }

    /**
     * `onSubmit` on validated values: builds the `addTask` argument; when the
     * server call succeeds (`saved`) the dialog closes and the form is reset,
     * which clears the form's project but not the input text.
     */
    method Submit(values: FormValues, parse: string -> Option<DateTime>, saved: bool) returns (payload: NewTask)
      requires Valid() && SchemaAccepts(values, parse)
      modifies this`open, this`formProject
      ensures Valid()
      ensures payload == SubmitPayload(values, old(newProject), old(formProject), parse)
      ensures payload.project == None || payload.project == Some(newProject)
      ensures saved ==> !open && formProject == None
      ensures !saved ==> open == old(open) && formProject == old(formProject)
    {
      payload := SubmitPayload(values, newProject, formProject, parse);
      if saved {
        open := false;
        formProject := None;
      }
    }
  }
}
