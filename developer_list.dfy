/** The developer directory view: one fetch of all developers when it mounts,
    then a loading indicator, an error message, an empty notice or a table
    with one row per developer. */
module DeveloperList {
  import opened Types
  import opened Text

  const FETCH_ERROR_MESSAGE := "Failed to fetch developers. Please try again later."

  /** One table row, keyed by the developer's `id`. */
  datatype Row = Row(key: string, name: string, email: string, role: string,
                     project: string, active: string, skills: string)

  /** What the view renders. */
  datatype ListScreen = Loading | ErrorMessage(message: string) | NoDevelopers | Table(rows: seq<Row>)

  /** The "Active" badge. */
  function ActiveLabel(active: bool): (badge: string)
    ensures badge == "Yes" <==> active
    ensures badge == "No" <==> !active
  {
    if active then "Yes" else "No"
  }

  /** The "Skills" cell: the skill names in list order, separated by ", ". */
  function SkillsCell(skills: seq<Skill>): (cell: string)
    ensures skills == [] ==> cell == ""
    ensures |skills| == 1 ==> cell == skills[0].name
  {
    Join(SkillNames(skills), ", ")
  }

  /** A skill appended to a developer's list shows at the end of the cell,
      after the earlier names and a separator. */
  lemma SkillsCellAppend(skills: seq<Skill>, skill: Skill)
    requires skills != []
    ensures SkillsCell(skills + [skill]) == SkillsCell(skills) + ", " + skill.name
  {
    assert SkillNames(skills + [skill]) == SkillNames(skills) + [skill.name];
    JoinAppend(SkillNames(skills), [skill.name], ", ");
  }

  /** One developer's row: keyed by `id`, the text fields as stored, the
      badge, and the skills cell. */
  function RowOf(dev: Developer): (row: Row)
    ensures row.key == dev.id
    ensures row.name == dev.name && row.email == dev.email
    ensures row.role == dev.role && row.project == dev.project
    ensures row.active == "Yes" <==> dev.active
    ensures row.skills == SkillsCell(dev.skills)
  {
    Row(dev.id, dev.name, dev.email, dev.role, dev.project, ActiveLabel(dev.active), SkillsCell(dev.skills))
  }

  /** The table body: one row per developer, in the order given. */
  function Rows(devs: seq<Developer>): (rows: seq<Row>)
    ensures |rows| == |devs|
    ensures forall i :: 0 <= i < |devs| ==> rows[i] == RowOf(devs[i])
  {
    seq(|devs|, i requires 0 <= i < |devs| => RowOf(devs[i]))
  }

  class DeveloperListView {
    var developers: seq<Developer>
    var isLoading: bool
    var error: Option<string>

    constructor ()
      ensures developers == [] && isLoading && error == None
    {
      developers := [];
      isLoading := true;
      error := None;
    }

    /** `fetchDevelopers`, given the outcome of `getDevelopers()`. */
    method FetchDevelopers(reply: Reply<seq<Developer>>)
      modifies this
      ensures !isLoading
      ensures reply.Ok? ==> developers == reply.value && error == old(error)
      ensures reply.Failed? ==> developers == old(developers) && error == Some(FETCH_ERROR_MESSAGE)
    {
      if reply.Ok? {
        developers := reply.value;
      } else {
        error := Some(FETCH_ERROR_MESSAGE);
      }
      isLoading := false;
    }

    /** The render precedence: loading, then error, then the empty notice, then
        the table, whose rows follow the fetched order. */
    function Render(): (screen: ListScreen)
      reads this
      ensures screen.Loading? <==> isLoading
      ensures screen.ErrorMessage? <==> !isLoading && error.Some?
      ensures screen.ErrorMessage? ==> screen.message == error.value
      ensures screen.NoDevelopers? <==> !isLoading && error.None? && developers == []
      ensures screen.Table? ==> |screen.rows| == |developers| > 0
      ensures screen.Table? ==> forall i :: 0 <= i < |developers| ==>
        screen.rows[i].key == developers[i].id && screen.rows[i].name == developers[i].name &&
        screen.rows[i].email == developers[i].email && screen.rows[i].role == developers[i].role &&
        screen.rows[i].project == developers[i].project &&
        (screen.rows[i].active == "Yes" <==> developers[i].active) &&
        screen.rows[i].skills == SkillsCell(developers[i].skills)
      ensures screen.Table? ==> screen.rows == Rows(developers)
    {
      if isLoading then Loading
      else if error.Some? then ErrorMessage(error.value)
      else if developers == [] then NoDevelopers
      else Table(Rows(developers))
    }
  }

  /** A listing that fails shows the fetch error, not an empty directory. */
  method FailedFetchScenario() returns (screen: ListScreen)
    ensures screen == ErrorMessage(FETCH_ERROR_MESSAGE)
  {
    var view := new DeveloperListView();
    view.FetchDevelopers(Failed);
    screen := view.Render();
  }
}
