/**
 * find_project_id: the linear search for the configured project in the
 * project list of the GNS3 server.
 */
module Projects {
  import opened Wrappers

  datatype Project = Project(projectId: string, name: string)

  /** How find_project_id ends. */
  datatype Lookup =
    | Found(id: string)
      // the first project with the name has a non-empty id, which is returned
    | UnknownProject
      // the first project with the name has an empty (false) id: "Error: Unknown project." and quit()
    | Unbound
      // no project has the name: `project_id` was never assigned and reading it raises an exception

  /** The position of the first project with the given name. */
  function FirstNamed(projects: seq<Project>, name: string): (r: Option<nat>)
    ensures r.None? <==> forall j | 0 <= j < |projects| :: projects[j].name != name
    ensures r.Some? ==> r.value < |projects| && projects[r.value].name == name
    ensures r.Some? ==> forall j | 0 <= j < r.value :: projects[j].name != name
  {
    if projects == [] then None
    else if projects[0].name == name then Some(0)
    else
      match FirstNamed(projects[1..], name)
      case None => None
      case Some(i) => Some(i + 1)
  }

  /** The outcome of find_project_id, as a function of its inputs. */
  function ProjectLookup(projects: seq<Project>, name: string): Lookup {
    match FirstNamed(projects, name)
    case None => Unbound
    case Some(i) => if projects[i].projectId != "" then Found(projects[i].projectId) else UnknownProject
  }

  /** find_project_id: the for-loop stops at the first match; the truth test follows the loop. */
  method FindProjectId(projectsJson: seq<Project>, gns3ProjectName: string) returns (r: Lookup)
    ensures r == ProjectLookup(projectsJson, gns3ProjectName)
  {
    var projectId: Option<string> := None;  // None while the name `project_id` is unbound
    var i := 0;
    while i < |projectsJson|
      invariant 0 <= i <= |projectsJson| && projectId == None
      invariant forall j | 0 <= j < i :: projectsJson[j].name != gns3ProjectName
    {
      if projectsJson[i].name == gns3ProjectName {
        projectId := Some(projectsJson[i].projectId);
        break;
      }
      i := i + 1;
    }
    match projectId
    case None =>
      r := Unbound;
    case Some(id) =>
      assert FirstNamed(projectsJson, gns3ProjectName) == Some(i);
      if id != "" {
        r := Found(id);
      } else {
        r := UnknownProject;
      }
  }

  /** The first project carrying the name decides the outcome; later ones are never looked at. */
  lemma ProjectLookupFirstMatch(projects: seq<Project>, name: string, i: nat)
    requires i < |projects| && projects[i].name == name
    requires forall j | 0 <= j < i :: projects[j].name != name
    ensures ProjectLookup(projects, name)
            == if projects[i].projectId != "" then Found(projects[i].projectId) else UnknownProject
  {
  }

  /** Without a project of that name the lookup does not report "Unknown project": it fails on the unbound name. */
  lemma ProjectLookupNoMatch(projects: seq<Project>, name: string)
    requires forall j | 0 <= j < |projects| :: projects[j].name != name
    ensures ProjectLookup(projects, name) == Unbound
  {
  }
}
