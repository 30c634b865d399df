/**
 * The project handlers: presence checks on the request, a null check on the
 * service's answer and, for update only, the thrown message selecting 400 or
 * 500; the other handlers answer any throw with a fixed 500 message. Each
 * handler receives the service function it calls as a parameter.
 */
module ProjectController {
  import opened Wrappers
  import opened Http

  const LoadFailed := "Failed to load projects"
  const MissingName := "Project name is required"
  const CreateFailed := "Failed to create project"
  const MissingIdOrName := "Project ID and name are required"
  const NotFound := "Project not found"
  const UnknownProject := "Project id does not exist"
  const MissingId := "Project ID is required"
  const DeleteFailed := "Failed to delete project"

  /** `getProjectsController`: the list on success, 500 with a fixed message on any throw. */
  function GetProjectsController<P>(getProjects: ServiceOutcome<seq<P>>): (resp: Response<P>)
    ensures WellFormed(resp)
    ensures resp.status == 500 <==> getProjects.Threw?
    ensures getProjects.Threw? ==> resp.body == Error(LoadFailed)
    ensures getProjects.Returned? ==> resp == Response(200, Entities(getProjects.value))
    ensures getProjects.ReturnedNull? ==> resp == Response(200, Null)
  {
    match getProjects
    case Returned(projects) => Response(200, Entities(projects))
    case ReturnedNull => Response(200, Null)
    case Threw(_) => Response(500, Error(LoadFailed))
  }

  /**
   * `createProjectController`: 400 before any service call when the name is
   * missing or empty; otherwise 201 with what the service returns, and 500
   * with a fixed message whatever it throws.
   */
  function CreateProjectController<P>(name: Option<string>, addProject: string -> ServiceOutcome<P>): (resp: Response<P>)
    ensures WellFormed(resp)
    ensures !Truthy(name) ==> resp == Response(400, Error(MissingName))
    ensures Truthy(name) ==>
              var outcome := addProject(name.value);
              && (resp.status == 201 <==> !outcome.Threw?)
              && (outcome.Returned? ==> resp.body == Entity(outcome.value))
              && (outcome.ReturnedNull? ==> resp.body == Null)
              && (outcome.Threw? ==> resp == Response(500, Error(CreateFailed)))
  {
    if !Truthy(name) then
      Response(400, Error(MissingName))
    else
      match addProject(name.value)
      case Returned(project) => Response(201, Entity(project))
      case ReturnedNull => Response(201, Null)
      case Threw(_) => Response(500, Error(CreateFailed))
  }

  /**
   * `updateProjectController`: 400 before any service call unless both the id
   * and the name are present and non-empty; then 404 when nothing is returned,
   * 200 with the record, and the thrown message with 400 for an unknown project
   * and 500 otherwise.
   */
  function UpdateProjectController<P>(id: Option<string>, name: Option<string>,
                                      updateProject: (string, string) -> ServiceOutcome<P>): (resp: Response<P>)
    ensures WellFormed(resp)
    ensures !(Truthy(id) && Truthy(name)) ==> resp == Response(400, Error(MissingIdOrName))
    ensures Truthy(id) && Truthy(name) ==>
              var outcome := updateProject(id.value, name.value);
              && (resp.status == 200 <==> outcome.Returned?)
              && (outcome.Returned? ==> resp.body == Entity(outcome.value))
              && (resp == Response(404, Error(NotFound)) <==> outcome.ReturnedNull?)
              && (outcome.Threw? ==> resp == ThrownResponse(outcome.thrown, UnknownProject))
              && (resp.status == 400 <==> outcome.Threw? && MessageOf(outcome.thrown) == UnknownProject)
              && (resp.status == 500 <==> outcome.Threw? && MessageOf(outcome.thrown) != UnknownProject)
              && (outcome == Threw(NonError) ==> resp == Response(500, Error(DatabaseFailed)))
  {
    if !Truthy(id) || !Truthy(name) then
      Response(400, Error(MissingIdOrName))
    else
      match updateProject(id.value, name.value)
      case Returned(project) => Response(200, Entity(project))
      case ReturnedNull => Response(404, Error(NotFound))
      case Threw(e) => ThrownResponse(e, UnknownProject)
  }

  /**
   * `deleteProjectController`: 400 before any service call when the id is
   * missing or empty; then 404 when nothing is returned, 200 with the record,
   * and 500 with a fixed message whatever the service throws.
   */
  function DeleteProjectController<P>(id: Option<string>, deleteProject: string -> ServiceOutcome<P>): (resp: Response<P>)
    ensures WellFormed(resp)
    ensures !Truthy(id) ==> resp == Response(400, Error(MissingId))
    ensures Truthy(id) ==>
              var outcome := deleteProject(id.value);
              && (resp.status == 200 <==> outcome.Returned?)
              && (outcome.Returned? ==> resp.body == Entity(outcome.value))
              && (resp == Response(404, Error(NotFound)) <==> outcome.ReturnedNull?)
              && (resp == Response(500, Error(DeleteFailed)) <==> outcome.Threw?)
  {
    if !Truthy(id) then
      Response(400, Error(MissingId))
    else
      match deleteProject(id.value)
      case Returned(project) => Response(200, Entity(project))
      case ReturnedNull => Response(404, Error(NotFound))
      case Threw(_) => Response(500, Error(DeleteFailed))
  }
}
