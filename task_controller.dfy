/**
 * The newest task handlers: each maps the awaited service call's outcome to a
 * status and a body. The create and the two status handlers first check that
 * the request carries its fields; the delete handler checks nothing, and the
 * list handler reads no request field. In the create, status and delete
 * handlers a thrown message equal to the handler's known precondition message
 * answers 400 and any other 500; the list handler answers any throw with a
 * fixed 500 message. The list handler receives the outcome itself; the others
 * receive the service function they call and are stated for any such function,
 * since the service they name is not modelled.
 */
module TaskController {
  import opened Wrappers
  import opened Http

  const MissingFields := "Description and idProject are required"
  const MissingId := "Task ID is required"
  const NotFound := "Task not found"
  const LoadFailed := "Failed to load tasks"
  const UnknownProject := "Project id does not exist"
  const UnknownTask := "Task id does not exist"

  /** The body of a create request; either field may be missing. */
  datatype CreateTaskBody = CreateTaskBody(description: Option<string>, idProject: Option<string>)

  /** `getAllTasksController`: the list on success, 500 with a fixed message on any throw. */
  function GetAllTasksController<E>(getTasks: ServiceOutcome<seq<E>>): (resp: Response<E>)
    ensures WellFormed(resp)
    ensures resp.status == 500 <==> getTasks.Threw?
    ensures getTasks.Threw? ==> resp.body == Error(LoadFailed)
    ensures getTasks.Returned? ==> resp == Response(200, Entities(getTasks.value))
    ensures getTasks.ReturnedNull? ==> resp == Response(200, Null)
  {
    match getTasks
    case Returned(tasks) => Response(200, Entities(tasks))
    case ReturnedNull => Response(200, Null)
    case Threw(_) => Response(500, Error(LoadFailed))
  }

  /**
   * `createTaskController`: 400 before any service call unless both fields are
   * present and non-empty; then 201 with whatever the service returns, or the
   * thrown message with 400 for an unknown project and 500 otherwise.
   */
  function CreateTaskController<E>(body: CreateTaskBody, createTask: (string, string) -> ServiceOutcome<E>): (resp: Response<E>)
    ensures WellFormed(resp)
    ensures !(Truthy(body.description) && Truthy(body.idProject)) ==> resp == Response(400, Error(MissingFields))
    ensures Truthy(body.description) && Truthy(body.idProject) ==>
              var outcome := createTask(body.description.value, body.idProject.value);
              && (resp.status == 201 <==> !outcome.Threw?)
              && (outcome.Returned? ==> resp.body == Entity(outcome.value))
              && (outcome.ReturnedNull? ==> resp.body == Null)
              && (outcome.Threw? ==> resp == ThrownResponse(outcome.thrown, UnknownProject))
              && (resp.status == 400 <==> outcome.Threw? && MessageOf(outcome.thrown) == UnknownProject)
              && (resp.status == 500 <==> outcome.Threw? && MessageOf(outcome.thrown) != UnknownProject)
              && (outcome == Threw(NonError) ==> resp == Response(500, Error(DatabaseFailed)))
  {
    if !Truthy(body.description) || !Truthy(body.idProject) then
      Response(400, Error(MissingFields))
    else
      match createTask(body.description.value, body.idProject.value)
      case Returned(task) => Response(201, Entity(task))
      case ReturnedNull => Response(201, Null)
      case Threw(e) => ThrownResponse(e, UnknownProject)
  }

  /**
   * The shape shared by the two status handlers: 400 when the id is missing or
   * empty, 404 when the service gives back nothing, 200 with the task it gives
   * back, and the thrown message with 400 for an unknown task and 500 otherwise.
   */
  function StatusChangeResponse<E>(id: Option<string>, change: string -> ServiceOutcome<E>): (resp: Response<E>)
    ensures WellFormed(resp)
    ensures !Truthy(id) ==> resp == Response(400, Error(MissingId))
    ensures Truthy(id) ==>
              var outcome := change(id.value);
              && (resp.status == 200 <==> outcome.Returned?)
              && (outcome.Returned? ==> resp.body == Entity(outcome.value))
              && (resp == Response(404, Error(NotFound)) <==> outcome.ReturnedNull?)
              && (outcome.Threw? ==> resp == ThrownResponse(outcome.thrown, UnknownTask))
              && (resp.status == 400 <==> outcome.Threw? && MessageOf(outcome.thrown) == UnknownTask)
              && (resp.status == 500 <==> outcome.Threw? && MessageOf(outcome.thrown) != UnknownTask)
              && (outcome == Threw(NonError) ==> resp == Response(500, Error(DatabaseFailed)))
  {
    if !Truthy(id) then
      Response(400, Error(MissingId))
    else
      match change(id.value)
      case Returned(task) => Response(200, Entity(task))
      case ReturnedNull => Response(404, Error(NotFound))
      case Threw(e) => ThrownResponse(e, UnknownTask)
  }

  /** `markTaskDoneController`: the status-change mapping around `markTaskDone`. */
  function MarkTaskDoneController<E>(id: Option<string>, markTaskDone: string -> ServiceOutcome<E>): (resp: Response<E>)
    ensures WellFormed(resp)
    ensures !Truthy(id) ==> resp == Response(400, Error(MissingId))
    ensures Truthy(id) && markTaskDone(id.value).ReturnedNull? ==> resp == Response(404, Error(NotFound))
    ensures Truthy(id) && markTaskDone(id.value).Returned? ==> resp == Response(200, Entity(markTaskDone(id.value).value))
    ensures Truthy(id) && markTaskDone(id.value).Threw? ==>
              resp == ThrownResponse(markTaskDone(id.value).thrown, UnknownTask)
  {
    StatusChangeResponse(id, markTaskDone)
  }

  /** `markTaskNotDoneController`: the status-change mapping around `markTaskNotDone`. */
  function MarkTaskNotDoneController<E>(id: Option<string>, markTaskNotDone: string -> ServiceOutcome<E>): (resp: Response<E>)
    ensures WellFormed(resp)
    ensures !Truthy(id) ==> resp == Response(400, Error(MissingId))
    ensures Truthy(id) && markTaskNotDone(id.value).ReturnedNull? ==> resp == Response(404, Error(NotFound))
    ensures Truthy(id) && markTaskNotDone(id.value).Returned? ==> resp == Response(200, Entity(markTaskNotDone(id.value).value))
    ensures Truthy(id) && markTaskNotDone(id.value).Threw? ==>
              resp == ThrownResponse(markTaskNotDone(id.value).thrown, UnknownTask)
  {
    StatusChangeResponse(id, markTaskNotDone)
  }

  /**
   * `deleteTaskController`: no presence check, so the id is passed on as it
   * came, missing or not; 404 when nothing is returned, 200 with the record,
   * and the thrown message with 400 for an unknown task and 500 otherwise.
   */
  function DeleteTaskController<E>(id: Option<string>, deleteTask: Option<string> -> ServiceOutcome<E>): (resp: Response<E>)
    ensures WellFormed(resp)
    ensures resp.status == 200 <==> deleteTask(id).Returned?
    ensures deleteTask(id).Returned? ==> resp.body == Entity(deleteTask(id).value)
    ensures resp == Response(404, Error(NotFound)) <==> deleteTask(id).ReturnedNull?
    ensures deleteTask(id).Threw? ==> resp == ThrownResponse(deleteTask(id).thrown, UnknownTask)
    ensures resp.status == 400 <==> deleteTask(id).Threw? && MessageOf(deleteTask(id).thrown) == UnknownTask
    ensures resp.status == 500 <==> deleteTask(id).Threw? && MessageOf(deleteTask(id).thrown) != UnknownTask
    ensures deleteTask(id) == Threw(NonError) ==> resp == Response(500, Error(DatabaseFailed))
  {
    match deleteTask(id)
    case Returned(task) => Response(200, Entity(task))
    case ReturnedNull => Response(404, Error(NotFound))
    case Threw(e) => ThrownResponse(e, UnknownTask)
  }
}
