# NodeTaskManager in Dafny

A model of the logic inside a small task/project REST API written for Node.js and Express. The API has two kinds of records. A **Task** is `{id, description, completed}`. A **Project** is `{id, name}`. The model covers two parts of it.

1. **The file-backed record operations.** Every file-backed variant loads a JSON array from disk, changes it and writes the whole array back. Each JSON file is a class with one sequence field: `TaskList.TaskFile` or `ProjectService.ProjectFile`. Loading reads that field and saving assigns it. Each source function becomes a method that takes the file object. JavaScript's `findIndex`, `find` and `splice(index, 1)` are modelled once, generically, in `ArrayOps`:
   - `FindIndex`, `Find` and `SpliceFirst` are the specification functions;
   - `SearchIndex` is the linear-search loop, proved equal to `FindIndex`.

   The in-place changes are `task.completed = true` (`TaskList.MarkedDone`) and `projects[index] = {...old, ...update}` (`ProjectService.Updated`). Three copies of the task logic (the service, the older TypeScript controller and the original JavaScript controller) share these definitions. Their handler methods add the 201/404/500 responses.
2. **The HTTP outcome mapping of the newer controllers.** These controllers are modelled as pure functions. The service's result is abstract: a value, `null`, or a throw of an `Error` with a message or of some other value.
   - The list handlers `GetAllTasksController` and `GetProjectsController` take no request fields; they take the outcome of the service call itself.
   - Every other handler takes the request fields and the service function it calls, and its contract holds for any such function. So when a contract does not mention the service, the handler gives the same response whatever the service would do; this is how "the service is not called" is stated.
   - `CreateTaskController`, `MarkTaskDoneController`, `MarkTaskNotDoneController`, `DeleteTaskController` and `UpdateProjectController` match a thrown message as a string: the handler's known precondition message gives 400, and any other gives 500.
   - `GetAllTasksController`, `GetProjectsController`, `CreateProjectController` and `DeleteProjectController` answer any throw with 500 and a fixed message.

Ids come from `Date.now().toString()` in the source. Here they are parameters (`newId`), and no lemma assumes they are unique unless its `requires` says so (`UniqueKeys`, `Absent`).

Two details of the newer controllers that the model keeps:
- `createTaskController`, `markTaskDoneController`, `markTaskNotDoneController`, `deleteTaskController` and `updateProjectController` send the thrown message itself as the body of a 500 answer.
- The newest task delete handler reads `req.body.id`, has no presence check, and passes a missing id on to the service.

## Model

| member | source | states |
|---|---|---|
| ArrayOps.FindIndex | src/services/projectService.ts:42 | `findIndex`: -1 exactly when no element has the id; otherwise an index whose element has the id and before which none does |
| ArrayOps.Find | src/services/projectService.ts:37 | `find`: nothing exactly when no element has the id; otherwise the element at the first matching index |
| ArrayOps.SearchIndex | src/services/taskService.ts:70 | the search loop returns the first matching index, or -1 when there is none |
| ArrayOps.RemoveAt | src/services/taskService.ts:72 | `splice(i, 1)` leaves one element fewer: the elements before `i` stay put, the ones after shift down by one in the same order, and only `s[i]` is lost from the multiset |
| ArrayOps.SpliceFirst | src/services/taskService.ts:70-74 | `findIndex` then `splice`: nothing removed and the array unchanged exactly when no element has the id; otherwise the removed element is the first match and the remainder is the old array with that index cut out |
| ArrayOps.SpliceFirstTwice | src/services/taskService.ts:68-74 | with unique ids, a second removal of the same id finds nothing and changes nothing, and the ids stay unique |
| TaskList.TaskFile.constructor | src/services/taskService.ts:11-15 | a task file holds the list it was loaded with; a missing file gives the empty list |
| TaskList.MarkedDone | src/services/taskService.ts:61-63 | nothing found and the list unchanged exactly when no task has the id; otherwise only the first match changes, to the same id and description with `completed` true; that task is the result, and length and every other task are unchanged |
| TaskList.MarkedDoneIdempotent | src/services/taskService.ts:59-65 | marking the same id done twice gives the same result and the same list as marking it once |
| TaskList.MarkedDoneKeepsIds | src/services/taskService.ts:61-64 | marking done changes no id: every later lookup finds the same index, and unique ids stay unique |
| TaskService.MarkTaskDone | src/services/taskService.ts:59-66 | `markTaskDone`: returns null and saves nothing when the id is absent; otherwise saves the list with the first match completed and returns that task |
| TaskService.RemoveTask | src/services/taskService.ts:68-75 | `removeTask`: returns null and saves nothing when the id is absent; otherwise saves the list without the first match, order kept, and returns the removed task |
| TaskService.RemoveTaskTwice | src/services/taskService.ts:68-75 | with unique ids and the id present, the first removal returns that task and the second returns null; the file ends one shorter and without the id |
| TaskFileController.GetAllTasks | src/taskController.ts:18-20 | responds 200 with the stored list as it is |
| TaskFileController.CreateTask | src/taskController.ts:22-32 | appends exactly one task, with the supplied id, the request's description and `completed` false, after the unchanged earlier tasks; responds 201 with that task |
| TaskFileController.MarkTaskDone | src/taskController.ts:34-48 | absent id: 404 `Task not found`, nothing written; present id: the first match completed, saved, and sent with 200; a failed load or save: 500 `Failed to update task` with the file unchanged |
| TaskFileController.DeleteTask | src/taskController.ts:50-64 | absent id: 404 `Task not found`, file unchanged; present id: the first match spliced out, the rest saved in order, the removed task sent with 200; a failed load or save: 500 `Failed to delete task` with the file unchanged |
| TaskFileController.DeleteTaskTwice | src/taskController.ts:50-64 | with unique ids, deleting a present task twice answers 200 with that task and then 404 |
| TasksApiController.GetAllTasks | tasks-api/taskController.js:15-18 | responds 200 with the stored list as it is |
| TasksApiController.CreateTask | tasks-api/taskController.js:20-30 | appends exactly one task with `completed` false at the end and responds 201 with it |
| TasksApiController.MarkTaskDone | tasks-api/taskController.js:32-39 | absent id: 404 `Tarea no encontrada` without saving; present id: the first match completed, saved, and sent with 200 |
| TasksApiController.DeleteTask | tasks-api/taskController.js:41-48 | absent id: 404 `Tarea no encontrada`, file unchanged; otherwise exactly the element at the first matching index is spliced out, the rest saved in order, and that element sent with 200 |
| ProjectService.ProjectFile.constructor | src/services/projectService.ts:9-13 | a project file holds the list it was loaded with; a missing file gives the empty list |
| ProjectService.Merge | src/services/projectService.ts:44 | the spread `{...stored, ...update}`: the id is the update's, the name is the update's when it carries one and the stored name otherwise |
| ProjectService.Updated | src/services/projectService.ts:42-46 | nothing stored and the list unchanged exactly when no project has the id; otherwise only the first match is replaced by its merge with the update, keeping its id; that record is the result, and length and every other record are unchanged |
| ProjectService.GetProjects | src/services/projectService.ts:20-22 | returns the stored list as it is |
| ProjectService.AddProject | src/services/projectService.ts:24-33 | appends exactly one project with the given name and supplied id after the unchanged earlier ones, and returns that very record |
| ProjectService.GetProjectById | src/services/projectService.ts:35-38 | returns the first project with the id, or null exactly when none has it |
| ProjectService.UpdateProject | src/services/projectService.ts:40-47 | absent id: null and nothing saved; otherwise the first match replaced by the merge, saved, and returned |
| ProjectService.DeleteProject | src/services/projectService.ts:49-56 | absent id: null and nothing saved; otherwise the first match spliced out, order kept, saved, and returned |
| ProjectService.ProjectLifecycle | src/services/projectService.ts:24-56 | under an id no stored project has: once added, the project is found; updating with its id renames exactly that record; deleting it returns the renamed record, restores the list from before the add, and the id is no longer found |
| ProjectService.UpdatedKeepsIds | src/services/projectService.ts:42-46 | an update changes no id: every later lookup finds the same index |
| Http.Truthy | src/controllers/taskController.ts:55 | a request field passes the `!field` test exactly when it is present and non-empty; a missing field and the empty string both fail |
| Http.MessageOf | src/controllers/taskController.ts:62 | an `Error` gives its own message; any other thrown value gives `Database operation failed` |
| Http.ThrownResponse | src/controllers/taskController.ts:62-66 | the body is the message; the status is 400 exactly when the message equals the handler's known message, and 500 exactly when it does not |
| TaskController.GetAllTasksController | src/controllers/taskController.ts:16-23 | 500 `Failed to load tasks` exactly when the service throws; 200 with the returned list, or 200 with `null` when the service gives back nothing |
| TaskController.CreateTaskController | src/controllers/taskController.ts:52-68 | a missing or empty description or project id: 400 `Description and idProject are required`, whatever the service would do; otherwise 201 exactly when the service does not throw, with the task it returns; a throw answers exactly `Http.ThrownResponse` of it: its message, with 400 exactly for `Project id does not exist` and 500 exactly for any other message, so a non-`Error` throw gives 500 `Database operation failed` |
| TaskController.StatusChangeResponse | src/controllers/taskController.ts:96-111 | missing or empty id: 400 `Task ID is required`; otherwise 200 exactly when a task comes back, with that task; 404 `Task not found` exactly when null comes back; a throw answers exactly `Http.ThrownResponse` of it: its message, with 400 exactly for `Task id does not exist` and 500 exactly for any other message, so a non-`Error` throw gives 500 `Database operation failed` |
| TaskController.MarkTaskDoneController | src/controllers/taskController.ts:94-112 | the response above, computed from what `markTaskDone` returns for the id |
| TaskController.MarkTaskNotDoneController | src/controllers/taskController.ts:138-156 | the response above, computed from what `markTaskNotDone` returns for the id |
| TaskController.DeleteTaskController | src/controllers/taskController.ts:182-196 | no presence check, so the id goes to the service as it came; 200 exactly when a record comes back, with it; 404 `Task not found` exactly when null does; a throw answers exactly `Http.ThrownResponse` of it: its message, 400 exactly for `Task id does not exist`, 500 exactly for any other message |
| ProjectController.GetProjectsController | src/controllers/projectController.ts:31-38 | 500 `Failed to load projects` exactly when the service throws; 200 with the returned list, or 200 with `null` when the service gives back nothing |
| ProjectController.CreateProjectController | src/controllers/projectController.ts:62-74 | a missing or empty name: 400 `Project name is required`, whatever the service would do; otherwise 201 exactly when the service does not throw, with the record it returns or with `null` when it returns nothing; any throw gives 500 `Failed to create project` |
| ProjectController.UpdateProjectController | src/controllers/projectController.ts:106-126 | a missing or empty id or name: 400 `Project ID and name are required` before any call; otherwise 200 exactly when a record comes back; 404 `Project not found` exactly when null does; a throw answers exactly `Http.ThrownResponse` of it: its message, 400 exactly for `Project id does not exist`, 500 exactly for any other message |
| ProjectController.DeleteProjectController | src/controllers/projectController.ts:149-165 | a missing or empty id: 400 `Project ID is required` before any call; otherwise 200 exactly when a record comes back, 404 `Project not found` exactly when null does, and 500 `Failed to delete project` exactly when the service throws |

Every controller function also ensures `Http.WellFormed`: a response has an `{ error }` body exactly when its status is 400 or above.

## Left out

- Reading and writing the JSON files (`loadTasks`/`saveTasks`, `loadProjects`/`saveProjects`, `fs.existsSync`, `JSON.parse`, `JSON.stringify`): the file's contents are the sequence field, and saving assigns it.
- The service methods (`ProjectService`, `TaskService`) are modelled for successful I/O only. A failed load or save there throws to the newer controllers, and that case is covered by their `Threw` outcome.
- In `TaskFileController`, the `IoFault` parameter of `MarkTaskDone` and `DeleteTask` models a failed load or save, which those handlers catch.
- The older handlers without a try/catch pass an I/O failure on to Express's default error handler, which is not part of this model. These are `getAllTasks` and `createTask` in `src/taskController.ts`, and all four handlers in `tasks-api/taskController.js`.
- A write that fails halfway through the file is not modelled. A failed save leaves the file as it was.
- The Prisma-backed `getTasks` and `createTask` in `src/services/taskService.ts` are calls into an external database; the database's ordering and its generated fields are not modelled.
- Id and timestamp generation (`Date.now()`, `new Date()`): ids are parameters and may repeat.
- Overlapping requests interleaving their load/modify/save steps (a lost update): the model is sequential.
- Routing, middleware, the listener and API-doc generation (`src/server.ts`, `tasks-api/server.js`, `src/swagger.ts`, `src/custom.d.ts`). The fallback handler for malformed JSON is not part of this model. Neither is the fact that `src/server.ts` imports names the controllers do not export.
- The newer controllers are not composed with the services shown. Those services do not throw `Project id does not exist` or `Task id does not exist`. They also lack `markTaskNotDone` and `deleteTask`, and their `createTask` and `updateProject` take other arguments than the controllers pass. Each controller is therefore stated for any service function.
- `ProjectController.DeleteProjectController` relies on `deleteProject` being synchronous, as the shown service is: the source calls it without `await`. With an asynchronous service the handler would get a pending promise, which is never null. The 404 branch would then never be taken, and a rejection would escape the `catch`. The model does not cover that case.
- A service result of `undefined` is not modelled: `ReturnedNull` stands for `null`. The null checks (`!task`, `!project`) treat `undefined` like `null`. But the list and create handlers would send an empty body for `undefined` where the model sends `null`.
- The record types of the newer controllers (`../models/task`, `../models/project`) are not part of this model, so those controllers are generic in the entity type.
- Request fields are modelled as strings that may be missing. JavaScript's `!field` test on a non-string JSON value (a number, `false`, an object) is not modelled.
- `TasksApiController.CreateTask`, `TaskFileController.CreateTask`: a missing `description` in the request body, which JavaScript would store as an absent field, is modelled as a given string.
- Stored records and update payloads carrying fields beyond `{id, description, completed}` or `{id, name}` are not modelled. Neither are the `idProject` and `createdAt` task fields of the database variant.
- `find` returns a reference into the loaded array, and the source sets `completed` through it. The model writes the changed record back at the matching index, which has the same effect on the saved list.
- `ProjectService.UpdateProject`: the TypeScript signature requires a full `Project`. The model also lets the update leave out `name`, in which case the spread keeps the stored name.
