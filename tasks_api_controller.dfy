/**
 * The first Express variant (`tasks-api`): four handlers over its own
 * `tasks.json`, answering 404 with a Spanish message when an id is unknown.
 */
module TasksApiController {
  import opened Records
  import opened ArrayOps
  import opened TaskList
  import opened Http

  const NotFound := "Tarea no encontrada"

  /** `getAllTasks`: responds with the stored list as it is. */
  method GetAllTasks(file: TaskFile) returns (resp: Response<Task>)
    ensures resp == Response(200, Entities(file.tasks))
  {
    var tasks := file.tasks;
    resp := Response(200, Entities(tasks));
  }

  /**
   * `createTask`: appends one not-completed task with the request's description
   * and the generated id, saves, and responds 201 with that task.
   */
  method CreateTask(file: TaskFile, description: string, newId: string) returns (resp: Response<Task>)
    modifies file
    ensures file.tasks == old(file.tasks) + [Task(newId, description, false)]
    ensures resp == Response(201, Entity(Task(newId, description, false)))
  {
    var tasks := file.tasks;
    var newTask := Task(newId, description, false);
    tasks := tasks + [newTask];
    file.tasks := tasks;
    resp := Response(201, Entity(newTask));
  }

  /**
   * `markTaskDone`: 404 without saving when no task has the id; otherwise the
   * first match is completed, saved, and sent back.
   */
  method MarkTaskDone(file: TaskFile, id: string) returns (resp: Response<Task>)
    modifies file
    ensures var (found, after) := MarkedDone(old(file.tasks), id);
            && file.tasks == after
            && resp == if found.None? then Response(404, Error(NotFound)) else Response(200, Entity(found.value))
  {
    var tasks := file.tasks;
    var i := SearchIndex(tasks, TaskId, id);
    if i == -1 {
      return Response(404, Error(NotFound));
    }
    var task := tasks[i].(completed := true);
    tasks := tasks[i := task];
    file.tasks := tasks;
    resp := Response(200, Entity(task));
  }

  /**
   * `deleteTask`: 404 without saving when no task has the id; otherwise the
   * element at the first matching index is spliced out, the rest saved in order,
   * and the removed task sent back.
   */
  method DeleteTask(file: TaskFile, id: string) returns (resp: Response<Task>)
    modifies file
    ensures var (deleted, after) := SpliceFirst(old(file.tasks), TaskId, id);
            && file.tasks == after
            && resp == if deleted.None? then Response(404, Error(NotFound)) else Response(200, Entity(deleted.value))
  {
    var tasks := file.tasks;
    var i := SearchIndex(tasks, TaskId, id);
    if i == -1 {
      return Response(404, Error(NotFound));
    }
    var deleted := [tasks[i]];
    tasks := RemoveAt(tasks, i);
    file.tasks := tasks;
    resp := Response(200, Entity(deleted[0]));
  }
}
