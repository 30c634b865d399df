/**
 * The second Express variant (`src/taskController.ts`): the same four handlers
 * over its own `tasks.json`, with an English 404 message, and with the
 * mark-done and delete handlers catching any failure of the file access as 500.
 */
module TaskFileController {
  import opened Records
  import opened ArrayOps
  import opened TaskList
  import opened Http

  const NotFound := "Task not found"
  const UpdateFailed := "Failed to update task"
  const DeleteFailed := "Failed to delete task"

  /**
   * Where the file access of one request throws, if it does: reading or
   * parsing the file, or writing it back.
   */
  datatype IoFault = NoFault | LoadFails | SaveFails

  /** `getAllTasks`: responds with the stored list as it is. */
  method GetAllTasks(file: TaskFile) returns (resp: Response<Task>)
    ensures resp == Response(200, Entities(file.tasks))
  {
    var tasks := file.tasks;
    resp := Response(200, Entities(tasks));
  }

  /**
   * `createTask`: appends one not-completed task with the request's description
   * and the generated id, saves, and responds 201 with that task.
   */
  method CreateTask(file: TaskFile, description: string, newId: string) returns (resp: Response<Task>)
    modifies file
    ensures file.tasks == old(file.tasks) + [Task(newId, description, false)]
    ensures resp == Response(201, Entity(Task(newId, description, false)))
  {
    var tasks := file.tasks;
    var newTask := Task(newId, description, false);
    tasks := tasks + [newTask];
    file.tasks := tasks;
    resp := Response(201, Entity(newTask));
  }

  /**
   * `markTaskDone`: 404 without writing when no task has the id; otherwise the
   * first match is completed, saved and sent back. A failed load or save
   * answers 500 and leaves the file as it was.
   */
  method MarkTaskDone(file: TaskFile, id: string, fault: IoFault) returns (resp: Response<Task>)
    modifies file
    ensures var (found, after) := MarkedDone(old(file.tasks), id);
            if fault.LoadFails? || (found.Some? && fault.SaveFails?) then
              resp == Response(500, Error(UpdateFailed)) && file.tasks == old(file.tasks)
            else if found.None? then
              resp == Response(404, Error(NotFound)) && file.tasks == old(file.tasks)
            else
              resp == Response(200, Entity(found.value)) && file.tasks == after
  {
    if fault == LoadFails {
      return Response(500, Error(UpdateFailed));
    }
    var tasks := file.tasks;
    var i := SearchIndex(tasks, TaskId, id);
    if i == -1 {
      return Response(404, Error(NotFound));
    }
    var task := tasks[i].(completed := true);
    tasks := tasks[i := task];
    if fault == SaveFails {
      return Response(500, Error(UpdateFailed));
    }
    file.tasks := tasks;
    resp := Response(200, Entity(task));
  }

  /**
   * `deleteTask`: 404 without writing when no task has the id; otherwise the
   * first match is spliced out, the rest saved in order, and the removed task
   * sent back. A failed load or save answers 500 and leaves the file as it was.
   */
  method DeleteTask(file: TaskFile, id: string, fault: IoFault) returns (resp: Response<Task>)
    modifies file
    ensures var (deleted, after) := SpliceFirst(old(file.tasks), TaskId, id);
            if fault.LoadFails? || (deleted.Some? && fault.SaveFails?) then
              resp == Response(500, Error(DeleteFailed)) && file.tasks == old(file.tasks)
            else if deleted.None? then
              resp == Response(404, Error(NotFound)) && file.tasks == old(file.tasks)
            else
              resp == Response(200, Entity(deleted.value)) && file.tasks == after
  {
    if fault == LoadFails {
      return Response(500, Error(DeleteFailed));
    }
    var tasks := file.tasks;
    var i := SearchIndex(tasks, TaskId, id);
    if i == -1 {
      return Response(404, Error(NotFound));
    }
    var deleted := tasks[i];
    tasks := RemoveAt(tasks, i);
    if fault == SaveFails {
      return Response(500, Error(DeleteFailed));
    }
    file.tasks := tasks;
    resp := Response(200, Entity(deleted));
  }

  /**
   * With unique ids and no file failure, deleting a present task twice answers
   * 200 with that task and then 404.
   */
  method DeleteTaskTwice(file: TaskFile, id: string) returns (first: Response<Task>, second: Response<Task>)
    requires UniqueKeys(file.tasks, TaskId) && !Absent(file.tasks, TaskId, id)
    modifies file
    ensures first.status == 200 && first.body.Entity? && first.body.entity.id == id
    ensures second == Response(404, Error(NotFound))
  {
    ghost var before := file.tasks;
    first := DeleteTask(file, id, NoFault);
    SpliceFirstTwice(before, TaskId, id);
    second := DeleteTask(file, id, NoFault);
  }
}
