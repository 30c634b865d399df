/**
 * The file-backed half of the task service: `markTaskDone` and `removeTask`,
 * each a load of the task file, a search by id and, on a match, a change to the
 * loaded array followed by a save.
 */
module TaskService {
  import opened Wrappers
  import opened Records
  import opened ArrayOps
  import opened TaskList

  /**
   * `markTaskDone(id)`: null without saving when no task has the id; otherwise
   * the first match is flipped to completed, the array saved and the task returned.
   */
  method MarkTaskDone(file: TaskFile, id: string) returns (r: Option<Task>)
    modifies file
    ensures (r, file.tasks) == MarkedDone(old(file.tasks), id)
  {
    var tasks := file.tasks;
    var i := SearchIndex(tasks, TaskId, id);
    if i == -1 {
      return None;
    }
    var task := tasks[i].(completed := true);
    tasks := tasks[i := task];
    file.tasks := tasks;
    r := Some(task);
  }

  /**
   * `removeTask(id)`: null without saving when no task has the id; otherwise the
   * first match is spliced out, the rest saved in order and the removed task returned.
   */
  method RemoveTask(file: TaskFile, id: string) returns (r: Option<Task>)
    modifies file
    ensures (r, file.tasks) == SpliceFirst(old(file.tasks), TaskId, id)
  {
    var tasks := file.tasks;
    var i := SearchIndex(tasks, TaskId, id);
    if i == -1 {
      return None;
    }
    var deleted := tasks[i];
    tasks := RemoveAt(tasks, i);
    file.tasks := tasks;
    r := Some(deleted);
  }

  /**
   * With unique ids, removing a task that is present returns it, and removing
   * it again returns null and writes nothing.
   */
  method RemoveTaskTwice(file: TaskFile, id: string) returns (first: Option<Task>, second: Option<Task>)
    requires UniqueKeys(file.tasks, TaskId) && !Absent(file.tasks, TaskId, id)
    modifies file
    ensures first.Some? && first.value.id == id && second.None?
    ensures |file.tasks| == |old(file.tasks)| - 1 && Absent(file.tasks, TaskId, id)
  {
    ghost var before := file.tasks;
    first := RemoveTask(file, id);
    SpliceFirstTwice(before, TaskId, id);
    RemoveAtUnique(before, TaskId, FindIndex(before, TaskId, id));
    second := RemoveTask(file, id);
  }
}
