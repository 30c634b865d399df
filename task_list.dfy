/**
 * The task list as the file-backed variants keep it: a `tasks.json` file whose
 * whole contents are loaded, changed and written back by each request, and the
 * in-place `completed = true` flip they all perform on the first match.
 */
module TaskList {
  import opened Wrappers
  import opened Records
  import opened ArrayOps

  /**
   * A `tasks.json` file. Loading it yields `tasks` (a missing file yields the
   * empty list); saving the array assigns `tasks`.
   */
  class TaskFile {
    var tasks: seq<Task>

    constructor (initial: seq<Task>)
      ensures tasks == initial
    {
      tasks := initial;
    }
  }

  /**
   * Finding the first task with the id and setting its `completed` flag: the
   * task that was flipped (found by reference, so the flip lands inside the
   * array) and the array afterwards, or nothing when no task has that id.
   */
  function MarkedDone(s: seq<Task>, id: string): (r: (Option<Task>, seq<Task>))
    ensures r.0.None? <==> Absent(s, TaskId, id)
    ensures r.0.None? ==> r.1 == s
    ensures |r.1| == |s|
    ensures r.0.Some? ==>
              var i := FindIndex(s, TaskId, id);
              && r.0.value == r.1[i]
              && r.0.value == Task(s[i].id, s[i].description, true)
              && forall k :: 0 <= k < |s| && k != i ==> r.1[k] == s[k]
  {
    var i := FindIndex(s, TaskId, id);
    if i == -1 then (None, s)
    else
      var task := s[i].(completed := true);
      (Some(task), s[i := task])
  }

  /** Marking done twice answers and leaves the file exactly as marking once. */
  lemma MarkedDoneIdempotent(s: seq<Task>, id: string)
    ensures MarkedDone(MarkedDone(s, id).1, id) == MarkedDone(s, id)
  {
    var i := FindIndex(s, TaskId, id);
    if i != -1 {
      var task := s[i].(completed := true);
      FindIndexKeyPreserved(s, TaskId, id, i, task);
      assert s[i := task][i := task] == s[i := task];
    }
  }

  /** Marking done never changes which ids are stored, nor their order. */
  lemma MarkedDoneKeepsIds(s: seq<Task>, id: string, other: string)
    ensures FindIndex(MarkedDone(s, id).1, TaskId, other) == FindIndex(s, TaskId, other)
    ensures UniqueKeys(s, TaskId) ==> UniqueKeys(MarkedDone(s, id).1, TaskId)
  {
    var i := FindIndex(s, TaskId, id);
    if i != -1 {
      FindIndexKeyPreserved(s, TaskId, other, i, s[i].(completed := true));
    }
  }
}
