/**
 * The project service: five operations over `projects.json`, each a load of
 * the whole list, an action on it and, when it changed, a save of the whole list.
 */
module ProjectService {
  import opened Wrappers
  import opened Records
  import opened ArrayOps

  /**
   * The `projects.json` file. Loading it yields `projects` (a missing file
   * yields the empty list); saving the array assigns `projects`.
   */
  class ProjectFile {
    var projects: seq<Project>

    constructor (initial: seq<Project>)
      ensures projects == initial
    {
      projects := initial;
    }
  }

  /**
   * The fields an update carries. The lookup key `id` is always there; a
   * missing `name` is left out of the spread and so keeps the stored name.
   */
  datatype ProjectUpdate = ProjectUpdate(id: string, name: Option<string>)

  /** `{ ...current, ...update }`: the update's fields win over the stored ones. */
  function Merge(current: Project, update: ProjectUpdate): (r: Project)
    ensures r.id == update.id
    ensures update.name.Some? ==> r.name == update.name.value
    ensures update.name.None? ==> r.name == current.name
  {
    Project(update.id, if update.name.Some? then update.name.value else current.name)
  }

  /**
   * `findIndex` by the update's id, then `projects[index] = merge`: the stored
   * record and the array afterwards, or nothing when no project has that id.
   */
  function Updated(s: seq<Project>, update: ProjectUpdate): (r: (Option<Project>, seq<Project>))
    ensures r.0.None? <==> Absent(s, ProjectId, update.id)
    ensures r.0.None? ==> r.1 == s
    ensures |r.1| == |s|
    ensures r.0.Some? ==>
              var i := FindIndex(s, ProjectId, update.id);
              && r.0.value == r.1[i] == Merge(s[i], update)
              && r.0.value.id == s[i].id
              && forall k :: 0 <= k < |s| && k != i ==> r.1[k] == s[k]
  {
    var i := FindIndex(s, ProjectId, update.id);
    if i == -1 then (None, s)
    else (Some(Merge(s[i], update)), s[i := Merge(s[i], update)])
  }

  /** `getProjects`: the stored list as it is. */
  method GetProjects(file: ProjectFile) returns (r: seq<Project>)
    ensures r == file.projects
  {
    r := file.projects;
  }

  /**
   * `addProject(name)`: pushes one project with that name and the generated
   * id at the end, saves, and returns the very record it pushed.
   */
  method AddProject(file: ProjectFile, name: string, newId: string) returns (p: Project)
    modifies file
    ensures p == Project(newId, name)
    ensures file.projects == old(file.projects) + [p]
  {
    var projects := file.projects;
    p := Project(newId, name);
    projects := projects + [p];
    file.projects := projects;
  }

  /** `getProjectById(id)`: the first project with that id, or null. */
  method GetProjectById(file: ProjectFile, id: string) returns (r: Option<Project>)
    ensures r == Find(file.projects, ProjectId, id)
  {
    var projects := file.projects;
    var i := SearchIndex(projects, ProjectId, id);
    r := if i == -1 then None else Some(projects[i]);
  }

  /**
   * `updateProject(update)`: null without saving when no project has the id;
   * otherwise the first match is replaced by the merge, saved, and returned.
   */
  method UpdateProject(file: ProjectFile, update: ProjectUpdate) returns (r: Option<Project>)
    modifies file
    ensures (r, file.projects) == Updated(old(file.projects), update)
  {
    var projects := file.projects;
    var index := SearchIndex(projects, ProjectId, update.id);
    if index == -1 {
      return None;
    }
    projects := projects[index := Merge(projects[index], update)];
    file.projects := projects;
    r := Some(projects[index]);
  }

  /**
   * `deleteProject(id)`: null without saving when no project has the id;
   * otherwise the first match is spliced out, the rest saved in order, and the
   * removed project returned.
   */
  method DeleteProject(file: ProjectFile, id: string) returns (r: Option<Project>)
    modifies file
    ensures (r, file.projects) == SpliceFirst(old(file.projects), ProjectId, id)
  {
    var projects := file.projects;
    var index := SearchIndex(projects, ProjectId, id);
    if index == -1 {
      return None;
    }
    var deletedProject := projects[index];
    projects := RemoveAt(projects, index);
    file.projects := projects;
    r := Some(deletedProject);
  }

  /**
   * A project's life under a fresh id: once added it is found; an update with
   * its id renames exactly that record; deleting it returns the renamed record
   * and restores the list as it was before the add, where it is no longer found.
   */
  lemma {:induction false} ProjectLifecycle(s: seq<Project>, name: string, newId: string, newName: string)
    requires Absent(s, ProjectId, newId)
    ensures var added := s + [Project(newId, name)];
            var updated := Updated(added, ProjectUpdate(newId, Some(newName)));
            var deleted := SpliceFirst(updated.1, ProjectId, newId);
            && Find(added, ProjectId, newId) == Some(Project(newId, name))
            && updated == (Some(Project(newId, newName)), s + [Project(newId, newName)])
            && deleted == (Some(Project(newId, newName)), s)
            && Find(deleted.1, ProjectId, newId) == None
  {
    var p, q := Project(newId, name), Project(newId, newName);
    var added, renamed := s + [p], s + [q];
    FindIndexAppend(s, ProjectId, newId, p);
    assert FindIndex(added, ProjectId, newId) == |s|;
    assert added[|s| := q] == renamed;
    var updated := Updated(added, ProjectUpdate(newId, Some(newName)));
    assert updated == (Some(q), renamed);
    FindIndexAppend(s, ProjectId, newId, q);
    assert FindIndex(renamed, ProjectId, newId) == |s|;
    assert renamed[..|s|] + renamed[|s| + 1..] == s;
    var deleted := SpliceFirst(renamed, ProjectId, newId);
    assert deleted == (Some(q), s);
  }

  /** An update never changes which ids are stored, nor their order. */
  lemma UpdatedKeepsIds(s: seq<Project>, update: ProjectUpdate, other: string)
    ensures FindIndex(Updated(s, update).1, ProjectId, other) == FindIndex(s, ProjectId, other)
  {
    var i := FindIndex(s, ProjectId, update.id);
    if i != -1 {
      FindIndexKeyPreserved(s, ProjectId, other, i, Merge(s[i], update));
    }
  }
}
