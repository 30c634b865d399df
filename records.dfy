/** The two record kinds stored by the API. */
module Records {

  /** A task as the file-backed variants store it: `{id, description, completed}`. */
  datatype Task = Task(id: string, description: string, completed: bool)

  /** A project: `{id, name}`. */
  datatype Project = Project(id: string, name: string)

  /** The key every lookup compares against (`t => t.id === id`). */
  function TaskId(t: Task): string { t.id }

  function ProjectId(p: Project): string { p.id }
}
