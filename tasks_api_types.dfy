/** Record shapes of the task resource. */
module TasksApiTypes {
  import opened Wrappers

  /** A status code other than those of New (0) and Completed (2). */
  type OtherStatusCode = c: int | c != 0 && c != 2 witness 1

  /**
   * Task status. The component only names New (code 0) and Completed (code 2);
   * the remaining members of the enumeration are kept abstract, each with a
   * code of its own.
   */
  datatype TaskStatus = New | Completed | OtherStatus(code: OtherStatusCode)

  /** Task priority; the component copies it and never inspects it. */
  datatype TaskPriority = TaskPriority(code: int)

  datatype DomainTask = DomainTask(
    description: string,
    title: string,
    status: TaskStatus,
    priority: TaskPriority,
    startDate: string,
    deadline: string,
    id: string,
    todoListId: string,
    order: int,
    addedDate: string)

  /** Body of the task-list response; the component consumes only `items`. */
  datatype GetTasksResponse = GetTasksResponse(error: Option<string>, totalCount: int, items: seq<DomainTask>)

  /** The mutable fields of a task, sent in full by an update. */
  datatype UpdateTaskModel = UpdateTaskModel(
    description: string,
    title: string,
    status: TaskStatus,
    priority: TaskPriority,
    startDate: string,
    deadline: string)

  /**
   * The full-overwrite reading of an update, as the server is taken to apply
   * it: every mutable field of `t` is replaced by the model's, and the
   * server-owned fields stay.
   */
  function ApplyModel(t: DomainTask, m: UpdateTaskModel): DomainTask
  {
    t.(description := m.description, title := m.title, status := m.status,
       priority := m.priority, startDate := m.startDate, deadline := m.deadline)
  }
}
