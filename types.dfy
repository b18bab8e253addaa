/** The entities of `src/types/index.ts` that the board and the task dialog use. */
module Types {
  import opened Wrappers

  /** `TaskStatus`: the three fixed statuses, which are also the board's column ids. */
  datatype TaskStatus = TODO | IN_PROGRESS | DONE

  /** `TaskPriority`. */
  datatype TaskPriority = LOW | MEDIUM | HIGH

  /** A task as received from the server. Optional fields are `Option`s; the
      embedded `assignee` user record is not modelled (only its id). */
  datatype Task = Task(
    id: string,
    title: string,
    description: Option<string>,
    status: TaskStatus,
    priority: TaskPriority,
    dueDate: Option<string>,
    projectId: string,
    assigneeId: Option<string>,
    createdAt: string,
    updatedAt: string)

  /** A toast shown to the user: `toast.success(text)` or `toast.error(text)`. */
  datatype Notification = SuccessToast(text: string) | ErrorToast(text: string)

  /** The string literal that stands for a status in the source. */
  function StatusName(s: TaskStatus): string
  {
    match s
    case TODO => "TODO"
    case IN_PROGRESS => "IN_PROGRESS"
    case DONE => "DONE"
  }

  /** Distinct statuses have distinct literals. */
  lemma StatusNameInjective(s: TaskStatus, t: TaskStatus)
    requires StatusName(t) == StatusName(s)
    ensures t == s
  {
  }
}
