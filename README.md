# Collabry board, activity phrases and task-dialog handlers in Dafny

This project models the three pieces of behaviour in the Collabry web client
that are more than rendering or network plumbing:

- **The Kanban board** (`src/components/projects/kanban-board.tsx`). Three
  fixed status columns (`TODO`, `IN_PROGRESS`, `DONE`) show the project's task
  list, split by status with list order kept. A drag session holds one
  "active task" slot for the drag overlay. A drop becomes at most one
  status-update request. No target, or a dragged id that matches no task,
  issues nothing. A target id that is a column id means that column's status,
  even when a task has the same id. Otherwise a target id that is a task
  means that task's status. A move to the status the task already has is
  dropped. A failed update produces one error toast. The board never writes
  to its task list.
- **Activity-log phrases** (`formatAction` in
  `src/components/activity/activity-log-list.tsx`). Two fixed five-entry
  tables give the action word and the entity word. Unknown codes fall back to
  their lower-cased text. The phrase is the two words joined by a space.
- **Comment and attachment handlers** (`src/components/tasks/task-detail-dialog.tsx`).
  A blank (whitespace-only) comment or URL is not sent. The attachment's file
  name is the last `/`-separated piece of the URL, or `"unknown-file"` when
  that piece is empty. The MIME type and size are fixed defaults. On success
  the drafts are cleared and the form is closed. A delete is sent only after
  the user confirms.

Files:

- `wrappers.dfy`: `Option`.
- `types.dfy`: `TaskStatus`, `TaskPriority`, `Task` and toasts (`src/types/index.ts`).
- `js_array.dfy`: the JavaScript array methods the board uses, `find` and `filter`.
- `js_string.dfy`: the JavaScript string methods used: `toLowerCase` (ASCII only), `trim`, and `split` with `join` as its inverse.
- `kanban_board.dfy`: module `Kanban`. It holds the columns, the per-column views, the pure drop decision `DropDecision`, and the class `KanbanBoard`, whose `OnDragStart`/`OnDragEnd` update the active-task slot and record the requests they issue.
- `activity_log_list.dfy`: module `ActivityLog`.
- `task_detail_dialog.dfy`: module `TaskDetail`. It holds the payload functions and the class `TaskDetailDialog`, whose handlers update the drafts and record requests and toasts.

Network calls are recorded as requests in sequence fields. Each call's
outcome (success or failure) is a boolean parameter of the handler that makes
the call. So is the user's answer to the delete confirmation.

The board does not reorder cards. It imports `arrayMove` but never calls it,
keeps no local copy of the list, and has no position field. So there is no
optimistic move ahead of the server's answer. A column's order is only the
order of the list it was given (`TasksForColumnKeepsOrder`).

## Model

| member | source | states |
|---|---|---|
| Types.StatusNameInjective | src/types/index.ts:34 | Two statuses with the same literal are the same status, so a status literal names exactly one status |
| JsArray.Find | src/components/projects/kanban-board.tsx:81 | `find` returns `None` exactly when no element matches; otherwise it returns the element at the first matching index |
| JsArray.Filter | src/components/projects/kanban-board.tsx:142 | `filter` keeps exactly the elements that satisfy the predicate, and is never longer than its input |
| JsArray.FilterAppend | src/components/projects/kanban-board.tsx:142 | Filtering a concatenation is the concatenation of the filtered parts, so `filter` never reorders |
| JsArray.FilterCount | src/components/projects/kanban-board.tsx:142 | Each element occurs in the filtered list as often as in the input if it satisfies the predicate, and not at all otherwise |
| JsString.LowerChar | src/components/activity/activity-log-list.tsx:83-84 | An ASCII upper-case letter moves to its lower-case code point; any other character is unchanged; the result is never upper case |
| JsString.ToLower | src/components/activity/activity-log-list.tsx:83-84 | `toLowerCase` keeps the length and leaves no upper-case letter. Each character that is not an upper-case letter is kept, and each upper-case letter becomes its lower-case letter |
| JsString.ToLowerProperties | src/components/activity/activity-log-list.tsx:83-84 | Lower-casing twice gives the same as lower-casing once, and a string with no upper-case letter is its own lower-case |
| JsString.TrimStart | src/components/tasks/task-detail-dialog.tsx:54 | The result is a suffix of the input; everything removed is whitespace; the result does not start with whitespace |
| JsString.TrimEnd | src/components/tasks/task-detail-dialog.tsx:54 | The result is a prefix of the input; everything removed is whitespace; the result does not end with whitespace |
| JsString.Trim | src/components/tasks/task-detail-dialog.tsx:54 | `trim` returns a contiguous piece of the input with only whitespace cut on either side, and the piece neither starts nor ends with whitespace |
| JsString.IsBlank | src/components/tasks/task-detail-dialog.tsx:67 | `!s.trim()` holds exactly when every character of `s` is whitespace |
| JsString.Split | src/components/tasks/task-detail-dialog.tsx:70 | `split` always yields at least one piece, and no piece contains the separator |
| JsString.Join | src/components/tasks/task-detail-dialog.tsx:70 | Joining one or more pieces gives the pieces' total length plus one separator between each pair |
| JsString.JoinSplit | src/components/tasks/task-detail-dialog.tsx:70 | Joining the pieces of a split with the separator gives back the original string |
| JsString.SplitJoin | src/components/tasks/task-detail-dialog.tsx:70 | Splitting a join of one or more separator-free pieces gives back those pieces |
| JsString.SplitNoSeparator | src/components/tasks/task-detail-dialog.tsx:70 | A string without the separator splits into itself alone |
| JsString.SplitPrefix | src/components/tasks/task-detail-dialog.tsx:70 | A separator-free prefix followed by the separator becomes the first piece, and the rest splits on its own |
| JsString.SplitLast | src/components/tasks/task-detail-dialog.tsx:70 | The last piece (`pop()`) is the longest separator-free suffix: it is preceded by a separator or is the whole string, and it is the whole string exactly when there is one piece |
| Kanban.FindTask | src/components/projects/kanban-board.tsx:81 | The lookup fails exactly when no task has the id; otherwise it gives the first task with that id |
| Kanban.ColumnStatus | src/components/projects/kanban-board.tsx:85 | An id is a column id exactly when it is the literal of one of the three columns' statuses, and then it names that status |
| Kanban.TasksForColumn | src/components/projects/kanban-board.tsx:142 | A column holds exactly the list's tasks of its status |
| Kanban.Board | src/components/projects/kanban-board.tsx:136-142 | The board has one view per fixed column. A listed task is in a column's view exactly when its status is that column's, and every task in a view comes from the list |
| Kanban.TasksForColumnKeepsOrder | src/components/projects/kanban-board.tsx:142 | A column's tasks keep their list order: the view of a concatenation is the concatenation of the views |
| Kanban.TasksForColumnCount | src/components/projects/kanban-board.tsx:142 | A column holds each task of its status as often as the list does, and no task of another status |
| Kanban.BoardPartitionsTasks | src/components/projects/kanban-board.tsx:136-142 | The three columns together hold exactly the list's tasks (as a multiset), none dropped or duplicated, and their sizes sum to the list's length |
| Kanban.DropDecision | src/components/projects/kanban-board.tsx:71-111 | A drop issues at most one request. Any request targets the dragged id, needs a drop target, and needs a task with that id |
| Kanban.FindTaskIsFirst | src/components/projects/kanban-board.tsx:81 | `find` returns a task exactly when it is the first task with that id |
| Kanban.NoTargetOrUnknownTaskIssuesNothing | src/components/projects/kanban-board.tsx:75-82 | With no drop target, or with a dragged id that matches no task, nothing is issued |
| Kanban.DropOnColumn | src/components/projects/kanban-board.tsx:85-97 | A drop on a column id issues `{id, data: {status}}` for that column's status exactly when it differs from the task's status, whatever tasks share the id |
| Kanban.DropOnTask | src/components/projects/kanban-board.tsx:99-110 | A drop on a task id that is not a column id issues that task's status exactly when it differs from the dragged task's status |
| Kanban.DropOnUnknownTarget | src/components/projects/kanban-board.tsx:99-101 | A target that is neither a column id nor a task id issues nothing |
| Kanban.IssuedUpdateChangesStatus | src/components/projects/kanban-board.tsx:86-101 | An issued status differs from the dragged task's status. It is either the target column's status or the target task's status |
| Kanban.DropOnColumnExample | src/components/projects/kanban-board.tsx:85-94 | `t1` in To Do, dropped on `IN_PROGRESS`, issues exactly one update of `t1` to `IN_PROGRESS` |
| Kanban.ColumnIdShadowsTaskExample | src/components/projects/kanban-board.tsx:85-97 | Dropping on `"TODO"` reads it as the To Do column even when a Done task has that id, so a To Do task issues nothing |
| Kanban.KanbanBoard.constructor | src/components/projects/kanban-board.tsx:54 | The board mounts with the given task list, no active task and nothing issued |
| Kanban.KanbanBoard.SetTasks | src/components/projects/kanban-board.tsx:37-42 | A new task list from the parent (after a refetch) replaces the list and nothing else: the active-task slot and the logs persist |
| Kanban.KanbanBoard.OnDragStart | src/components/projects/kanban-board.tsx:65-69 | The slot takes the dragged item's task only when its data type is `"Task"`; otherwise it is unchanged |
| Kanban.KanbanBoard.OnDragOver | src/components/projects/kanban-board.tsx:113-116 | A drag-over changes nothing |
| Kanban.KanbanBoard.OnDragEnd | src/components/projects/kanban-board.tsx:71-111 | The slot is always cleared. The request log grows by exactly the drop decision, which is at most one request. A failed request adds one error toast. The task list is never written |
| Kanban.KanbanBoard.Update | src/components/projects/kanban-board.tsx:87-94 | Issuing an update records it and, on failure only, the "Failed to update task status" toast |
| ActivityLog.LookupOrLower | src/components/activity/activity-log-list.tsx:83-84 | A code with a non-empty table entry gives that entry; any other code gives its own lower-cased text (`toLowerCase`), of the same length and with no upper-case letter, which is empty only when the code is |
| ActivityLog.FormatAction | src/components/activity/activity-log-list.tsx:66-87 | A phrase is the action word, one space, then the entity word. Each word is the table entry for a known code and the lower-cased code otherwise. No phrase contains an upper-case letter |
| ActivityLog.KnownCodes | src/components/activity/activity-log-list.tsx:67-81 | The five action codes and five entity types give their fixed words |
| ActivityLog.TableWordsAreLowerWords | src/components/activity/activity-log-list.tsx:67-81 | Every table word is made of lower-case ASCII letters only |
| ActivityLog.SplitPhrase | src/components/activity/activity-log-list.tsx:86 | A phrase whose first word has no space reads back as its two words |
| ActivityLog.KnownPhrasesDistinct | src/components/activity/activity-log-list.tsx:66-87 | Distinct pairs of known codes give distinct phrases |
| TaskDetail.FileName | src/components/tasks/task-detail-dialog.tsx:70 | The file name is never empty and never contains a slash |
| TaskDetail.FileNameAfterLastSlash | src/components/tasks/task-detail-dialog.tsx:70 | The file name is the text after the URL's last slash, or `"unknown-file"` when the URL ends in a slash |
| TaskDetail.FileNameWithoutSlash | src/components/tasks/task-detail-dialog.tsx:70 | A non-empty URL without a slash is its own file name |
| TaskDetail.CommentRequest | src/components/tasks/task-detail-dialog.tsx:53-57 | No comment is sent exactly when the draft is whitespace only; otherwise the untrimmed draft goes out with the task id |
| TaskDetail.AttachmentRequest | src/components/tasks/task-detail-dialog.tsx:66-79 | Nothing is sent exactly when the URL is whitespace only. Otherwise the payload has the task id, the untrimmed URL, the file name `FileName(url)` (non-empty and slash-free), `application/octet-stream` and size 0 |
| TaskDetail.TaskDetailDialog.constructor | src/components/tasks/task-detail-dialog.tsx:40-44 | The dialog mounts for the given task with empty drafts and the add-attachment form closed |
| TaskDetail.TaskDetailDialog.SetTask | src/components/tasks/task-detail-dialog.tsx:34-38 | A new `task` prop from the page replaces the task and nothing else: the drafts and the form state persist |
| TaskDetail.TaskDetailDialog.SetCommentContent | src/components/tasks/task-detail-dialog.tsx:164 | Typing sets the comment draft |
| TaskDetail.TaskDetailDialog.SetAttachmentUrl | src/components/tasks/task-detail-dialog.tsx:228 | Typing sets the URL draft |
| TaskDetail.TaskDetailDialog.ToggleAddingAttachment | src/components/tasks/task-detail-dialog.tsx:215 | The add button flips whether the form is open |
| TaskDetail.TaskDetailDialog.HandleCreateComment | src/components/tasks/task-detail-dialog.tsx:53-64 | At most the draft's comment request is sent. The draft is cleared only when a request was sent and succeeded |
| TaskDetail.TaskDetailDialog.HandleAddAttachment | src/components/tasks/task-detail-dialog.tsx:66-91 | At most the URL's attachment request is sent. On success the URL is cleared, the form closed and "Attachment added" shown. On failure the drafts stay and "Failed to add attachment" is shown |
| TaskDetail.TaskDetailDialog.HandleDeleteAttachment | src/components/tasks/task-detail-dialog.tsx:93-100 | A delete is sent only when confirmed, followed by one success or failure toast |
| TaskDetail.DraftFollowsTaskSwitch | src/components/tasks/task-detail-dialog.tsx:53-57 | A comment typed for one task and sent after the page switches the dialog to another task goes out under the second task's id |

## Left out

- The pointer sensor and its 8 px activation distance (`kanban-board.tsx:57-63`): this is pointer geometry inside the drag-and-drop library.
- A cancelled drag (for example one ended with Escape): the board registers no `onDragCancel` handler (`kanban-board.tsx:129-134`), so the source does not clear the active-task slot then; the slot keeps the last dragged task until the next drag start or drop. The model has no cancel event.
- The drop animation, the drag overlay portal and the column and card components: these are rendering only.
- The REST services, React Query hooks, cache invalidation and the axios instance: network I/O. A request is a recorded value, and its outcome is a parameter.
- Callback timing: `onSuccess`/`onError` run after a network round trip, but the model applies them inside the handler call. Edits made while a request is in flight, and overlapping requests, are not modelled.
- The `isPending` flags and the disabled states of the send and add buttons (`task-detail-dialog.tsx:171, 236`): these are UI affordances; the handlers' own guards are modelled.
- JsString.ToLower: ASCII only; JavaScript's Unicode case mapping is not modelled.
- ActivityLog.LookupOrLower: the two tables hold exactly their five entries; keys such as `constructor`, inherited from the object prototype, are not modelled.
- Drag ids are strings; the drag library also allows numeric ids, which the board never uses.
- A task switch in the dialog (`TaskDetail.TaskDetailDialog.SetTask`) is the page passing a new `selectedTask` while the dialog stays mounted; the page itself is not modelled.
- JsString.Split: splits on one character, the only separator the source uses (`"/"`).
- The `?.`/`|| []` guard on the task list (`kanban-board.tsx:142`): the list prop is typed as always present.
- `Task.assignee` (the embedded user record) and date formatting: display only.
- The remaining dialogs, pages, authentication and validation schemas: forms and plumbing outside this core.
