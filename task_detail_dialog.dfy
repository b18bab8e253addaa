/** The comment and attachment handlers of
    `src/components/tasks/task-detail-dialog.tsx`: the blank-input guards, the
    attachment file name taken from the URL, the request payloads, and the
    dialog state those handlers update. */
module TaskDetail {
  import opened Wrappers
  import opened Types
  import opened JsString

  /** `createComment({ content, taskId })`. */
  datatype CommentPayload = CommentPayload(content: string, taskId: string)

  /** `createAttachment({ taskId, url, filename, mimeType, size })`. */
  datatype AttachmentPayload = AttachmentPayload(
    taskId: string,
    url: string,
    filename: string,
    mimeType: string,
    size: int)

  /** The name used when the URL's last segment is empty. */
  const DefaultFileName: string := "unknown-file"

  /** The MIME type sent for every attachment, whose content is never inspected. */
  const DefaultMimeType: string := "application/octet-stream"

  const AttachmentAddedToast: Notification := SuccessToast("Attachment added")
  const AttachmentAddFailedToast: Notification := ErrorToast("Failed to add attachment")
  const AttachmentDeletedToast: Notification := SuccessToast("Attachment deleted")
  const AttachmentDeleteFailedToast: Notification := ErrorToast("Failed to delete attachment")

  /** `url.split("/").pop() || "unknown-file"`: never empty, never holding a slash. */
  function FileName(url: string): (name: string)
    ensures name != "" && '/' !in name
  {
    var parts := Split(url, '/');
    var last := parts[|parts| - 1];
    if last != "" then last else DefaultFileName
  }

  /** The file name is the text after the URL's last slash, or the default
      name when the URL ends in a slash. */
  lemma FileNameAfterLastSlash(url: string, k: int)
    requires 0 <= k < |url| && url[k] == '/' && '/' !in url[k + 1..]
    ensures FileName(url) == if k == |url| - 1 then DefaultFileName else url[k + 1..]
  {
    SplitLast(url, '/');
  }

  /** A non-empty URL without a slash is its own file name. */
  lemma FileNameWithoutSlash(url: string)
    requires url != "" && '/' !in url
    ensures FileName(url) == url
  {
    SplitNoSeparator(url, '/');
  }

  /** The payload `handleCreateComment` sends for a draft, or `None` when the
      draft is blank: the content goes out untrimmed. */
  function CommentRequest(content: string, taskId: string): (r: Option<CommentPayload>)
    ensures r.None? <==> forall i :: 0 <= i < |content| ==> IsWhitespace(content[i])
    ensures r.Some? ==> r.value.content == content && r.value.taskId == taskId
  {
    if IsBlank(content) then None else Some(CommentPayload(content, taskId))
  }

  /** The payload `handleAddAttachment` sends for a URL, or `None` when the URL
      is blank: the URL goes out untrimmed, with its file name and the fixed
      MIME type and size. */
  function AttachmentRequest(url: string, taskId: string): (r: Option<AttachmentPayload>)
    ensures r.None? <==> forall i :: 0 <= i < |url| ==> IsWhitespace(url[i])
    ensures r.Some? ==> r.value.taskId == taskId && r.value.url == url
    ensures r.Some? ==> r.value.filename == FileName(url)
    ensures r.Some? ==> r.value.filename != "" && '/' !in r.value.filename
    ensures r.Some? ==> r.value.mimeType == DefaultMimeType && r.value.size == 0
  {
    if IsBlank(url) then None
    else Some(AttachmentPayload(taskId, url, FileName(url), DefaultMimeType, 0))
  }

  /** The dialog's state: the task it shows (a prop), the two drafts, whether
      the add-attachment form is open, and the requests and toasts it has
      issued. Each request's outcome is a parameter of the handler that issues
      it. The project page keeps the dialog mounted once a task has been
      selected, so this state outlives closing the dialog and switching tasks. */
  class TaskDetailDialog {
    var task: Task
    var commentContent: string
    var attachmentUrl: string
    var isAddingAttachment: bool
    var commentRequests: seq<CommentPayload>
    var attachmentRequests: seq<AttachmentPayload>
    var deleteRequests: seq<string>
    var notifications: seq<Notification>

    /** The dialog mounts with empty drafts and the add-attachment form closed. */
    constructor (task: Task)
      ensures this.task == task
      ensures commentContent == "" && attachmentUrl == "" && !isAddingAttachment
      ensures commentRequests == [] && attachmentRequests == [] && deleteRequests == []
      ensures notifications == []
    {
      this.task := task;
      commentContent := "";
      attachmentUrl := "";
      isAddingAttachment := false;
      commentRequests := [];
      attachmentRequests := [];
      deleteRequests := [];
      notifications := [];
    }

    /** The parent re-renders the dialog with another task. Only the prop
        changes: the drafts and the form flag are kept, and the handlers send
        them with the new task's id. */
    method SetTask(t: Task)
      modifies this`task
      ensures task == t
    {
      task := t;
    }

    /** Typing in the comment box. */
    method SetCommentContent(text: string)
      modifies this`commentContent
      ensures commentContent == text
    {
      commentContent := text;
    }

    /** Typing in the attachment URL box. */
    method SetAttachmentUrl(text: string)
      modifies this`attachmentUrl
      ensures attachmentUrl == text
    {
      attachmentUrl := text;
    }

    /** The button that opens and closes the add-attachment form. */
    method ToggleAddingAttachment()
      modifies this`isAddingAttachment
      ensures isAddingAttachment == !old(isAddingAttachment)
    {
      isAddingAttachment := !isAddingAttachment;
    }

    /** `handleCreateComment`: a blank draft sends nothing; otherwise the draft
        is sent and, on success only, cleared. No toast either way. */
    method HandleCreateComment(succeeds: bool)
      modifies this`commentContent, this`commentRequests
      ensures var r := CommentRequest(old(commentContent), task.id);
        && commentRequests == old(commentRequests) + (if r.Some? then [r.value] else [])
        && commentContent == (if r.Some? && succeeds then "" else old(commentContent))
    {
      if IsBlank(commentContent) {
        return;
      }
      commentRequests := commentRequests + [CommentPayload(commentContent, task.id)];
      if succeeds {
        commentContent := "";
      }
    }

    /** `handleAddAttachment`: a blank URL sends nothing; otherwise the payload
        is sent; on success the URL is cleared, the form closed and a success
        toast shown; on failure the drafts stay and an error toast is shown. */
    method HandleAddAttachment(succeeds: bool)
      modifies this`attachmentUrl, this`isAddingAttachment, this`attachmentRequests, this`notifications
      ensures var r := AttachmentRequest(old(attachmentUrl), task.id);
        && attachmentRequests == old(attachmentRequests) + (if r.Some? then [r.value] else [])
        && attachmentUrl == (if r.Some? && succeeds then "" else old(attachmentUrl))
        && isAddingAttachment == (if r.Some? && succeeds then false else old(isAddingAttachment))
        && notifications == old(notifications)
             + (if r.None? then [] else if succeeds then [AttachmentAddedToast] else [AttachmentAddFailedToast])
    {
      if IsBlank(attachmentUrl) {
        return;
      }
      var filename := FileName(attachmentUrl);
      attachmentRequests := attachmentRequests
        + [AttachmentPayload(task.id, attachmentUrl, filename, DefaultMimeType, 0)];
      if succeeds {
        attachmentUrl := "";
        isAddingAttachment := false;
        notifications := notifications + [AttachmentAddedToast];
      } else {
        notifications := notifications + [AttachmentAddFailedToast];
      }
    }

    /** `handleDeleteAttachment`: the delete request goes out only when the
        user confirms, and its outcome is reported by a toast. */
    method HandleDeleteAttachment(id: string, confirmed: bool, succeeds: bool)
      modifies this`deleteRequests, this`notifications
      ensures deleteRequests == old(deleteRequests) + (if confirmed then [id] else [])
      ensures notifications == old(notifications)
        + (if !confirmed then [] else if succeeds then [AttachmentDeletedToast] else [AttachmentDeleteFailedToast])
    {
      if confirmed {
        deleteRequests := deleteRequests + [id];
        if succeeds {
          notifications := notifications + [AttachmentDeletedToast];
        } else {
          notifications := notifications + [AttachmentDeleteFailedToast];
        }
      }
    }
  }

  /** A comment typed while the dialog showed task `a` and sent after the page
      switched it to task `b` goes out with `b`'s id. */
  method DraftFollowsTaskSwitch(a: Task, b: Task, draft: string) returns (sent: seq<CommentPayload>)
    requires !IsBlank(draft)
    ensures sent == [CommentPayload(draft, b.id)]
  {
    var dialog := new TaskDetailDialog(a);
    dialog.SetCommentContent(draft);
    dialog.SetTask(b);
    assert dialog.commentContent == draft && dialog.commentRequests == [];
    assert CommentRequest(draft, b.id) == Some(CommentPayload(draft, b.id));
    dialog.HandleCreateComment(true);
    sent := dialog.commentRequests;
  }
}
