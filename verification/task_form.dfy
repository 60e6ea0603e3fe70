/**
 * The task dialog of `src/components/TaskForm.tsx`: its reset and prefill
 * when it opens, the priority select, and the submit check.
 */
module TaskForm {
  import opened Wrappers
  import opened Types
  import opened Text
  import opened EventStore

  /** The dialog's fields. */
  datatype FormData = FormData(title: string, description: string, priority: Priority)

  /** The empty dialog: no title, no description, priority Medium. */
  const Blank := FormData("", "", Medium)

  /**
   * What the dialog holds after opening: the task being edited (an absent
   * description shown as ""), or the empty dialog when there is none.
   */
  function Open(task: Option<Task>): (f: FormData)
    ensures task.None? ==> f == Blank
    ensures task.Some? ==> f.title == task.value.title && f.priority == task.value.priority
    ensures task.Some? ==> f.description == OrEmpty(task.value.description)
  {
    match task
    case None => Blank
    case Some(t) => FormData(t.title, OrEmpty(t.description), t.priority)
  }

  /** `handleSelectChange`: only the priority changes. */
  function SelectPriority(f: FormData, p: Priority): (r: FormData)
    ensures r.priority == p && r.title == f.title && r.description == f.description
  {
    f.(priority := p)
  }

  /** What a submit does: show an error and stop, or hand the fields to the page. */
  datatype Outcome = Rejected(message: string) | Submitted(draft: TaskDraft)

  /**
   * `handleSubmit`: an empty title is refused; otherwise exactly the title,
   * the description and the priority go out.
   */
  function Submit(f: FormData): (r: Outcome)
    ensures r.Rejected? <==> f.title == ""
    ensures r.Rejected? ==> r.message == "Task title is required"
    ensures r.Submitted? ==> r.draft == TaskDraft(f.title, Some(f.description), f.priority)
  {
    if f.title == "" then Rejected("Task title is required")
    else Submitted(TaskDraft(f.title, Some(f.description), f.priority))
  }

  /**
   * Opening a task and saving it unchanged through `updateTask` gives the
   * task back, except that an absent description becomes "".
   */
  lemma EditRoundTrip(t: Task)
    requires t.title != ""
    ensures Submit(Open(Some(t))).Submitted?
    ensures MergeTask(t, DraftAsTaskPatch(Submit(Open(Some(t))).draft))
      == t.(description := Some(OrEmpty(t.description)))
  {
  }

  /** The empty dialog cannot be submitted until a title is typed. */
  lemma BlankRefused()
    ensures Submit(Open(None)) == Rejected("Task title is required")
  {
  }
}
