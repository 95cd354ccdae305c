/** The task record the desktop app receives from its store (`data::TodoItem`
    and `data::TodoKey`): a key valid for one snapshot of the store, and the
    fields parsed from one task line. */
module Tasks {
  import opened Wrappers
  import opened Dates

  /** Position of the task line and its optional `^id` marker, in one snapshot. */
  datatype TodoKey = TodoKey(lineIndex: nat, marker: Option<string>)

  datatype TodoItem = TodoItem(
    key: TodoKey,
    title: string,
    section: string,
    project: Option<string>,
    context: Option<string>,
    due: Option<Date>,
    recurrence: Option<string>,
    reference: Option<string>,
    done: bool
  )
}
