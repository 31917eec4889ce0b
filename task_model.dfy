/** The task document. The Task schema is not part of this model: a task
    holds the fields the controllers read and write, with no constraint on
    them beyond the owner reference. */
module TaskModel {
  import opened Common

  /** `title` and `description` are stored as the request gave them (absent
      fields stay absent); `owner` is the `user` reference. */
  datatype Task = Task(title: Option<string>, description: Option<string>, owner: Id, createdAt: int)
}
