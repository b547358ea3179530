/** Entities the frontend pages receive from the backend as JSON. */
module Entities {

  /** A global tag (maindata `tags` entry). */
  datatype Tag = Tag(id: string, name: string, color: string)

  /**
   * A task as the React pages see it. A field the JSON object lacks is
   * read as the empty string (or the empty list); both are falsy for the
   * pages, but the model does not tell a missing field from an empty one.
   */
  datatype Task = Task(
    id: string,
    title: string,
    description: string,
    tags: seq<string>,
    timestamp: string,
    status: string,
    pageName: string)

  /** The test `task.status === status` the pages filter by. */
  function HasStatus(status: string): Task -> bool {
    (t: Task) => t.status == status
  }
}
