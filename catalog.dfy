/** The records of the JSON catalog the course pages read (`courses.json`,
    `users.json`, the comment and notification files). The files themselves
    are not part of this model: the pages receive them as sequences. */
module Catalog {
  /** A course; ids are strings, as the route parameter that selects one. */
  datatype Course = Course(id: string, title: string, author: string, categories: seq<string>)

  /** A notification; `read` is 0 for an unread one. */
  datatype Notification = Notification(id: int, read: int)
}
