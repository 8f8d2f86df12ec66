/** Record identifiers and the JSON envelope every handler answers with. */
module Envelope {
  import opened Wrappers

  /** A document identifier as it arrives in a path or a body (an ObjectId's text). */
  type Id = string

  const Ok: int := 200
  const Created: int := 201
  const BadRequest: int := 400
  const NotFound: int := 404
  const InternalError: int := 500

  /** A stored record together with its identifier, as the handlers return it in `data`. */
  datatype Doc<T> = Doc(id: Id, record: T)

  /** `{ success, message, data? }` with the HTTP status (`success` is true exactly for 200 and 201). */
  datatype Reply<T> = Reply(status: int, message: string, data: Option<T>)

  /** The list envelope `{ success, message, count?, page?, data? }` with the HTTP status. */
  datatype ListReply<T> = ListReply(status: int, message: string, count: Option<int>, page: Option<int>, data: Option<seq<T>>)
}
