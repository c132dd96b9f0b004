/** Shared vocabulary: optional request fields, HTTP replies. */
module Common {

  datatype Option<T> = None | Some(value: T)

  /** JavaScript truthiness of an optional string from a request body or query:
      `undefined`, `null` and `""` are falsy. */
  predicate Supplied(s: Option<string>) {
    s.Some? && s.value != ""
  }

  /** JavaScript truthiness of an optional number (already cast by the schema):
      `undefined`, `null` and `0` are falsy. */
  predicate SuppliedNumber(n: Option<int>) {
    n.Some? && n.value != 0
  }

  /** What a handler sends back: the HTTP status and the `message` of its JSON body.
      `Unhandled` is a handler whose promise rejects with no `catch`: no reply is sent. */
  datatype Reply = Reply(status: nat, message: string) | Unhandled

  /** The message of a success reply whose body carries data rather than a message. */
  const NoMessage := ""

  const ServerError := "Server error"
  const InternalServerError := "Internal server error"
}
