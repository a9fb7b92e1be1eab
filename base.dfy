/** Values shared by the chat store, the answer service and the turn protocol. */
module Base {

  /** An optional value; `None` stands for the source's `null` and `undefined`. */
  datatype Option<+T> = None | Some(value: T)

  /** A cited web reference, the `{ uri, title }` records of the message type. */
  datatype Source = Source(uri: string, title: string)

  /** JavaScript truthiness of a string that may be absent: present and non-empty. */
  predicate Truthy(s: Option<string>)
  {
    s.Some? && s.value != ""
  }
}
