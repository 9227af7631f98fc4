/** What an HTTP handler answers. */
module Http {
  import opened Json

  /** A response: the status and the JSON body, if any. */
  datatype Reply = Reply(status: int, body: Option<Value>)
}
