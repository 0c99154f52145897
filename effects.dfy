/**
 * What the core can observe of the outside world: the errors it receives,
 * the storage backends it addresses, and a trace of every effect it asks
 * for (store calls, response headers, scratch-file operations), in order.
 */
module Effects {
  import opened Wrappers

  /**
   * A JavaScript error as the core sees it. Errors from the stores and the
   * file system carry an optional `code`; `httpError` builds one that
   * carries an HTTP status instead.
   */
  datatype Error = Failure(code: Option<string>) | HttpError(status: nat, message: string)

  /** A storage backend, known to the core only by its identity. */
  datatype Storage = Storage(name: string)

  /** The metadata declared when a write stream is requested. */
  datatype WriteInfo = WriteInfo(contentLength: nat, contentType: Option<string>)

  datatype StoreOp = ReadInfoOp | ReadStreamOp | WriteStreamOp(info: WriteInfo) | DeleteOp

  /** A response header value: a number, a string, or `undefined`. */
  datatype HeaderValue = NumberValue(n: nat) | TextValue(s: string) | Undefined

  datatype Event =
    | StoreCall(store: Storage, op: StoreOp, path: string)
    | HeaderSet(name: string, value: HeaderValue)
    | TmpCreated
    | TmpFilled
    | FiltersRun(options: seq<string>)
    | TmpStated
    | CacheFilled
    | TmpUnlinked

  /** The effects of one request, in the order they were asked for. */
  class Trace {
    var events: seq<Event>

    constructor ()
      ensures events == []
    {
      events := [];
    }

    method Emit(e: Event)
      modifies this
      ensures events == old(events) + [e]
    {
      events := events + [e];
    }
  }
}
