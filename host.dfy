/**
 * What the browser host tells the plugin, as plain values: a browser handle is an
 * identity, and a creation request ends with a handle, with no handle, or with an
 * exception that may carry a message.
 */
module Host {
  import opened Wrappers

  /** The identity of a browser instance created by the host. */
  type HandleId = nat

  /** The outcome of one `BrowserService.createBrowser` call. */
  datatype CreateOutcome =
    | Created(handle: HandleId)
    | NullHandle
    | Threw(message: Option<string>)
  {
    predicate Succeeded() { Created? }
  }
}
