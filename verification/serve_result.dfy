/**
 * How Serve reports the end of the engine's accept loop: the sentinel that the
 * graceful listener returns once it has been closed means a clean shutdown.
 */
module ServeResult {
  import opened Optional

  /** The error the accept loop ends with. */
  datatype AcceptError =
    | ListenerAlreadyClosed           // the graceful listener was closed by shutdown
    | TransportError(reason: string)  // any other failure of the engine or the socket

  /** The error Serve returns for the accept loop's error (None is Go's nil). */
  function ServeError(acceptErr: Option<AcceptError>): (r: Option<AcceptError>)
    ensures r.None? <==> acceptErr.None? || acceptErr == Some(ListenerAlreadyClosed)
    ensures r.Some? ==> r == acceptErr && r.value.TransportError?
  {
    match acceptErr
    case Some(ListenerAlreadyClosed) => None
    case _ => acceptErr
  }
}
