/** The errors the modelled code produces or passes along. Errors that come
    from collaborators outside the model (the cluster API, the reporter, the
    metadata servers) are kept opaque; the ones the code builds itself keep
    their structure, so that wrapping with `fmt.Errorf("...: %w", err)` stays
    visible. */
module Errors {

  /** How `strconv.Atoi` rejects its input. */
  datatype NumErrorKind = Syntax | Range

  datatype Error =
    | Failure(origin: string)                          // an error returned by a collaborator
    | Wrapped(context: string, cause: Error)           // fmt.Errorf("<context>: %w", cause)
    | UnexpectedStatus(code: int)                      // "received unexpected status code: %d"
    | ContextDone                                      // ctx.Err() of a context that is done
    | NumError(fn: string, num: string, kind: NumErrorKind)  // *strconv.NumError
}
