/** The AWS checker: the spot instance-action document of the instance
    metadata service (IMDS). */
module Aws {
  import opened Wrappers
  import opened Errors
  import opened Metadata

  /** The instance-action document: what will happen and when. */
  datatype InstanceAction = InstanceAction(action: string, time: string)

  /** The pair the IMDS client returns: the document, if there is one, and an
      error, if the lookup failed. */
  datatype ImdsAnswer = ImdsAnswer(action: Option<InstanceAction>, err: Option<Error>)

  /** The check depends on the IMDS answer alone (the context is ignored). An
      error is passed through unchanged and always comes with `true`. */
  function Check(answer: ImdsAnswer): (r: CheckResult)
    ensures r.err == answer.err
    ensures r == NoEvent <==> answer.action.None? && answer.err.None?
    ensures r == EventPresent <==> answer.action.Some? && answer.err.None?
    ensures r.err.Some? ==> r.value
  {
    if answer.action.None? && answer.err.None? then NoEvent
    else CheckResult(true, answer.err)
  }
}
