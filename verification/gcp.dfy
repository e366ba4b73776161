/** The GCP checker: the `preempted` metadata key, read as text. */
module Gcp {
  import opened Wrappers
  import opened Errors
  import opened Metadata

  const MetadataServerURL := "http://metadata.google.internal"
  const PreemptedPath := "/computeMetadata/v1/instance/preempted"
  const NotPreempted := "FALSE"

  /** What the HTTP client hands back: a failure, or a status code and the
      raw body. */
  datatype Response =
    | TransportFailed(cause: Error)
    | Response(status: int, body: string)

  /** The request `Check` sends to the metadata server. */
  function PreemptedRequest(serverURL: string): (r: HttpGet)
    ensures |r.url| >= |serverURL| && r.url[..|serverURL|] == serverURL
    ensures r.url[|serverURL|..] == PreemptedPath
    ensures r.headers.Keys == {"Metadata-Flavor"} && r.headers["Metadata-Flavor"] == "Google"
  {
    HttpGet(serverURL + PreemptedPath, map["Metadata-Flavor" := "Google"])
  }

  /** Only a body of exactly `FALSE` means "not preempted"; every other body
      of a 200 answer (`TRUE`, `false`, the empty body) means "preempted". */
  function Check(resp: Response): (r: CheckResult)
    ensures resp.TransportFailed? ==>
      r == CheckResult(false, Some(Wrapped("getting metadata/preemtied", resp.cause)))
    ensures resp.Response? && resp.status != 200 ==>
      r == CheckResult(false, Some(UnexpectedStatus(resp.status)))
    ensures r == NoEvent <==> resp.Response? && resp.status == 200 && resp.body == NotPreempted
    ensures r == EventPresent <==> resp.Response? && resp.status == 200 && resp.body != NotPreempted
    ensures r.value ==> r.err.None?
  {
    match resp
    case TransportFailed(cause) => CheckResult(false, Some(Wrapped("getting metadata/preemtied", cause)))
    case Response(status, body) =>
      if status != 200 then CheckResult(false, Some(UnexpectedStatus(status)))
      else if body == NotPreempted then NoEvent
      else EventPresent
  }
}
