/** What the provider checkers share: the `(bool, error)` answer of a
    metadata check and the shape of the GET request sent to a metadata
    server. */
module Metadata {
  import opened Wrappers
  import opened Errors

  /** The pair `(bool, error)` returned by `CheckInterrupt`,
      `CheckRebalanceRecommendation` and `Check`. */
  datatype CheckResult = CheckResult(value: bool, err: Option<Error>)

  /** "No event, no error": the steady state of every check. */
  const NoEvent := CheckResult(false, None)

  /** "Event present, no error". */
  const EventPresent := CheckResult(true, None)

  /** A GET request: its full URL and the headers set on it. */
  datatype HttpGet = HttpGet(url: string, headers: map<string, string>)
}
