/** The Azure checker: one scheduled-events document per check; an event of
    type `Preempt` anywhere in it means the instance is being reclaimed. */
module Azure {
  import opened Wrappers
  import opened Errors
  import opened Metadata

  const MetadataServerURL := "http://169.254.169.254"
  const ScheduledEventsPath := "/metadata/scheduledevents?api-version=2020-07-01"
  const PreemptEventType := "Preempt"

  /** One entry of the `Events` list; the decoder keeps only `EventType`. */
  datatype ScheduledEvent = ScheduledEvent(eventType: string)

  /** What the HTTP client hands back: a failure (connection, timeout or a
      body it could not decode), or a status code with the decoded events. */
  datatype Response =
    | TransportFailed(cause: Error)
    | Response(status: int, events: seq<ScheduledEvent>)

  /** The request `CheckInterrupt` sends to the metadata server. */
  function ScheduledEventsRequest(serverURL: string): (r: HttpGet)
    ensures |r.url| >= |serverURL| && r.url[..|serverURL|] == serverURL
    ensures r.url[|serverURL|..] == ScheduledEventsPath
    ensures r.headers.Keys == {"Metadata"} && r.headers["Metadata"] == "true"
  {
    HttpGet(serverURL + ScheduledEventsPath, map["Metadata" := "true"])
  }

  /** Whether some event of the list is a preemption; the search stops at the
      first one, wherever it is. */
  function HasPreempt(events: seq<ScheduledEvent>): (r: bool)
    ensures r <==> exists i :: 0 <= i < |events| && events[i].eventType == PreemptEventType
  {
    if events == [] then false
    else events[0].eventType == PreemptEventType || HasPreempt(events[1..])
  }

  function CheckInterrupt(resp: Response): (r: CheckResult)
    ensures resp.TransportFailed? ==>
      r == CheckResult(false, Some(Wrapped("getting metadata/preemtied", resp.cause)))
    ensures resp.Response? && resp.status != 200 ==>
      r == CheckResult(false, Some(UnexpectedStatus(resp.status)))
    ensures r.err.None? <==> resp.Response? && resp.status == 200
    ensures r == EventPresent <==>
      resp.Response? && resp.status == 200 &&
      exists i :: 0 <= i < |resp.events| && resp.events[i].eventType == PreemptEventType
    ensures r.value ==> r.err.None?
  {
    match resp
    case TransportFailed(cause) => CheckResult(false, Some(Wrapped("getting metadata/preemtied", cause)))
    case Response(status, events) =>
      if status != 200 then CheckResult(false, Some(UnexpectedStatus(status)))
      else if HasPreempt(events) then EventPresent
      else NoEvent
  }

  /** Azure has no rebalance signal: the check never asks the server. */
  function CheckRebalanceRecommendation(): (r: CheckResult)
    ensures r == NoEvent
  {
    NoEvent
  }

  /** A 200 answer whose events carry no `Preempt` (the empty list included)
      is the steady state "no event, no error". */
  lemma NoPreemptIsNoEvent(events: seq<ScheduledEvent>)
    requires forall i :: 0 <= i < |events| ==> events[i].eventType != PreemptEventType
    ensures CheckInterrupt(Response(200, events)) == NoEvent
  {
  }
}
