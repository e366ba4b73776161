# spot-handler in Dafny

A model of the core of castai/spot-handler. This is the agent that runs on
every spot (preemptible) node of a CAST AI managed Kubernetes cluster. It
polls the cloud provider's metadata service. When the instance is about to
be reclaimed, it reads its own Node object, reports an `interrupted` cloud
event to the CAST AI control plane, and drains the node. To drain it, the
agent marks the node unschedulable, adds the draining label and appends a
`NoSchedule` draining taint, all in one strategic-merge PATCH that is
retried a bounded number of times. The agent also reports a
`rebalanceRecommendation` event once, and exits 30 seconds after it is
asked to stop.

Modules:

- `Wrappers` and `Errors`: Option and Result, and the error values the
  handler builds or passes on, with their wrapping context.
- `Metadata`: what a checker returns, `(value, err)`, and the HTTP GET a
  checker sends.
- `Azure`, `Gcp` and `Aws`: the three metadata checkers, as functions of
  the answer the metadata service or IMDS gives.
- `Nodes`: the Node fields the handler reads or writes, the drain, and the
  patch between two versions of a node. The patch has the shape of a
  strategic merge patch: label and annotation maps are merged, and the
  taint list is replaced whole.
- `CloudEvents`: the request sent to the control plane.
- `Trace`: the external calls, recorded with their outcome, and the order
  in which the handler may make them (`Ordered`). `Count` counts the calls
  that satisfy a property.
- `Handling`: `patchNode`, `taintNode`, `handleInterruption`,
  `handleRebalanceRecommendation` and the body of one tick. Each is a
  function stating its outcome, plus a method that performs it step by
  step and is proved to give that outcome. The methods follow the Go
  procedures statement by statement, early returns included, and
  `SpotHandler.Step` runs them. The functions are what the lemmas reason
  about, because a lemma cannot call a method. `PatchNode` holds the retry
  loop.
- `TickProperties`: lemmas about one tick. Each tick's calls are in an
  allowed order. They also show how the tick changes the flags and what it
  reports and patches.
- `Handler`: the class `SpotHandler`, with the state of `Run`'s loop as
  fields. These are the ticker, the "rebalance recommendation sent" flag,
  the once-only grace period, the deadline timer, whether `Run` has
  returned and the time of the last event served. Time is counted in
  seconds since `Run` started. `StepState` and `RunFrom` state one
  iteration of the `select` and a whole run on the loop's state as a
  value. The methods `Step`, `Serve` and `Run` perform them on the
  object's fields. Before each delivered event, the deadline fires if it
  has expired by that event's time. The loop's invariant keeps the whole
  call history ordered. It also keeps these counts:
  - the rebalance recommendation is reported successfully at most once,
    and exactly once if the flag is set;
  - at most one drain PATCH succeeds;
  - the ticker stops only after the interruption has been reported.

  A drain that fails after the interruption was reported leaves the ticker
  running. The next tick that still sees the interruption reports it again
  and retries the drain.
- `Version`: the minor-version parse of `Get`, plus `Full`, `MinorInt` and
  `HandlerVersion.String`. The parse takes the longest run of leading
  digits, leading zeros included, and converts it with `strconv.Atoi`. `HandlerVersion.String` uses Go's `%q` quoting,
  with its inverse parser.

The collaborators are the Kubernetes API, the control-plane client and the
metadata services. Their answers are parameters of the model: each
operation takes the answers it will get and returns the calls it makes,
with their outcomes.

## Model

| member | source | states |
|---|---|---|
| Azure.ScheduledEventsRequest | handler/azure.go:39-41 | The request goes to the server URL followed by the scheduled-events path, api-version 2020-07-01. It carries exactly one header, `Metadata: true`. |
| Azure.HasPreempt | handler/azure.go:50-56 | True exactly when some event in the list has type `Preempt`, at any position. |
| Azure.CheckInterrupt | handler/azure.go:36-57 | A transport failure gives `false` and the cause wrapped as "getting metadata/preemtied". A non-200 status gives `false` and an unexpected-status error with that code. The error is absent exactly when the status is 200. The result is (true, nil) exactly on a 200 answer that lists a `Preempt` event. `true` never comes with an error. |
| Azure.CheckRebalanceRecommendation | handler/azure.go:59-62 | Always (false, nil). |
| Azure.NoPreemptIsNoEvent | handler/azure.go:50-56 | A 200 answer without a `Preempt` event gives (false, nil). This includes an empty event list. |
| Gcp.PreemptedRequest | handler/gcp.go:30-32 | The request goes to the server URL followed by `/computeMetadata/v1/instance/preempted`. It carries exactly one header, `Metadata-Flavor: Google`. |
| Gcp.Check | handler/gcp.go:29-46 | The error cases are the same as Azure's. On a 200 answer the result is (false, nil) exactly when the body is `FALSE`, and (true, nil) for every other body. |
| Aws.Check | handler/aws.go:19-26 | The IMDS error is passed through unchanged. The result is (false, nil) exactly when there is neither an instance action nor an error. It is (true, nil) exactly when there is an action and no error. An error always comes with `true`. |
| Version.LeadingDigits | version/version.go:40 | The result is the longest prefix of the minor version made of decimal digits. |
| Version.DecimalRoundTrip | version/version.go:40 | Reading the decimal rendering of n gives back n. |
| Version.Atoi | version/version.go:40 | The empty string is a syntax error on "". A non-empty digit string fails exactly when its value exceeds the 64-bit `int` maximum, and then with a range error on that string. Otherwise the result is the string's decimal value, leading zeros included. |
| Version.Get | version/version.go:40-45 | The parse succeeds exactly when the minor starts with a digit and its leading digits denote at most the `int` maximum. The minor is then that value, and the info is kept. Every failure is wrapped as "parsing minor version". A minor that is empty or does not start with a digit fails with Atoi's syntax error on "". |
| Version.LeadingZerosValue | version/version.go:40 | Leading zeros change neither that a string is all digits nor its decimal value. |
| Version.PaddedDecimal | version/version.go:40 | The digits of n after any number of zeros are a non-empty digit string whose value is n. |
| Version.GetDigitsWithSuffix | version/version.go:40-45 | On a minor made of digits followed by a suffix that does not start with a digit, `Get` yields the digits' value, or the wrapped range error on exactly those digits when the value exceeds the `int` maximum. |
| Version.MinorWithSuffix | version/version.go:40-45 | A minor such as `27+` or `027+` parses to its leading number. `MinorInt` returns that number, and `Full` keeps the minor as the server gave it. |
| Version.MinorTooLarge | version/version.go:40-43 | A leading number above the `int` maximum, with or without leading zeros, fails with Atoi's range error on those digits, wrapped as "parsing minor version". |
| Version.Full | version/version.go:53-55 | The result is the major, then one dot, then the minor, each kept character for character. |
| Version.MinorIntOfGet | version/version.go:40-59 | On the version `Get` returns, `MinorInt` is the value of the minor's leading digits, between 0 and the `int` maximum. `Full` gives the major and minor as the server gave them. |
| Version.FullSplits | version/version.go:53-55 | `Full` joins major and minor with a dot. When the major has no dot, splitting at the first dot gives both back. |
| Version.Escape | version/version.go:66 | A character's escaped form is non-empty and never starts with a double quote. Unless it starts with a backslash, it is the character itself. |
| Version.UnescapeEscape | version/version.go:66 | Every backslash escape that `%q` writes (`\"`, `\\`, `\a` to `\v`, `\xHH`) reads back as the character it stands for. |
| Version.Quote | version/version.go:66 | A quoted string begins and ends with a double quote. |
| Version.QuoteRoundTrip | version/version.go:65-67 | A `%q`-quoted string reads back as the same string, and reading stops at its closing quote. |
| Version.HandlerVersionRoundTrip | version/version.go:65-67 | `HandlerVersionString` is unambiguous. The three fields of its output read back exactly, whatever characters they contain. |
| Nodes.Drain | handler/handler.go:156-165 | The drained node is unschedulable and carries the draining label with value `spot-interruption`. All other labels are unchanged. The taints are the old ones followed by the draining taint (`NoSchedule`, value `true`). Name, annotations and provider id are unchanged. |
| Nodes.Diff | handler/handler.go:173-187 | The patch sets `unschedulable` exactly when the two versions differ there, and to the new value. It replaces the taint list exactly when the lists differ, and with the new list. Two equal versions give the empty patch. |
| Nodes.ApplyPatch | handler/handler.go:192-195 | Patching keeps the node's name and provider id. The empty patch changes nothing. |
| Nodes.MapDiffApply | handler/handler.go:187 | Applying the map delta between two maps to the first map gives the second. |
| Nodes.DiffApply | handler/handler.go:173-187 | Applying the patch between two versions of a node to the first version gives the second. |
| Nodes.DrainPatch | handler/handler.go:156-187 | The drain patch sets the draining label, unless it is already there with that value. It sets `unschedulable` to true and replaces the taint list with the old list plus the draining taint. It does not touch annotations. |
| Nodes.DrainPatchOnConcurrentNode | handler/handler.go:187-195 | On a node that another writer changed after the read, the drain patch keeps that writer's labels and annotations. The taint list becomes the list as read plus the draining taint, so the writer's taints are lost. |
| CloudEvents.BuildRequest | handler/handler.go:137-143 | The request carries the event tag and the node's `provisioner.cast.ai/node-id` label, or "" when the label is absent. The provider id is set exactly when the node's is not empty, and then it equals the node's. |
| CloudEvents.RequestDependsOnIdentity | handler/handler.go:137-143 | Two nodes with the same node-id label and provider id give the same request, whatever else differs. |
| CloudEvents.DrainKeepsIdentity | handler/handler.go:137-148 | The drain changes neither the node-id label nor the provider id. |
| Handling.RetryFrom | handler/handler.go:192-205 | At most 1 + 5 attempts are made. Every attempt before the last one failed while the context was live. The retry succeeds exactly when the last attempt succeeded. A failure seen with the context done ends with the context's error. Otherwise a failure is the sixth attempt's own error. |
| Handling.PatchOutcome | handler/handler.go:172-201 | A change function that fails sends nothing and returns its error. Otherwise 1 to 6 PATCHes of the same patch are sent to the node, with attempts numbered 1, 2 and so on, and only the last can have succeeded. The result is nil exactly when the last one succeeded. Any other error is wrapped as "patching node". |
| Handling.PatchNode | handler/handler.go:172-201 | The retry loop produces exactly the outcome `PatchOutcome` states. |
| Handling.DrainChange | handler/handler.go:156-165 | The change function `taintNode` passes never fails, and it produces the drained node. |
| Handling.TaintOutcome | handler/handler.go:151-170 | An unschedulable node is left alone and nil is returned. Otherwise the drain patch is sent 1 to 6 times, and nil comes back exactly when the last PATCH succeeded. An error is "patching node unschedulable" around "patching node". |
| Handling.TaintNode | handler/handler.go:151-170 | Performs `TaintOutcome`. |
| Handling.InterruptionOutcome | handler/handler.go:131-149 | The node is read first. A failed read returns its error without a report. After a read comes the `interrupted` report built from the node. A failed report returns its error without a PATCH. Otherwise the taint outcome follows. A PATCH happens only after a successful read and report, and only on a schedulable node. |
| Handling.HandleInterruption | handler/handler.go:131-149 | Performs `InterruptionOutcome`. |
| Handling.RebalanceOutcome | handler/handler.go:207-222 | The node is read first. A failed read returns its error. Otherwise the `rebalanceRecommendation` report built from the node is sent and its error returned. The node is never patched. |
| Handling.HandleRebalanceRecommendation | handler/handler.go:207-222 | Performs `RebalanceOutcome`. |
| Handling.TickOutcome | handler/handler.go:83-115 | Every tick starts with the interruption check. A check error ends the tick with that error, the ticker still running and the flag unchanged. Once set, the flag stays set. |
| Handling.RunTick | handler/handler.go:83-115 | Performs `TickOutcome`. |
| TickProperties.InterruptionOrdered | handler/handler.go:131-149 | After a detected interruption, the handling's calls come in the allowed order. A report follows a successful read, a PATCH follows a successful report, and a retry follows a failed PATCH. |
| TickProperties.TickOrdered | handler/handler.go:83-115 | Each tick's calls are in the allowed order. The rebalance check comes only once the interruption part ended without error. |
| TickProperties.TaintCounts | handler/handler.go:151-170 | `taintNode` reports nothing. One PATCH succeeds exactly when it returns nil on a schedulable node, and none otherwise. |
| TickProperties.InterruptionCounts | handler/handler.go:131-149 | The interruption is reported successfully once exactly when the read and the report succeed. At most one PATCH succeeds, and only when the handling returns nil on a schedulable node. No rebalance report is sent. |
| TickProperties.RebalanceCounts | handler/handler.go:207-222 | The recommendation is reported successfully once exactly when the handling returns nil. Nothing else is reported and nothing is patched. |
| TickProperties.TickStop | handler/handler.go:87-98 | The ticker stops exactly when an interruption was detected and handled without error. A failed handling ends the tick with that error, before the rebalance check, with the ticker running and the flag unchanged. |
| TickProperties.TickRebalanceFlag | handler/handler.go:100-112 | The flag changes only after a detected recommendation was reported without error. While the flag is set, the rebalance check is not made. |
| TickProperties.TickCallCount | handler/handler.go:83-115 | For any property of calls that no metadata check has, a tick's count is that of the interruption handling plus that of the rebalance handling. |
| TickProperties.TickCounts | handler/handler.go:83-115 | A tick reports the recommendation successfully once if it sets the flag, and never otherwise. At most one PATCH succeeds, and if one does the ticker stops. A stopped ticker means the interruption was reported. |
| Handler.GraceBoundsRun | handler/handler.go:120-126 | Once the grace period is armed, the run returns exactly at its expiry, if anything is delivered by then. Later cancellations do not move the deadline. |
| Handler.ReturnsAfterGracePeriod | handler/handler.go:120-126 | A first cancellation at time t makes the run return at t + 30 seconds, if anything is delivered by then. |
| Handler.FailedDrainReportsAgain | handler/handler.go:91-98 | After a tick whose interruption was read and reported but whose drain failed, the ticker keeps running. The tick adds exactly one successful interruption report to the history. |
| Handler.TickKeepsInv | handler/handler.go:82-119 | A tick served on a running ticker before the deadline keeps the loop's invariant: ordered history, rebalance reports matching the flag, at most one successful PATCH, and only after it a stopped ticker. |
| Handler.StepKeepsInv | handler/handler.go:80-127 | Every iteration keeps the loop's invariant, including the deadline facts: the initial year until the grace period is armed, 30 seconds after it, and returned exactly at expiry. |
| Handler.SpotHandler.constructor | handler/handler.go:70-78 | The ticker runs, the flag is clear, the grace period is not armed, the time is 0, the deadline is a year from 0 and no call has been made. |
| Handler.SpotHandler.Step | handler/handler.go:80-127 | The new state is `StepState` of the old one. A tick on a running ticker performs the tick body, adds exactly its calls to the history and records the tick's time. A tick on a stopped ticker changes nothing. The first cancellation restarts the deadline with the 30-second grace period from its time, and later ones leave it. The deadline makes the loop return. The invariant holds after every step. |
| Handler.SpotHandler.Serve | handler/handler.go:80-127 | The next delivered event is served exactly when it comes before the deadline's expiry. Otherwise the deadline fires and the loop returns. |
| Handler.SpotHandler.Run | handler/handler.go:70-129 | The final state is `RunFrom` of the initial one over the delivered events. The loop returns nil at the deadline and has then served every earlier event. It returns exactly when an event at or after the expiry remains, and the time is then the expiry. The history stays ordered, with at most one successful rebalance report and at most one successful PATCH. |

## Left out

- The metadata HTTP requests, IMDS, the Kubernetes API and the control-plane client are not modelled. Their answers are parameters, and the model records the calls made to them.
- The logging and the 10-second per-tick context timeout are left out. A done context shows up only as the `cancelled` flag of a PATCH answer.
- Time is counted in whole seconds since `Run` started, and the times of ticks and cancellations are inputs. The poll interval is not modelled: a tick may arrive at any time. Handling a tick takes no time.
- The deadline fires before any delivered event at or after its expiry. Go's `select` picks at random among ready channels, so an event at exactly the expiry could still be served there.
- Go tickers before Go 1.23 can deliver one buffered tick after `Stop`. The model assumes that no tick arrives once the ticker is stopped.
- `Run` loops forever in Go. The model serves a finite sequence of events.
- Handling.PatchOutcome: `json.Marshal` and `CreateTwoWayMergePatch` errors are not modelled, because neither can fail on a well-formed node. The patch is computed by `Nodes.Diff` over the modelled fields. Only the effect of the taints' lack of a merge key is kept: the list is replaced whole.
- Handling.RetryFrom: follows cenkalti/backoff v4. After a failed attempt, a done context ends the retry with the context's error, and the one-second wait is not modelled. The library version is not part of this model.
- Writing into a nil label map panics in Go. The drain requires the label map to exist, and the tick inputs are restricted to such nodes.
- Version.Get: the clientset type assertion, the retried `ServerVersion` call and its wrapped error are not modelled, because they are I/O.
- Version.Escape: exact for ASCII as `strconv.Quote` writes it. Other characters are kept as they are, whereas Go escapes non-printable ones as `\u` or `\U`, and invalid UTF-8 as `\x`.
- The control-plane client in castai/client.go declares no provider id in its request type. The model follows handler/handler.go, which sets one when the node has it.
- `gcp.go` and `aws.go` implement `Check` on an `InterruptChecker` with no rebalance method. They are modelled as that one check.
- The Azure checker's decoding of the JSON body is not modelled. An undecodable body counts as a transport failure.
- Configuration loading and main.go are not part of this model.
