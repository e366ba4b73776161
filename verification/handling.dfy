/** What one tick of the handler does: the interruption sequence (read the
    node, report, drain), the rebalance sequence (read the node, report) and
    the PATCH with its bounded retry. The collaborators' answers are inputs;
    what the handler asks of them comes out as a trace of calls.

    Each operation has a function that states its outcome and a method that
    performs it step by step, proved to produce that outcome. */
module Handling {
  import opened Wrappers
  import opened Errors
  import opened Metadata
  import opened Nodes
  import opened CloudEvents
  import opened Trace

  /** The answer to one PATCH, and whether the tick's context is done by the
      time the retry policy next looks at it (before deciding on another
      attempt, or while it waits the one-second interval). */
  datatype PatchAnswer = PatchAnswer(err: Option<Error>, cancelled: bool)

  /** What the cluster API and the reporter answer while an interruption is
      handled. Only as many answers are used as calls are made. */
  datatype InterruptionAnswers = InterruptionAnswers(read: Result<Node, Error>, send: Option<Error>, patch: seq<PatchAnswer>)

  /** What they answer while a rebalance recommendation is handled. */
  datatype RebalanceAnswers = RebalanceAnswers(read: Result<Node, Error>, send: Option<Error>)

  /** Answers the model can take: one for each PATCH the policy may issue,
      and a label map on a node that is going to be drained. */
  predicate Admissible(a: InterruptionAnswers)
  {
    |a.patch| >= MaxAttempts &&
    (a.read.Ok? && !a.read.value.unschedulable ==> a.read.value.labels.Some?)
  }

  datatype RetryResult = RetryResult(attempts: nat, err: Option<Error>)

  /** The calls made by a sequence and the error it returns. */
  datatype Handled = Handled(calls: seq<Call>, err: Option<Error>)

  // ---------------------------------------------------------------------------
  // patchNode and its retry policy

  /** `backoff.Retry` under `defaultBackoff`, from attempt `k` (counted from
      0) on: stop on success; after a failure, stop with the context's error
      when it is done, or with the failure itself when the five retries are
      spent; otherwise try again. */
  function RetryFrom(answers: seq<PatchAnswer>, k: nat): (r: RetryResult)
    requires k < MaxAttempts <= |answers|
    ensures k < r.attempts <= MaxAttempts
    ensures forall j :: k <= j < r.attempts - 1 ==> answers[j].err.Some? && !answers[j].cancelled
    ensures r.err.None? <==> answers[r.attempts - 1].err.None?
    ensures r.err.Some? && answers[r.attempts - 1].cancelled ==> r.err == Some(ContextDone)
    ensures r.err.Some? && !answers[r.attempts - 1].cancelled ==>
      r.attempts == MaxAttempts && r.err == answers[r.attempts - 1].err
    decreases MaxAttempts - k
  {
    var a := answers[k];
    if a.err.None? then RetryResult(k + 1, None)
    else if a.cancelled then RetryResult(k + 1, Some(ContextDone))
    else if k + 1 == MaxAttempts then RetryResult(k + 1, a.err)
    else RetryFrom(answers, k + 1)
  }

  /** The first `n` PATCH calls, each carrying the same patch. */
  function PatchCalls(name: string, patch: NodePatch, answers: seq<PatchAnswer>, n: nat): (r: seq<Call>)
    requires n <= |answers|
    ensures |r| == n
    ensures forall i :: 0 <= i < n ==> r[i] == Patch(name, patch, i + 1, answers[i].err.None?)
  {
    if n == 0 then [] else PatchCalls(name, patch, answers, n - 1) + [Patch(name, patch, n, answers[n - 1].err.None?)]
  }

  /** `patchNode`: apply the change to the node; if it fails, nothing is
      sent. Otherwise PATCH the fields that changed, retried as the policy
      says; an exhausted or cancelled retry is wrapped as "patching node". */
  function PatchOutcome(node: Node, change: Node --> Result<Node, Error>, answers: seq<PatchAnswer>): (r: Handled)
    requires change.requires(node) && |answers| >= MaxAttempts
    ensures change(node).Err? ==> r == Handled([], Some(change(node).error))
    ensures change(node).Ok? ==> 1 <= |r.calls| <= MaxAttempts
    ensures change(node).Ok? ==> forall i :: 0 <= i < |r.calls| ==>
      r.calls[i] == Patch(change(node).value.name, Diff(node, change(node).value), i + 1, answers[i].err.None?)
    ensures forall i :: 0 <= i < |r.calls| - 1 ==> !r.calls[i].ok
    ensures r.err.None? <==> |r.calls| > 0 && r.calls[|r.calls| - 1].ok
    ensures change(node).Ok? && r.err.Some? ==> r.err.value.Wrapped? && r.err.value.context == "patching node"
  {
    match change(node)
    case Err(e) => Handled([], Some(e))
    case Ok(after) =>
      var o := RetryFrom(answers, 0);
      Handled(PatchCalls(after.name, Diff(node, after), answers, o.attempts),
              if o.err.Some? then Some(Wrapped("patching node", o.err.value)) else None)
  }

  method PatchNode(node: Node, change: Node --> Result<Node, Error>, answers: seq<PatchAnswer>) returns (r: Handled)
    requires change.requires(node) && |answers| >= MaxAttempts
    ensures r == PatchOutcome(node, change, answers)
  {
    var changed := change(node);
    if changed.Err? {
      return Handled([], Some(changed.error));
    }
    var after := changed.value;
    var patch := Diff(node, after);
    var calls: seq<Call> := [];
    var attempt := 0;
    var err: Option<Error> := None;
    var done := false;
    while !done
      invariant attempt <= MaxAttempts
      invariant calls == PatchCalls(after.name, patch, answers, attempt)
      invariant !done ==> attempt < MaxAttempts && RetryFrom(answers, attempt) == RetryFrom(answers, 0)
      invariant done ==> RetryFrom(answers, 0) == RetryResult(attempt, err)
      decreases MaxAttempts - attempt
    {
      var answer := answers[attempt];
      calls := calls + [Patch(after.name, patch, attempt + 1, answer.err.None?)];
      attempt := attempt + 1;
      if answer.err.None? {
        err, done := None, true;
      } else if answer.cancelled {
        err, done := Some(ContextDone), true;
      } else if attempt == MaxAttempts {
        err, done := answer.err, true;
      }
    }
    r := Handled(calls, if err.Some? then Some(Wrapped("patching node", err.value)) else None);
  }

  // ---------------------------------------------------------------------------
  // taintNode

  /** The drain as the change function `taintNode` passes to `patchNode`;
      it never fails. */
  function DrainChange(n: Node): (r: Result<Node, Error>)
    requires n.labels.Some?
    ensures r.Ok? && r.value == Drain(n)
  {
    Ok(Drain(n))
  }

  /** `taintNode`: nothing to do on an unschedulable node; otherwise the
      drain patch, its error wrapped again as "patching node unschedulable". */
  function TaintOutcome(node: Node, answers: seq<PatchAnswer>): (r: Handled)
    requires |answers| >= MaxAttempts && (!node.unschedulable ==> node.labels.Some?)
    ensures node.unschedulable ==> r == Handled([], None)
    ensures !node.unschedulable ==> 1 <= |r.calls| <= MaxAttempts
    ensures forall i :: 0 <= i < |r.calls| ==>
      r.calls[i] == Patch(node.name, Diff(node, Drain(node)), i + 1, answers[i].err.None?)
    ensures forall i :: 0 <= i < |r.calls| - 1 ==> !r.calls[i].ok
    ensures r.err.None? <==> node.unschedulable || r.calls[|r.calls| - 1].ok
    ensures r.err.Some? ==>
      r.err.value.Wrapped? && r.err.value.context == "patching node unschedulable" &&
      r.err.value.cause.Wrapped? && r.err.value.cause.context == "patching node"
  {
    if node.unschedulable then Handled([], None)
    else
      var p := PatchOutcome(node, DrainChange, answers);
      Handled(p.calls, if p.err.Some? then Some(Wrapped("patching node unschedulable", p.err.value)) else None)
  }

  method TaintNode(node: Node, answers: seq<PatchAnswer>) returns (r: Handled)
    requires |answers| >= MaxAttempts && (!node.unschedulable ==> node.labels.Some?)
    ensures r == TaintOutcome(node, answers)
  {
    if node.unschedulable {
      return Handled([], None);
    }
    var p := PatchNode(node, DrainChange, answers);
    if p.err.Some? {
      return Handled(p.calls, Some(Wrapped("patching node unschedulable", p.err.value)));
    }
    return p;
  }

  // ---------------------------------------------------------------------------
  // handleInterruption and handleRebalanceRecommendation

  /** `handleInterruption`: read the node, report the interruption, then
      drain. A failed read ends it before any report; a failed report ends
      it before any PATCH. */
  function InterruptionOutcome(nodeName: string, a: InterruptionAnswers): (r: Handled)
    requires Admissible(a)
    ensures |r.calls| >= 1 && r.calls[0] == GetNode(nodeName, a.read.Ok?)
    ensures a.read.Err? ==> r == Handled([GetNode(nodeName, false)], Some(a.read.error))
    ensures a.read.Ok? ==>
      |r.calls| >= 2 && r.calls[1] == SendCloudEvent(BuildRequest(EventInterrupted, a.read.value), a.send.None?)
    ensures a.read.Ok? && a.send.Some? ==> |r.calls| == 2 && r.err == a.send
    ensures forall i :: 0 <= i < |r.calls| && r.calls[i].Patch? ==>
      i >= 2 && a.read.Ok? && a.send.None? && !a.read.value.unschedulable
    ensures a.read.Ok? && a.send.None? ==> r == Handled(r.calls[..2] + TaintOutcome(a.read.value, a.patch).calls, TaintOutcome(a.read.value, a.patch).err)
    ensures r.err.None? ==> InterruptionPartDone(r.calls[|r.calls| - 1])
  {
    match a.read
    case Err(e) => Handled([GetNode(nodeName, false)], Some(e))
    case Ok(node) =>
      var request := BuildRequest(EventInterrupted, node);
      if a.send.Some? then
        Handled([GetNode(nodeName, true), SendCloudEvent(request, false)], a.send)
      else
        var t := TaintOutcome(node, a.patch);
        Handled([GetNode(nodeName, true), SendCloudEvent(request, true)] + t.calls, t.err)
  }

  method HandleInterruption(nodeName: string, a: InterruptionAnswers) returns (r: Handled)
    requires Admissible(a)
    ensures r == InterruptionOutcome(nodeName, a)
  {
    if a.read.Err? {
      return Handled([GetNode(nodeName, false)], Some(a.read.error));
    }
    var node := a.read.value;
    var request := BuildRequest(EventInterrupted, node);
    if a.send.Some? {
      return Handled([GetNode(nodeName, true), SendCloudEvent(request, false)], a.send);
    }
    var t := TaintNode(node, a.patch);
    r := Handled([GetNode(nodeName, true), SendCloudEvent(request, true)] + t.calls, t.err);
  }

  /** `handleRebalanceRecommendation`: read the node and report; it never
      touches the node. */
  function RebalanceOutcome(nodeName: string, a: RebalanceAnswers): (r: Handled)
    ensures |r.calls| >= 1 && r.calls[0] == GetNode(nodeName, a.read.Ok?)
    ensures a.read.Err? ==> r == Handled([GetNode(nodeName, false)], Some(a.read.error))
    ensures a.read.Ok? ==> r == Handled(
      [GetNode(nodeName, true), SendCloudEvent(BuildRequest(EventRebalanceRecommendation, a.read.value), a.send.None?)],
      a.send)
    ensures forall i :: 0 <= i < |r.calls| ==> !r.calls[i].Patch?
  {
    match a.read
    case Err(e) => Handled([GetNode(nodeName, false)], Some(e))
    case Ok(node) =>
      Handled([GetNode(nodeName, true), SendCloudEvent(BuildRequest(EventRebalanceRecommendation, node), a.send.None?)], a.send)
  }

  method HandleRebalanceRecommendation(nodeName: string, a: RebalanceAnswers) returns (r: Handled)
    ensures r == RebalanceOutcome(nodeName, a)
  {
    if a.read.Err? {
      return Handled([GetNode(nodeName, false)], Some(a.read.error));
    }
    var request := BuildRequest(EventRebalanceRecommendation, a.read.value);
    r := Handled([GetNode(nodeName, true), SendCloudEvent(request, a.send.None?)], a.send);
  }

  // ---------------------------------------------------------------------------
  // One tick

  /** What the checker and the collaborators answer during one tick. */
  datatype TickInputs = TickInputs(
    interrupt: CheckResult,
    onInterrupt: InterruptionAnswers,
    rebalance: CheckResult,
    onRebalance: RebalanceAnswers)

  /** The effect of one tick: its calls, the error it logs, whether it stops
      the ticker, and the new value of the "rebalance recommendation sent"
      flag. */
  datatype TickEffect = TickEffect(calls: seq<Call>, err: Option<Error>, stopTicker: bool, rebalanceSent: bool)

  /** The body of the ticker branch of `Run`. */
  function TickOutcome(nodeName: string, rebalanceSent: bool, t: TickInputs): (o: TickEffect)
    requires Admissible(t.onInterrupt)
    ensures |o.calls| >= 1 && o.calls[0] == CheckInterrupt(t.interrupt)
    ensures t.interrupt.err.Some? ==> o == TickEffect([CheckInterrupt(t.interrupt)], t.interrupt.err, false, rebalanceSent)
    ensures rebalanceSent ==> o.rebalanceSent
  {
    var first := [CheckInterrupt(t.interrupt)];
    if t.interrupt.err.Some? then TickEffect(first, t.interrupt.err, false, rebalanceSent)
    else
      var handled := if t.interrupt.value then InterruptionOutcome(nodeName, t.onInterrupt) else Handled([], None);
      var head := first + handled.calls;
      if handled.err.Some? then TickEffect(head, handled.err, false, rebalanceSent)
      else if rebalanceSent then TickEffect(head, None, t.interrupt.value, true)
      else
        var checked := head + [CheckRebalance(t.rebalance)];
        if t.rebalance.err.Some? then TickEffect(checked, t.rebalance.err, t.interrupt.value, false)
        else if !t.rebalance.value then TickEffect(checked, None, t.interrupt.value, false)
        else
          var reported := RebalanceOutcome(nodeName, t.onRebalance);
          TickEffect(checked + reported.calls, reported.err, t.interrupt.value, reported.err.None?)
  }

  method RunTick(nodeName: string, rebalanceSent: bool, t: TickInputs) returns (o: TickEffect)
    requires Admissible(t.onInterrupt)
    ensures o == TickOutcome(nodeName, rebalanceSent, t)
  {
    var calls := [CheckInterrupt(t.interrupt)];
    if t.interrupt.err.Some? {
      return TickEffect(calls, t.interrupt.err, false, rebalanceSent);
    }
    var stop := false;
    if t.interrupt.value {
      var handled := HandleInterruption(nodeName, t.onInterrupt);
      calls := calls + handled.calls;
      if handled.err.Some? {
        return TickEffect(calls, handled.err, false, rebalanceSent);
      }
      stop := true;
    }
    var sent := rebalanceSent;
    if !sent {
      calls := calls + [CheckRebalance(t.rebalance)];
      if t.rebalance.err.Some? {
        return TickEffect(calls, t.rebalance.err, stop, sent);
      }
      if t.rebalance.value {
        var reported := HandleRebalanceRecommendation(nodeName, t.onRebalance);
        calls := calls + reported.calls;
        if reported.err.Some? {
          return TickEffect(calls, reported.err, stop, sent);
        }
        sent := true;
      }
    }
    o := TickEffect(calls, None, stop, sent);
  }
}
