/** The external calls the handler makes, recorded with their outcome, and
    the order in which the handler is allowed to make them. */
module Trace {
  import opened Metadata
  import opened Nodes
  import opened CloudEvents

  /** `defaultBackoff`: at most five retries after the first PATCH. */
  const MaxRetries := 5
  const MaxAttempts := MaxRetries + 1

  /** One call to a collaborator and whether it succeeded. */
  datatype Call =
    | CheckInterrupt(result: CheckResult)
    | CheckRebalance(result: CheckResult)
    | GetNode(name: string, ok: bool)
    | SendCloudEvent(request: CloudEventRequest, ok: bool)
    | Patch(name: string, patch: NodePatch, attempt: nat, ok: bool)

  /** A check that found its event without error. */
  predicate Detected(c: Call)
  {
    (c.CheckInterrupt? || c.CheckRebalance?) && c.result == EventPresent
  }

  /** The event tag a detection leads to. */
  function TagFor(c: Call): string
  {
    if c.CheckInterrupt? then EventInterrupted else EventRebalanceRecommendation
  }

  predicate SuccessfulInterruptionReport(c: Call)
  {
    c.SendCloudEvent? && c.ok && c.request.eventType == EventInterrupted
  }

  predicate SuccessfulRebalanceReport(c: Call)
  {
    c.SendCloudEvent? && c.ok && c.request.eventType == EventRebalanceRecommendation
  }

  predicate SuccessfulPatch(c: Call)
  {
    c.Patch? && c.ok
  }

  /** A call after which the interruption part of a tick is over without
      error: no interruption, or an interruption reported (and the node, if
      it needed it, drained). */
  predicate InterruptionPartDone(c: Call)
  {
    (c.CheckInterrupt? && c.result == NoEvent) || SuccessfulInterruptionReport(c) || SuccessfulPatch(c)
  }

  /** What may come right before the `i`th call: a node is read only after
      a detection, an event is sent only after a successful read and carries
      the tag of that detection, the first PATCH only after the interruption
      was reported, every further PATCH only after a failed one, at most
      `MaxAttempts` in a row, and the rebalance check only once the
      interruption part is done. A check of interruption may come after
      anything: it starts a tick. */
  predicate Follows(h: seq<Call>, i: nat)
    requires i < |h|
  {
    match h[i]
    case CheckInterrupt(_) => true
    case CheckRebalance(_) => i > 0 && InterruptionPartDone(h[i - 1])
    case GetNode(_, _) => i > 0 && Detected(h[i - 1])
    case SendCloudEvent(req, _) =>
      i > 1 && h[i - 1].GetNode? && h[i - 1].ok && Detected(h[i - 2]) && req.eventType == TagFor(h[i - 2])
    case Patch(_, _, n, _) =>
      i > 0 && 1 <= n <= MaxAttempts &&
      if n == 1 then SuccessfulInterruptionReport(h[i - 1])
      else h[i - 1].Patch? && !h[i - 1].ok && h[i - 1].attempt == n - 1
  }

  ghost predicate Ordered(h: seq<Call>)
  {
    forall i :: 0 <= i < |h| ==> Follows(h, i)
  }

  /** Traces of whole ticks can be put one after the other: a tick starts
      with a check of interruption, which needs nothing before it. */
  lemma OrderedAppend(a: seq<Call>, b: seq<Call>)
    requires Ordered(a) && Ordered(b)
    ensures Ordered(a + b)
  {
    forall i | 0 <= i < |a + b|
      ensures Follows(a + b, i)
    {
      if i < |a| {
        assert Follows(a, i);
        assert (a + b)[i] == a[i];
        assert i > 0 ==> (a + b)[i - 1] == a[i - 1];
        assert i > 1 ==> (a + b)[i - 2] == a[i - 2];
      } else {
        var j := i - |a|;
        assert Follows(b, j);
        assert (a + b)[i] == b[j];
        assert j > 0 ==> (a + b)[i - 1] == b[j - 1];
        assert j > 1 ==> (a + b)[i - 2] == b[j - 2];
      }
    }
  }

  /** An ordered trace stays ordered when every added call follows what
      comes before it. */
  lemma OrderedExtend(a: seq<Call>, b: seq<Call>)
    requires Ordered(a)
    requires forall i :: |a| <= i < |a + b| ==> Follows(a + b, i)
    ensures Ordered(a + b)
  {
    forall i | 0 <= i < |a + b|
      ensures Follows(a + b, i)
    {
      if i < |a| {
        assert Follows(a, i);
        assert (a + b)[i] == a[i];
        assert i > 0 ==> (a + b)[i - 1] == a[i - 1];
        assert i > 1 ==> (a + b)[i - 2] == a[i - 2];
      }
    }
  }

  /** How many calls of a trace satisfy `p`. */
  function Count(h: seq<Call>, p: Call -> bool): nat
  {
    if h == [] then 0 else (if p(h[0]) then 1 else 0) + Count(h[1..], p)
  }

  lemma {:induction false} CountAppend(a: seq<Call>, b: seq<Call>, p: Call -> bool)
    ensures Count(a + b, p) == Count(a, p) + Count(b, p)
  {
    if a != [] {
      assert (a + b)[0] == a[0] && (a + b)[1..] == a[1..] + b;
      CountAppend(a[1..], b, p);
    } else {
      assert a + b == b;
    }
  }

  lemma {:induction false} CountNone(h: seq<Call>, p: Call -> bool)
    requires forall i :: 0 <= i < |h| ==> !p(h[i])
    ensures Count(h, p) == 0
  {
    if h != [] {
      CountNone(h[1..], p);
    }
  }

  lemma {:induction false} CountOne(h: seq<Call>, p: Call -> bool, k: nat)
    requires k < |h| && p(h[k])
    requires forall i :: 0 <= i < |h| && i != k ==> !p(h[i])
    ensures Count(h, p) == 1
  {
    if k == 0 {
      CountNone(h[1..], p);
    } else {
      CountOne(h[1..], p, k - 1);
    }
  }

  lemma {:induction false} CountSome(h: seq<Call>, p: Call -> bool, k: nat)
    requires k < |h| && p(h[k])
    ensures Count(h, p) >= 1
  {
    if k > 0 {
      CountSome(h[1..], p, k - 1);
    }
  }
}
