/** Properties of one tick of the handler, stated on the calls it makes
    and the flags it changes. */
module TickProperties {
  import opened Wrappers
  import opened Metadata
  import opened Nodes
  import opened CloudEvents
  import opened Trace
  import opened Handling

  /** The calls of an interruption handling, after the check that detected
      it, are in an allowed order. */
  lemma InterruptionOrdered(nodeName: string, a: InterruptionAnswers)
    requires Admissible(a)
    ensures Ordered([CheckInterrupt(EventPresent)] + InterruptionOutcome(nodeName, a).calls)
  {
    var r := InterruptionOutcome(nodeName, a);
    var h := [CheckInterrupt(EventPresent)] + r.calls;
    forall i | 0 <= i < |h|
      ensures Follows(h, i)
    {
      if i >= 3 {
        var t := TaintOutcome(a.read.value, a.patch);
        assert h[i] == t.calls[i - 3] && h[i - 1] == (if i == 3 then r.calls[1] else t.calls[i - 4]);
      }
    }
  }

  /** The rebalance check may follow once the interruption part is done. */
  lemma RebalanceCheckOrdered(h: seq<Call>, result: CheckResult)
    requires Ordered(h) && h != [] && InterruptionPartDone(h[|h| - 1])
    ensures Ordered(h + [CheckRebalance(result)])
  {
    assert Follows(h + [CheckRebalance(result)], |h|);
    OrderedExtend(h, [CheckRebalance(result)]);
  }

  /** The calls of a rebalance handling, after the check that detected it,
      are in an allowed order. */
  lemma RebalanceOrdered(h: seq<Call>, nodeName: string, a: RebalanceAnswers)
    requires Ordered(h) && h != [] && h[|h| - 1] == CheckRebalance(EventPresent)
    ensures Ordered(h + RebalanceOutcome(nodeName, a).calls)
  {
    var calls := RebalanceOutcome(nodeName, a).calls;
    var g := h + calls;
    forall i | |h| <= i < |g|
      ensures Follows(g, i)
    {
      assert g[i] == calls[i - |h|];
      assert g[|h| - 1] == h[|h| - 1];
      if i > |h| {
        assert g[|h|] == calls[0];
      }
    }
    OrderedExtend(h, calls);
  }

  /** Every tick makes its calls in an allowed order. */
  lemma TickOrdered(nodeName: string, rebalanceSent: bool, t: TickInputs)
    requires Admissible(t.onInterrupt)
    ensures Ordered(TickOutcome(nodeName, rebalanceSent, t).calls)
  {
    var first := [CheckInterrupt(t.interrupt)];
    assert Follows(first, 0);
    if t.interrupt.err.None? {
      var handled := if t.interrupt.value then InterruptionOutcome(nodeName, t.onInterrupt) else Handled([], None);
      var head := first + handled.calls;
      if t.interrupt.value {
        InterruptionOrdered(nodeName, t.onInterrupt);
      } else {
        assert head == first;
      }
      if handled.err.None? && !rebalanceSent {
        var checked := head + [CheckRebalance(t.rebalance)];
        RebalanceCheckOrdered(head, t.rebalance);
        if t.rebalance == EventPresent {
          RebalanceOrdered(checked, nodeName, t.onRebalance);
        }
      }
    }
  }

  /** The drain reports nothing and applies at most one PATCH successfully:
      one exactly when it ends without error on a schedulable node. */
  lemma TaintCounts(node: Node, answers: seq<PatchAnswer>)
    requires |answers| >= MaxAttempts && (!node.unschedulable ==> node.labels.Some?)
    ensures Count(TaintOutcome(node, answers).calls, SuccessfulRebalanceReport) == 0
    ensures Count(TaintOutcome(node, answers).calls, SuccessfulInterruptionReport) == 0
    ensures Count(TaintOutcome(node, answers).calls, SuccessfulPatch)
         == if TaintOutcome(node, answers).err.None? && !node.unschedulable then 1 else 0
  {
    var t := TaintOutcome(node, answers);
    CountNone(t.calls, SuccessfulRebalanceReport);
    CountNone(t.calls, SuccessfulInterruptionReport);
    if t.err.None? && !node.unschedulable {
      CountOne(t.calls, SuccessfulPatch, |t.calls| - 1);
    } else {
      CountNone(t.calls, SuccessfulPatch);
    }
  }

  /** An interruption handling reports the interruption once when the read
      and the report succeed, never reports a rebalance, and applies at most
      one PATCH successfully, and only when it ends without error. */
  lemma InterruptionCounts(nodeName: string, a: InterruptionAnswers)
    requires Admissible(a)
    ensures Count(InterruptionOutcome(nodeName, a).calls, SuccessfulRebalanceReport) == 0
    ensures Count(InterruptionOutcome(nodeName, a).calls, SuccessfulInterruptionReport)
         == if a.read.Ok? && a.send.None? then 1 else 0
    ensures Count(InterruptionOutcome(nodeName, a).calls, SuccessfulPatch)
         == if InterruptionOutcome(nodeName, a).err.None? && a.read.Ok? && !a.read.value.unschedulable then 1 else 0
  {
    var r := InterruptionOutcome(nodeName, a);
    if a.read.Err? || a.send.Some? {
      assert forall i :: 0 <= i < |r.calls| ==> !r.calls[i].Patch? && !(r.calls[i].SendCloudEvent? && r.calls[i].ok);
      CountNone(r.calls, SuccessfulRebalanceReport);
      CountNone(r.calls, SuccessfulInterruptionReport);
      CountNone(r.calls, SuccessfulPatch);
    } else {
      var head := r.calls[..2];
      var t := TaintOutcome(a.read.value, a.patch);
      assert r.calls == head + t.calls;
      TaintCounts(a.read.value, a.patch);
      CountAppend(head, t.calls, SuccessfulRebalanceReport);
      CountAppend(head, t.calls, SuccessfulInterruptionReport);
      CountAppend(head, t.calls, SuccessfulPatch);
      CountNone(head, SuccessfulRebalanceReport);
      CountOne(head, SuccessfulInterruptionReport, 1);
      CountNone(head, SuccessfulPatch);
    }
  }

  /** A rebalance handling reports the recommendation once exactly when it
      ends without error, and reports nothing else and patches nothing. */
  lemma RebalanceCounts(nodeName: string, a: RebalanceAnswers)
    ensures Count(RebalanceOutcome(nodeName, a).calls, SuccessfulRebalanceReport)
         == if RebalanceOutcome(nodeName, a).err.None? then 1 else 0
    ensures Count(RebalanceOutcome(nodeName, a).calls, SuccessfulInterruptionReport) == 0
    ensures Count(RebalanceOutcome(nodeName, a).calls, SuccessfulPatch) == 0
  {
    var r := RebalanceOutcome(nodeName, a);
    CountNone(r.calls, SuccessfulInterruptionReport);
    CountNone(r.calls, SuccessfulPatch);
    if r.err.None? {
      CountOne(r.calls, SuccessfulRebalanceReport, 1);
    } else {
      CountNone(r.calls, SuccessfulRebalanceReport);
    }
  }

  /** How a tick stops the ticker: exactly when an interruption was detected
      and handled without error. A failed handling ends the tick before the
      rebalance check, with the ticker running and the flag unchanged. */
  lemma TickStop(nodeName: string, rebalanceSent: bool, t: TickInputs)
    requires Admissible(t.onInterrupt)
    ensures TickOutcome(nodeName, rebalanceSent, t).stopTicker <==>
      t.interrupt == EventPresent && InterruptionOutcome(nodeName, t.onInterrupt).err.None?
    ensures t.interrupt == EventPresent && InterruptionOutcome(nodeName, t.onInterrupt).err.Some? ==>
      TickOutcome(nodeName, rebalanceSent, t) == TickEffect(
        [CheckInterrupt(t.interrupt)] + InterruptionOutcome(nodeName, t.onInterrupt).calls,
        InterruptionOutcome(nodeName, t.onInterrupt).err, false, rebalanceSent)
  {
  }

  /** How a tick changes the "rebalance recommendation sent" flag: it is set
      only after a detected recommendation was reported without error, and
      while it is set the rebalance check is never made. */
  lemma TickRebalanceFlag(nodeName: string, rebalanceSent: bool, t: TickInputs)
    requires Admissible(t.onInterrupt)
    ensures TickOutcome(nodeName, rebalanceSent, t).rebalanceSent != rebalanceSent ==>
      !rebalanceSent && t.rebalance == EventPresent && RebalanceOutcome(nodeName, t.onRebalance).err.None?
    ensures rebalanceSent ==> forall i :: 0 <= i < |TickOutcome(nodeName, rebalanceSent, t).calls| ==>
      !TickOutcome(nodeName, rebalanceSent, t).calls[i].CheckRebalance?
  {
    var o := TickOutcome(nodeName, rebalanceSent, t);
    if rebalanceSent && t.interrupt.err.None? && t.interrupt.value {
      var handled := InterruptionOutcome(nodeName, t.onInterrupt);
      forall i | 0 <= i < |o.calls|
        ensures !o.calls[i].CheckRebalance?
      {
        if i > 0 {
          assert o.calls[i] == handled.calls[i - 1];
        }
      }
    }
  }

  /** Whether a tick gets as far as the rebalance check. */
  predicate ReachesRebalanceCheck(nodeName: string, rebalanceSent: bool, t: TickInputs)
    requires Admissible(t.onInterrupt)
  {
    t.interrupt.err.None? && !rebalanceSent &&
    (t.interrupt.value ==> InterruptionOutcome(nodeName, t.onInterrupt).err.None?)
  }

  /** How many calls of a tick satisfy `p`, for a `p` that no check
      satisfies: those of the interruption handling plus those of the
      rebalance handling, each counted when the tick gets to it. */
  lemma TickCallCount(nodeName: string, rebalanceSent: bool, t: TickInputs, p: Call -> bool)
    requires Admissible(t.onInterrupt)
    requires forall r :: !p(CheckInterrupt(r)) && !p(CheckRebalance(r))
    ensures Count(TickOutcome(nodeName, rebalanceSent, t).calls, p) ==
      (if t.interrupt.err.None? && t.interrupt.value
       then Count(InterruptionOutcome(nodeName, t.onInterrupt).calls, p) else 0) +
      (if ReachesRebalanceCheck(nodeName, rebalanceSent, t) && t.rebalance == EventPresent
       then Count(RebalanceOutcome(nodeName, t.onRebalance).calls, p) else 0)
  {
    var first := [CheckInterrupt(t.interrupt)];
    CountNone(first, p);
    if t.interrupt.err.None? {
      var handled := if t.interrupt.value then InterruptionOutcome(nodeName, t.onInterrupt) else Handled([], None);
      var head := first + handled.calls;
      CountAppend(first, handled.calls, p);
      if !t.interrupt.value {
        CountNone(handled.calls, p);
      }
      if handled.err.None? && !rebalanceSent {
        var checked := head + [CheckRebalance(t.rebalance)];
        CountNone([CheckRebalance(t.rebalance)], p);
        CountAppend(head, [CheckRebalance(t.rebalance)], p);
        if t.rebalance == EventPresent {
          CountAppend(checked, RebalanceOutcome(nodeName, t.onRebalance).calls, p);
        }
      }
    }
  }

  /** Over one tick: the rebalance recommendation is reported successfully
      once when the tick sets the flag and never otherwise; at most one PATCH
      succeeds, and then the ticker stops; the ticker stops only after a
      successful report of the interruption. */
  lemma TickCounts(nodeName: string, rebalanceSent: bool, t: TickInputs)
    requires Admissible(t.onInterrupt)
    ensures Count(TickOutcome(nodeName, rebalanceSent, t).calls, SuccessfulRebalanceReport)
         == if TickOutcome(nodeName, rebalanceSent, t).rebalanceSent && !rebalanceSent then 1 else 0
    ensures Count(TickOutcome(nodeName, rebalanceSent, t).calls, SuccessfulPatch) <= 1
    ensures Count(TickOutcome(nodeName, rebalanceSent, t).calls, SuccessfulPatch) == 1 ==>
      TickOutcome(nodeName, rebalanceSent, t).stopTicker
    ensures TickOutcome(nodeName, rebalanceSent, t).stopTicker ==>
      Count(TickOutcome(nodeName, rebalanceSent, t).calls, SuccessfulInterruptionReport) >= 1
  {
    TickCallCount(nodeName, rebalanceSent, t, SuccessfulRebalanceReport);
    TickCallCount(nodeName, rebalanceSent, t, SuccessfulInterruptionReport);
    TickCallCount(nodeName, rebalanceSent, t, SuccessfulPatch);
    InterruptionCounts(nodeName, t.onInterrupt);
    RebalanceCounts(nodeName, t.onRebalance);
  }
}
