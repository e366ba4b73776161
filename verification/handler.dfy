/** The spot handler's run loop: a poll ticker, a deadline timer and the
    cancellation signal, one of which is served per iteration. Time is
    counted in seconds since `Run` started. */
module Handler {
  import opened Wrappers
  import opened Errors
  import opened Trace
  import opened Metadata
  import opened Handling
  import TickProperties

  /** The grace period between the first cancellation and the exit, in
      seconds. */
  const GracePeriod := 30

  /** The deadline the loop starts with: a year (24 * 365 hours), in seconds. */
  const InitialDeadline := 24 * 365 * 60 * 60

  /** A timer: when it was last started and for how long, in seconds. */
  datatype Timer = Timer(startedAt: nat, duration: nat)

  /** When the timer fires. */
  function Expiry(t: Timer): nat
  {
    t.startedAt + t.duration
  }

  /** What the loop's `select` receives, and at what time. */
  datatype Event =
    | Tick(at: nat, inputs: TickInputs)   // the poll ticker fired; the answers this tick will get
    | Cancel(at: nat)                     // the context is done
    | DeadlineElapsed(at: nat)            // the deadline timer fired

  predicate EventAdmissible(ev: Event)
  {
    ev.Tick? ==> Admissible(ev.inputs.onInterrupt)
  }

  /** An event from outside the loop: a tick or a cancellation. The deadline
      event is the loop's own timer, which fires at its expiry. */
  predicate Delivered(ev: Event)
  {
    EventAdmissible(ev) && !ev.DeadlineElapsed?
  }

  /** The state of `Run`, with every call made so far. */
  datatype LoopState = LoopState(
    tickerActive: bool,
    rebalanceSent: bool,
    graceArmed: bool,
    deadline: Timer,
    returned: bool,
    now: nat,
    history: seq<Call>)

  /** One iteration of the loop. A tick on a stopped ticker never arrives,
      so it changes nothing. */
  function StepState(nodeName: string, s: LoopState, ev: Event): LoopState
    requires EventAdmissible(ev)
  {
    match ev
    case Tick(at, inputs) =>
      if !s.tickerActive then s
      else
        var o := TickOutcome(nodeName, s.rebalanceSent, inputs);
        s.(tickerActive := !o.stopTicker, rebalanceSent := o.rebalanceSent, now := at,
           history := s.history + o.calls)
    case Cancel(at) =>
      s.(graceArmed := true, deadline := if s.graceArmed then s.deadline else Timer(at, GracePeriod), now := at)
    case DeadlineElapsed(at) =>
      s.(returned := true, now := at)
  }

  /** `Run` from `s` over the delivered events, in order: before each one the
      deadline fires if it has expired by then, and the loop returns. */
  function RunFrom(nodeName: string, s: LoopState, events: seq<Event>): LoopState
    requires forall i :: 0 <= i < |events| ==> Delivered(events[i])
    decreases |events|
  {
    if s.returned || events == [] then s
    else if events[0].at >= Expiry(s.deadline) then StepState(nodeName, s, DeadlineElapsed(Expiry(s.deadline)))
    else
      assert Delivered(events[0]);
      RunFrom(nodeName, StepState(nodeName, s, events[0]), events[1..])
  }

  /** Once the grace period is armed, the loop returns exactly when it
      expires, whatever is delivered meanwhile: a later cancellation does
      not restart the timer. */
  lemma {:induction false} GraceBoundsRun(nodeName: string, s: LoopState, events: seq<Event>)
    requires forall i :: 0 <= i < |events| ==> Delivered(events[i])
    requires s.graceArmed && !s.returned
    requires exists i :: 0 <= i < |events| && events[i].at >= Expiry(s.deadline)
    ensures RunFrom(nodeName, s, events).returned
    ensures RunFrom(nodeName, s, events).deadline == s.deadline
    ensures RunFrom(nodeName, s, events).now == Expiry(s.deadline)
    decreases |events|
  {
    if events[0].at < Expiry(s.deadline) {
      var i :| 0 <= i < |events| && events[i].at >= Expiry(s.deadline);
      assert events[1..][i - 1] == events[i];
      GraceBoundsRun(nodeName, StepState(nodeName, s, events[0]), events[1..]);
    }
  }

  /** A first cancellation at time `t` makes the loop return at `t` plus
      the grace period, provided something is delivered by then. */
  lemma ReturnsAfterGracePeriod(nodeName: string, s: LoopState, t: nat, events: seq<Event>)
    requires forall i :: 0 <= i < |events| ==> Delivered(events[i])
    requires !s.graceArmed && !s.returned && t < Expiry(s.deadline)
    requires exists i :: 0 <= i < |events| && events[i].at >= t + GracePeriod
    ensures RunFrom(nodeName, s, [Cancel(t)] + events).returned
    ensures RunFrom(nodeName, s, [Cancel(t)] + events).now == t + GracePeriod
  {
    var all := [Cancel(t)] + events;
    assert all[1..] == events;
    GraceBoundsRun(nodeName, StepState(nodeName, s, Cancel(t)), events);
  }

  /** The ticker keeps running after a tick whose interruption was reported
      but whose drain failed, so the next tick reports the interruption
      again: each such tick adds one successful report. */
  lemma FailedDrainReportsAgain(nodeName: string, s: LoopState, at: nat, t: TickInputs)
    requires Admissible(t.onInterrupt) && s.tickerActive
    requires t.interrupt == EventPresent && t.onInterrupt.read.Ok? && t.onInterrupt.send.None?
    requires InterruptionOutcome(nodeName, t.onInterrupt).err.Some?
    ensures StepState(nodeName, s, Tick(at, t)).tickerActive
    ensures Count(StepState(nodeName, s, Tick(at, t)).history, SuccessfulInterruptionReport)
         == Count(s.history, SuccessfulInterruptionReport) + 1
  {
    var handled := InterruptionOutcome(nodeName, t.onInterrupt);
    var first := [CheckInterrupt(t.interrupt)];
    TickProperties.TickStop(nodeName, s.rebalanceSent, t);
    TickProperties.InterruptionCounts(nodeName, t.onInterrupt);
    CountNone(first, SuccessfulInterruptionReport);
    CountAppend(first, handled.calls, SuccessfulInterruptionReport);
    CountAppend(s.history, first + handled.calls, SuccessfulInterruptionReport);
  }

  /** The loop's invariant: the calls were made in an allowed order; the
      rebalance recommendation was reported successfully once if the flag
      is set and never otherwise; the drain PATCH succeeded at most once,
      and the ticker is stopped if it did; a stopped ticker means the
      interruption was reported; the deadline is the initial one until the
      grace period is armed, and the loop has returned exactly when it has
      expired. */
  ghost predicate Inv(s: LoopState)
  {
    Ordered(s.history) &&
    Count(s.history, SuccessfulRebalanceReport) == (if s.rebalanceSent then 1 else 0) &&
    Count(s.history, SuccessfulPatch) <= 1 &&
    (Count(s.history, SuccessfulPatch) == 1 ==> !s.tickerActive) &&
    (!s.tickerActive ==> Count(s.history, SuccessfulInterruptionReport) >= 1) &&
    (s.graceArmed ==> s.deadline.duration == GracePeriod) &&
    (!s.graceArmed ==> s.deadline == Timer(0, InitialDeadline)) &&
    s.deadline.startedAt <= s.now &&
    (if s.returned then s.now == Expiry(s.deadline) else s.now < Expiry(s.deadline))
  }

  /** A tick served while the ticker runs keeps the invariant. */
  lemma TickKeepsInv(nodeName: string, s: LoopState, at: nat, t: TickInputs)
    requires Inv(s) && !s.returned && s.tickerActive && Admissible(t.onInterrupt)
    requires s.now <= at < Expiry(s.deadline)
    ensures Inv(StepState(nodeName, s, Tick(at, t)))
  {
    var o := TickOutcome(nodeName, s.rebalanceSent, t);
    TickProperties.TickOrdered(nodeName, s.rebalanceSent, t);
    TickProperties.TickCounts(nodeName, s.rebalanceSent, t);
    OrderedAppend(s.history, o.calls);
    CountAppend(s.history, o.calls, SuccessfulRebalanceReport);
    CountAppend(s.history, o.calls, SuccessfulInterruptionReport);
    CountAppend(s.history, o.calls, SuccessfulPatch);
  }

  /** Every iteration keeps the invariant, provided events come in time
      order and the deadline fires at its expiry, before anything later. */
  lemma StepKeepsInv(nodeName: string, s: LoopState, ev: Event)
    requires Inv(s) && !s.returned && EventAdmissible(ev) && s.now <= ev.at
    requires if ev.DeadlineElapsed? then ev.at == Expiry(s.deadline) else ev.at < Expiry(s.deadline)
    ensures Inv(StepState(nodeName, s, ev))
  {
    if ev.Tick? && s.tickerActive {
      TickKeepsInv(nodeName, s, ev.at, ev.inputs);
    }
  }

  class SpotHandler {
    const nodeName: string
    var tickerActive: bool      // the poll ticker has not been stopped
    var rebalanceSent: bool     // rebalanceRecommendationSent
    var graceArmed: bool        // the sync.Once guarding the deadline reset has run
    var deadline: Timer
    var returned: bool          // Run has returned
    var now: nat                // the time of the last event served

    /** Every call made to a collaborator so far, with its outcome. */
    ghost var History: seq<Call>

    ghost function State(): LoopState
      reads this
    {
      LoopState(tickerActive, rebalanceSent, graceArmed, deadline, returned, now, History)
    }

    ghost predicate Valid()
      reads this
    {
      Inv(State())
    }

    /** `NewSpotHandler` followed by the set-up at the start of `Run`. */
    constructor (nodeName: string)
      ensures Valid()
      ensures this.nodeName == nodeName && History == [] && now == 0
      ensures tickerActive && !rebalanceSent && !graceArmed && !returned
      ensures deadline == Timer(0, InitialDeadline)
    {
      this.nodeName := nodeName;
      tickerActive := true;
      rebalanceSent := false;
      graceArmed := false;
      deadline := Timer(0, InitialDeadline);
      returned := false;
      now := 0;
      History := [];
    }

    /** One iteration of the loop. A tick runs the tick body unless the
        ticker is stopped, in which case no tick arrives and nothing happens.
        The first cancellation restarts the deadline with the grace period;
        later ones change nothing. The deadline fires at its expiry and
        makes `Run` return; the other events come before it. */
    method Step(ev: Event) returns (calls: seq<Call>, logged: Option<Error>)
      requires Valid() && !returned && EventAdmissible(ev) && now <= ev.at
      requires if ev.DeadlineElapsed? then ev.at == Expiry(deadline) else ev.at < Expiry(deadline)
      modifies this
      ensures Valid()
      ensures State() == StepState(nodeName, old(State()), ev)
      ensures History == old(History) + calls
      ensures ev.Tick? && old(tickerActive) ==>
        var o := TickOutcome(nodeName, old(rebalanceSent), ev.inputs);
        calls == o.calls && logged == o.err &&
        tickerActive == !o.stopTicker && rebalanceSent == o.rebalanceSent &&
        graceArmed == old(graceArmed) && deadline == old(deadline) && !returned && now == ev.at
      ensures ev.Tick? && !old(tickerActive) ==>
        calls == [] && logged == None && !tickerActive && rebalanceSent == old(rebalanceSent) &&
        graceArmed == old(graceArmed) && deadline == old(deadline) && !returned && now == old(now)
      ensures ev.Cancel? ==>
        calls == [] && logged == None && graceArmed &&
        deadline == (if old(graceArmed) then old(deadline) else Timer(ev.at, GracePeriod)) &&
        tickerActive == old(tickerActive) && rebalanceSent == old(rebalanceSent) && !returned && now == ev.at
      ensures ev.DeadlineElapsed? ==>
        calls == [] && logged == None && returned &&
        tickerActive == old(tickerActive) && rebalanceSent == old(rebalanceSent) &&
        graceArmed == old(graceArmed) && deadline == old(deadline) && now == ev.at
    {
      ghost var s0 := State();
      StepKeepsInv(nodeName, s0, ev);
      calls, logged := [], None;
      match ev
      case Tick(at, inputs) =>
        if tickerActive {
          var o := RunTick(nodeName, rebalanceSent, inputs);
          calls, logged := o.calls, o.err;
          tickerActive := !o.stopTicker;
          rebalanceSent := o.rebalanceSent;
          History := History + calls;
          now := at;
        } else {
          assert History + calls == History;
        }
      case Cancel(at) =>
        if !graceArmed {
          graceArmed := true;
          deadline := Timer(at, GracePeriod);
        }
        assert History + calls == History;
        now := at;
      case DeadlineElapsed(at) =>
        returned := true;
        assert History + calls == History;
        now := at;
    }

    /** One turn of the loop when `next` is the next event delivered: the
        deadline fires instead if it has expired by then; otherwise `next`
        is served. */
    method Serve(next: Event) returns (served: bool)
      requires Valid() && !returned && Delivered(next) && now <= next.at
      modifies this
      ensures Valid()
      ensures served <==> next.at < Expiry(old(deadline))
      ensures State() == StepState(nodeName, old(State()),
                                   if served then next else DeadlineElapsed(Expiry(old(deadline))))
      ensures returned <==> !served
      ensures served ==> now <= next.at
      ensures |History| >= |old(History)| && History[..|old(History)|] == old(History)
    {
      var ev := if next.at >= Expiry(deadline) then DeadlineElapsed(Expiry(deadline)) else next;
      var calls, logged := Step(ev);
      served := !ev.DeadlineElapsed?;
      assert History[..|old(History)|] == old(History);
    }

    /** `Run` over the ticks and cancellations delivered to the loop, in time
        order: each is served by `Step` unless the deadline has expired by
        its time, in which case the deadline fires and `Run` returns nil. */
    method Run(events: seq<Event>) returns (err: Option<Error>, served: nat)
      requires Valid() && !returned
      requires forall i :: 0 <= i < |events| ==> Delivered(events[i])
      requires forall i :: 0 <= i < |events| ==> now <= events[i].at
      requires forall i, j :: 0 <= i < j < |events| ==> events[i].at <= events[j].at
      modifies this
      ensures Valid()
      ensures State() == RunFrom(nodeName, old(State()), events)
      ensures err == None
      ensures served <= |events|
      ensures returned <==> served < |events|
      ensures returned ==> events[served].at >= Expiry(deadline) && now == Expiry(deadline)
      ensures Ordered(History)
      ensures Count(History, SuccessfulRebalanceReport) <= 1 && Count(History, SuccessfulPatch) <= 1
      ensures |History| >= |old(History)| && History[..|old(History)|] == old(History)
    {
      served := 0;
      while served < |events| && !returned
        invariant Valid()
        invariant served <= |events|
        invariant RunFrom(nodeName, old(State()), events) == RunFrom(nodeName, State(), events[served..])
        invariant returned ==> served < |events| && events[served].at >= Expiry(deadline)
        invariant !returned && served < |events| ==> now <= events[served].at
        invariant |History| >= |old(History)| && History[..|old(History)|] == old(History)
        decreases |events| - served, if returned then 0 else 1
      {
        ghost var before := History;
        var servedNext := Serve(events[served]);
        if servedNext {
          assert events[served..][1..] == events[served + 1..];
          served := served + 1;
        }
        assert History[..|before|] == before;
      }
      err := None;
    }
  }
}
