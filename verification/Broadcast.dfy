/** RunUnclaimed as a whole: the set-up and the deferred calls, the beacon channel with its
    goroutines, and the PIN that every payload carries. A payload stands for its PIN. */
module Broadcast {
  import opened Prelude
  import opened Runs
  import T = Teardown
  import B = Beacon
  import P = Pin

  datatype State = State(td: T.State, beacon: B.Pipeline, holder: P.Holder, invalidated: bool)

  datatype Event =
    | Around(step: T.Event)
    | First(now: P.Clock, d: P.Draw)
    | Advertise(now: P.Clock, d: P.Draw)
    | Tick(now: P.Clock, d: P.Draw)
    | Goroutine(act: B.Event)
    | Invalidate(now: P.Clock)

  const START := State(T.START, B.START, P.FRESH, false)

  /** What the two goroutines do by themselves. */
  predicate IsGoroutine(act: B.Event) {
    !act.FirstBeacon? && !act.Tick? && !act.Cancel?
  }

  /** The first beacon is queued before the advertiser is started, which reads the PIN too; a
      returned claim invalidates the PIN before the deferred calls run. */
  predicate Enabled(s: State, e: Event) {
    match e
    case Around(step) =>
      && T.Enabled(s.td, step)
      && (step.StartMdns? ==> !s.beacon.producer.NotStarted?)
      && (s.td.main == T.Unwinding(true) && (step.RunDeferred? || step.Return?) ==> s.invalidated)
    case First(_, _) => s.td.main.ContextMade? && s.beacon.producer.NotStarted?
    case Advertise(_, _) => s.td.main.ContextMade? && !s.beacon.producer.NotStarted?
    case Tick(_, _) => s.beacon.producer.Waiting?
    case Goroutine(act) => IsGoroutine(act) && B.Enabled(s.beacon, act)
    case Invalidate(_) => s.td.main == T.Unwinding(true) && !s.invalidated
  }

  /** The producer learns of a cancelled beacon context. */
  function AfterAround(s: State, step: T.Event): State
    requires T.Enabled(s.td, step)
  {
    var td := T.Step(s.td, step);
    s.(td := td, beacon := if T.BeaconDone(td) then B.Step(s.beacon, B.Cancel) else s.beacon)
  }

  function Step(s: State, e: Event): State
    requires Enabled(s, e)
  {
    match e
    case Around(step) => AfterAround(s, step)
    case First(now, d) =>
      var h := P.AfterCurrent(s.holder, now, d);
      s.(holder := h, beacon := B.Step(s.beacon, B.FirstBeacon(h.pin)))
    case Advertise(now, d) => s.(holder := P.AfterCurrent(s.holder, now, d))
    case Tick(now, d) =>
      var h := P.AfterCurrent(s.holder, now, d);
      s.(holder := h, beacon := B.Step(s.beacon, B.Tick(h.pin)))
    case Goroutine(act) => s.(beacon := B.Step(s.beacon, act))
    case Invalidate(_) => s.(holder := P.FRESH, invalidated := true)
  }

  const SYSTEM: (State, Event) -> Option<State> :=
    (s: State, e: Event) => if Enabled(s, e) then Some(Step(s, e)) else None

  // ----- The invariant --------------------------------------------------------------------------

  predicate Quit(p: B.Producer) {
    p.Quitting? || p.Stopped?
  }

  predicate Inv(s: State) {
    && T.Inv(s.td) && B.Inv(s.beacon)
    && (s.beacon.cancelled <==> T.BeaconDone(s.td))
    && (Quit(s.beacon.producer) ==> s.beacon.cancelled)
    && (s.beacon.producer.NotStarted? ==> s.td.main.Dialing? || s.td.main.SocketOpen? || s.td.main.ContextMade?)
  }

  lemma AroundKeeps(s: State, step: T.Event)
    requires Enabled(s, Around(step)) && Inv(s)
    ensures Inv(AfterAround(s, step))
  {
    T.StepKeepsInv(s.td, step);
    B.StepKeepsInv(s.beacon, B.Cancel);
  }

  lemma StepKeepsInv(s: State, e: Event)
    requires Enabled(s, e) && Inv(s)
    ensures Inv(Step(s, e))
  {
    match e {
      case Around(step) => AroundKeeps(s, step);
      case First(now, d) => B.StepKeepsInv(s.beacon, B.FirstBeacon(P.AfterCurrent(s.holder, now, d).pin));
      case Tick(now, d) => B.StepKeepsInv(s.beacon, B.Tick(P.AfterCurrent(s.holder, now, d).pin));
      case Goroutine(act) => B.StepKeepsInv(s.beacon, act);
      case _ =>
    }
  }

  lemma RunKeepsInv(evs: seq<Event>, s: State)
    requires Run(SYSTEM, START, evs) == Some(s)
    ensures Inv(s)
  {
    forall t, e | Inv(t) && SYSTEM(t, e).Some? ensures Inv(SYSTEM(t, e).value) {
      StepKeepsInv(t, e);
    }
    RunKeeps(SYSTEM, t => Inv(t), START, evs);
  }

  // ----- The PIN that a payload carries -------------------------------------------------------------

  /** The calls that a run makes on the PIN object. */
  function CallOf(e: Event): seq<P.Call> {
    match e
    case First(now, d) => [P.CallCurrent(now, d)]
    case Advertise(now, d) => [P.CallCurrent(now, d)]
    case Tick(now, d) => [P.CallCurrent(now, d)]
    case Invalidate(now) => [P.CallInvalidate(now)]
    case _ => []
  }

  function CallsOf(evs: seq<Event>): seq<P.Call> {
    if evs == [] then [] else CallsOf(evs[..|evs| - 1]) + CallOf(evs[|evs| - 1])
  }

  /** The PIN in force after a run. */
  function PinAfter(evs: seq<Event>): string {
    P.HolderAfter(CallsOf(evs)).pin
  }

  predicate Builds(e: Event) {
    e.First? || e.Tick?
  }

  /** For each event that builds a payload, the PIN in force after it. */
  function PinsBuilt(evs: seq<Event>): seq<string> {
    if evs == [] then []
    else PinsBuilt(evs[..|evs| - 1]) + (if Builds(evs[|evs| - 1]) then [PinAfter(evs)] else [])
  }

  /** Every payload built so far, offered to the channel or still in the producer's hand. */
  function Built(p: B.Pipeline): seq<string> {
    B.Payloads(p.log) + (if p.producer.Holding? then [p.producer.payload] else [])
  }

  lemma HolderNext(s: State, e: Event, cs: seq<P.Call>)
    requires Enabled(s, e) && s.holder == P.HolderAfter(cs)
    ensures Step(s, e).holder == P.HolderAfter(cs + CallOf(e))
  {
    if CallOf(e) == [] {
      assert cs + [] == cs;
    } else {
      assert (cs + CallOf(e))[..|cs|] == cs;
    }
  }

  /** The PIN object has seen exactly these calls. */
  lemma {:induction false} HolderIsHistory(evs: seq<Event>, s: State)
    requires Run(SYSTEM, START, evs) == Some(s)
    ensures s.holder == P.HolderAfter(CallsOf(evs))
  {
    if evs == [] {
    } else {
      var before := evs[..|evs| - 1];
      var t := Run(SYSTEM, START, before).value;
      HolderIsHistory(before, t);
      HolderNext(t, evs[|evs| - 1], CallsOf(before));
    }
  }

  lemma OfferedBuilds(p: B.Pipeline, payload: string, next: B.Producer)
    requires !p.closed && !next.Holding?
    ensures Built(B.Offered(p, payload).(producer := next)) == B.Payloads(p.log) + [payload]
  {
  }

  lemma PipelineBuilds(p: B.Pipeline, act: B.Event)
    requires B.Enabled(p, act) && B.Inv(p)
    ensures Built(B.Step(p, act)) ==
            Built(p) + (if act.FirstBeacon? || act.Tick? then [act.payload] else [])
  {
    match act {
      case FirstBeacon(payload) => OfferedBuilds(p, payload, B.Primed);
      case Offer => OfferedBuilds(p, p.producer.payload, B.Waiting);
      case _ =>
    }
  }

  lemma BuiltNext(s: State, e: Event)
    requires Enabled(s, e) && Inv(s)
    ensures var s' := Step(s, e);
            Built(s'.beacon) == Built(s.beacon) + (if Builds(e) then [s'.holder.pin] else [])
  {
    match e {
      case Around(_) => PipelineBuilds(s.beacon, B.Cancel);
      case First(now, d) => PipelineBuilds(s.beacon, B.FirstBeacon(Step(s, e).holder.pin));
      case Tick(now, d) => PipelineBuilds(s.beacon, B.Tick(Step(s, e).holder.pin));
      case Goroutine(act) => PipelineBuilds(s.beacon, act);
      case _ =>
    }
  }

  /** On every run, the payloads built are the PINs in force when they were built: the PIN after
      the calls made up to then. */
  lemma {:induction false} PayloadsArePins(evs: seq<Event>, s: State)
    requires Run(SYSTEM, START, evs) == Some(s)
    ensures Built(s.beacon) == PinsBuilt(evs)
  {
    HolderIsHistory(evs, s);
    if evs == [] {
    } else {
      var before := evs[..|evs| - 1];
      var t := Run(SYSTEM, START, before).value;
      PayloadsArePins(before, t);
      RunKeepsInv(before, t);
      BuiltNext(t, evs[|evs| - 1]);
    }
  }

  /** Event i builds the payload that follows those built before it. */
  lemma {:induction false} PinBuiltAt(evs: seq<Event>, i: nat)
    requires i < |evs| && Builds(evs[i])
    ensures var k := |PinsBuilt(evs[..i])|; k < |PinsBuilt(evs)| && PinsBuilt(evs)[k] == PinAfter(evs[..i + 1])
    decreases |evs|
  {
    var n := |evs| - 1;
    if i == n {
      assert evs[..i + 1] == evs;
    } else {
      assert evs[..n][..i] == evs[..i] && evs[..n][..i + 1] == evs[..i + 1];
      PinBuiltAt(evs[..n], i);
    }
  }

  lemma {:induction false} CallsConcat(a: seq<Event>, b: seq<Event>)
    ensures CallsOf(a + b) == CallsOf(a) + CallsOf(b)
    decreases |b|
  {
    if b == [] {
      assert a + b == a;
    } else {
      assert (a + b)[..|a + b| - 1] == a + b[..|b| - 1];
      CallsConcat(a, b[..|b| - 1]);
    }
  }

  /** Every clock reading of the events is before t. */
  predicate AllBefore(evs: seq<Event>, t: int) {
    forall i :: 0 <= i < |evs| && (evs[i].First? || evs[i].Advertise? || evs[i].Tick?) ==> evs[i].now.mono < t
  }

  predicate NoInvalidate(evs: seq<Event>) {
    forall i :: 0 <= i < |evs| ==> !evs[i].Invalidate?
  }

  lemma {:induction false} CallsAreCurrent(evs: seq<Event>, t: int)
    requires AllBefore(evs, t) && NoInvalidate(evs)
    ensures forall i :: 0 <= i < |CallsOf(evs)| ==> CallsOf(evs)[i].CallCurrent? && CallsOf(evs)[i].now.mono < t
  {
    if evs == [] {
    } else {
      CallsAreCurrent(evs[..|evs| - 1], t);
    }
  }

  /** From any event on that leaves a PIN in force, that PIN stays, until its time is over or it
      is invalidated. */
  lemma PinStays(evs: seq<Event>, more: seq<Event>, t: int)
    requires PinAfter(evs) != "" && P.HolderAfter(CallsOf(evs)).expireAt.mono == Some(t)
    requires AllBefore(more, t) && NoInvalidate(more)
    ensures PinAfter(evs + more) == PinAfter(evs)
  {
    CallsConcat(evs, more);
    CallsAreCurrent(more, t);
    P.StableUntilExpiry(CallsOf(evs), CallsOf(more));
  }

  predicate HasClock(e: Event) {
    e.First? || e.Advertise? || e.Tick? || e.Invalidate?
  }

  /** The monotonic clock never runs backwards. */
  predicate ClockOrdered(evs: seq<Event>) {
    forall i, j :: 0 <= i <= j < |evs| && HasClock(evs[i]) && HasClock(evs[j]) ==> evs[i].now.mono <= evs[j].now.mono
  }

  lemma OrderedBefore(evs: seq<Event>, i: nat, j: nat, t: int)
    requires ClockOrdered(evs) && i < j < |evs| && HasClock(evs[j]) && evs[j].now.mono < t
    ensures AllBefore(evs[i + 1..j + 1], t)
  {
    var more := evs[i + 1..j + 1];
    forall k | 0 <= k < |more| && HasClock(more[k]) ensures more[k].now.mono < t {
      assert more[k] == evs[i + 1 + k];
    }
  }

  lemma NoInvalidateBetween(evs: seq<Event>, i: nat, j: nat)
    requires i < j < |evs| && forall m :: i < m <= j ==> !evs[m].Invalidate?
    ensures NoInvalidate(evs[i + 1..j + 1])
  {
    var more := evs[i + 1..j + 1];
    assert forall k :: 0 <= k < |more| ==> more[k] == evs[i + 1 + k];
  }

  /** Building a payload leaves a PIN in force, with an expiry on the monotonic clock. */
  lemma BuildLeavesPin(evs: seq<Event>, i: nat)
    requires i < |evs| && Builds(evs[i])
    ensures PinAfter(evs[..i + 1]) != "" && P.HolderAfter(CallsOf(evs[..i + 1])).expireAt.mono.Some?
  {
    assert evs[..i + 1][..i] == evs[..i];
    var cs := CallsOf(evs[..i]);
    var c := P.CallCurrent(evs[i].now, evs[i].d);
    assert CallsOf(evs[..i + 1]) == cs + [c] && (cs + [c])[..|cs|] == cs;
    P.MintedIsPin(evs[i].d);
    P.HeldHasExpiry(cs + [c]);
  }

  /** The monotonic expiry of the PIN in force after the first n events. */
  function ExpiryAfter(evs: seq<Event>, n: nat): Option<int>
    requires n <= |evs|
  {
    P.HolderAfter(CallsOf(evs[..n])).expireAt.mono
  }

  /** The payloads that events i and j build carry the same PIN whenever nothing between them
      invalidates it and the later one is built before the monotonic expiry of that PIN. */
  lemma SamePinUntilExpiry(evs: seq<Event>, s: State, i: nat, j: nat)
    requires Run(SYSTEM, START, evs) == Some(s) && ClockOrdered(evs)
    requires i < j < |evs| && Builds(evs[i]) && Builds(evs[j])
    requires forall m :: i < m <= j ==> !evs[m].Invalidate?
    requires ExpiryAfter(evs, i + 1).Some? ==> evs[j].now.mono < ExpiryAfter(evs, i + 1).value
    ensures var k, l := |PinsBuilt(evs[..i])|, |PinsBuilt(evs[..j])|;
            k < |Built(s.beacon)| && l < |Built(s.beacon)| && Built(s.beacon)[k] == Built(s.beacon)[l]
  {
    PayloadsArePins(evs, s);
    PinBuiltAt(evs, i);
    PinBuiltAt(evs, j);
    BuildLeavesPin(evs, i);
    PinStaysBetween(evs, i, j, ExpiryAfter(evs, i + 1).value);
  }

  lemma PinStaysBetween(evs: seq<Event>, i: nat, j: nat, t: int)
    requires ClockOrdered(evs) && i < j < |evs| && HasClock(evs[j]) && evs[j].now.mono < t
    requires forall m :: i < m <= j ==> !evs[m].Invalidate?
    requires PinAfter(evs[..i + 1]) != "" && ExpiryAfter(evs, i + 1) == Some(t)
    ensures PinAfter(evs[..j + 1]) == PinAfter(evs[..i + 1])
  {
    OrderedBefore(evs, i, j, t);
    NoInvalidateBetween(evs, i, j);
    assert evs[..i + 1] + evs[i + 1..j + 1] == evs[..j + 1];
    PinStays(evs[..i + 1], evs[i + 1..j + 1], t);
  }

  // ----- Does a claim stop the beacon? ------------------------------------------------------------

  predicate NoParentCancel(evs: seq<Event>) {
    forall i :: 0 <= i < |evs| ==> evs[i] != Around(T.ParentCancel)
  }

  predicate Broadcasting(s: State) {
    Inv(s) && !s.td.mdns.NotRunning? && !s.td.parentDone
  }

  /** A running advertiser holds up the cancel, so the producer has no reason to quit. */
  lemma NotCancelled(s: State)
    requires Broadcasting(s)
    ensures !s.beacon.cancelled && !Quit(s.beacon.producer)
  {
  }

  lemma BroadcastingStays(s: State, e: Event)
    requires Broadcasting(s) && Enabled(s, e) && e != Around(T.ParentCancel)
    ensures Broadcasting(Step(s, e))
  {
    StepKeepsInv(s, e);
  }

  lemma {:induction false} BroadcastingRun(s: State, more: seq<Event>)
    requires Broadcasting(s) && NoParentCancel(more) && Run(SYSTEM, s, more).Some?
    ensures Broadcasting(Run(SYSTEM, s, more).value)
  {
    if more == [] {
    } else {
      var n := |more| - 1;
      BroadcastingRun(s, more[..n]);
      BroadcastingStays(Run(SYSTEM, s, more[..n]).value, more[n]);
    }
  }

  /** Once the advertiser runs, and unless the caller cancels, the producer never quits, before
      a claim or after it. */
  lemma BeaconGoesOn(evs: seq<Event>, s: State, more: seq<Event>)
    requires Run(SYSTEM, START, evs) == Some(s) && !s.td.mdns.NotRunning? && !s.td.parentDone
    requires NoParentCancel(more) && Run(SYSTEM, s, more).Some?
    ensures !Quit(Run(SYSTEM, s, more).value.beacon.producer)
  {
    RunKeepsInv(evs, s);
    BroadcastingRun(s, more);
    NotCancelled(Run(SYSTEM, s, more).value);
  }

  ghost predicate CanStop(s: State) {
    exists more :: NoParentCancel(more) && Run(SYSTEM, s, more).Some?
                && Run(SYSTEM, s, more).value.beacon.producer.Stopped?
  }

  lemma StopsAfter(s: State, e: Event)
    requires Enabled(s, e) && e != Around(T.ParentCancel) && CanStop(Step(s, e))
    ensures CanStop(s)
  {
    var more :| NoParentCancel(more) && Run(SYSTEM, Step(s, e), more).Some?
             && Run(SYSTEM, Step(s, e), more).value.beacon.producer.Stopped?;
    var evs, s' := OneMore(SYSTEM, s, [], s, e);
    RunConcat(SYSTEM, s, evs, more);
    assert NoParentCancel(evs + more);
  }

  /** A producer whose context is cancelled can quit, whatever it is doing. */
  lemma CancelledStops(s: State)
    requires Inv(s) && s.beacon.cancelled && !s.beacon.producer.NotStarted?
    ensures CanStop(s)
    decreases match s.beacon.producer
              case Primed => 3
              case Holding(_) => 3
              case Waiting => 2
              case Quitting => 1
              case _ => 0
  {
    if s.beacon.producer.Stopped? {
      assert Run(SYSTEM, s, []) == Some(s) && NoParentCancel([]);
    } else {
      var act := match s.beacon.producer
        case Primed => B.StartProducer
        case Holding(_) => B.Offer
        case Waiting => B.Quit
        case _ => B.Close;
      StepKeepsInv(s, Goroutine(act));
      CancelledStops(Step(s, Goroutine(act)));
      StopsAfter(s, Goroutine(act));
    }
  }

  /** The wait is over and the PIN of a returned claim is invalidated. */
  lemma UnwindingStops(s: State)
    requires Inv(s) && s.td.main.Unwinding? && s.td.defers == [T.CloseSocket, T.CancelBeacon]
    requires s.td.main.claimed ==> s.invalidated
    ensures CanStop(s)
  {
    var e := Around(T.RunDeferred);
    StepKeepsInv(s, e);
    CancelledStops(Step(s, e));
    StopsAfter(s, e);
  }

  lemma EndedWaitStops(s: State, claimed: bool)
    requires Inv(s) && s.td.main.WaitingForClaim? && s.td.mdns.NotRunning? && !s.invalidated
    ensures CanStop(Step(s, Around(T.WaitEnds(claimed))))
  {
    var s1 := Step(s, Around(T.WaitEnds(claimed)));
    StepKeepsInv(s, Around(T.WaitEnds(claimed)));
    if claimed {
      var e := Invalidate(P.Clock(0, 0));
      StepKeepsInv(s1, e);
      UnwindingStops(Step(s1, e));
      StopsAfter(s1, e);
    } else {
      UnwindingStops(s1);
    }
  }

  /** The PIN is invalidated only when a claim was returned, and then before the first deferred
      call runs. */
  predicate InvalidatedInTime(s: State) {
    && (s.invalidated ==> s.td.main == T.Unwinding(true) || s.td.main == T.Returned(true))
    && (s.td.main == T.Returned(true) ==> s.invalidated)
    && (s.td.main == T.Unwinding(true) && s.td.beaconCancelled ==> s.invalidated)
    && (s.td.beaconCancelled ==> s.td.main.Unwinding? || s.td.main.Returned?)
  }

  lemma {:induction false} InvalidatedAfterWait(evs: seq<Event>, s: State)
    requires Run(SYSTEM, START, evs) == Some(s)
    ensures InvalidatedInTime(s)
    ensures s.td.main == T.Unwinding(true) && Enabled(s, Around(T.RunDeferred)) ==> s.invalidated
  {
    if evs == [] {
    } else {
      var before := evs[..|evs| - 1];
      var t := Run(SYSTEM, START, before).value;
      InvalidatedAfterWait(before, t);
      InvalidatedNext(t, evs[|evs| - 1]);
    }
  }

  lemma InvalidatedNext(s: State, e: Event)
    requires Enabled(s, e) && InvalidatedInTime(s)
    ensures InvalidatedInTime(Step(s, e))
  {
  }

  /** Unless the caller cancels, the end of the wait, with a claim or without, lets the beacon
      stop exactly when the advertiser had failed to start. */
  lemma BeaconStopsIff(evs: seq<Event>, s: State, claimed: bool)
    requires Run(SYSTEM, START, evs) == Some(s) && s.td.main.WaitingForClaim? && !s.td.parentDone
    ensures CanStop(Step(s, Around(T.WaitEnds(claimed)))) <==> s.td.mdns.NotRunning?
  {
    RunKeepsInv(evs, s);
    InvalidatedAfterWait(evs, s);
    var e := Around(T.WaitEnds(claimed));
    if s.td.mdns.NotRunning? {
      EndedWaitStops(s, claimed);
    } else if CanStop(Step(s, e)) {
      var more :| NoParentCancel(more) && Run(SYSTEM, Step(s, e), more).Some?
               && Run(SYSTEM, Step(s, e), more).value.beacon.producer.Stopped?;
      var evs', s' := OneMore(SYSTEM, START, evs, s, e);
      BeaconGoesOn(evs', s', more);
      assert false;
    }
  }

  ghost predicate CanDrain(s: State) {
    exists more :: NoParentCancel(more) && Run(SYSTEM, s, more).Some?
                && Run(SYSTEM, s, more).value.beacon.sender.Finished?
                && Run(SYSTEM, s, more).value.beacon.log == s.beacon.log
  }

  lemma DrainsAfter(s: State, e: Event)
    requires Enabled(s, e) && e != Around(T.ParentCancel) && CanDrain(Step(s, e))
    requires Step(s, e).beacon.log == s.beacon.log
    ensures CanDrain(s)
  {
    var more :| NoParentCancel(more) && Run(SYSTEM, Step(s, e), more).Some?
             && Run(SYSTEM, Step(s, e), more).value.beacon.sender.Finished?
             && Run(SYSTEM, Step(s, e), more).value.beacon.log == Step(s, e).beacon.log;
    var evs, s' := OneMore(SYSTEM, s, [], s, e);
    RunConcat(SYSTEM, s, evs, more);
    assert NoParentCancel(evs + more);
  }

  /** Once the producer has stopped, the sender can send what is left and finish. */
  lemma StoppedDrains(s: State)
    requires Inv(s) && s.beacon.producer.Stopped?
    ensures CanDrain(s)
    decreases B.SenderStepsLeft(s.beacon)
  {
    if s.beacon.sender.Finished? {
      assert Run(SYSTEM, s, []) == Some(s) && NoParentCancel([]);
    } else {
      B.SenderCanStep(s.beacon);
      var act :| B.IsSenderStep(act) && B.Enabled(s.beacon, act);
      StepKeepsInv(s, Goroutine(act));
      StoppedDrains(Step(s, Goroutine(act)));
      DrainsAfter(s, Goroutine(act));
    }
  }

  // ----- A PIN broadcast after the claim --------------------------------------------------------------

  /** The next tick after the claim mints: the payload in the producer's hand carries a PIN that
      is valid for five minutes from then. */
  lemma TickAfterClaimMints(s: State, now: P.Clock, d: P.Draw)
    requires s.holder == P.FRESH && Enabled(s, Tick(now, d))
    ensures var next := Step(s, Tick(now, d));
            next.holder == P.Rotated(now, d) && next.beacon.producer == B.Holding(P.MintPin(d))
  {
  }

  /** How far the example has come; no step of it concerns the teardown. */
  predicate Reached(s: State, td: T.State, holder: P.Holder, invalidated: bool, producer: B.Producer, sender: B.Sender,
                    queue: seq<string>, sent: seq<string>) {
    && s.td == td && s.holder == holder && s.invalidated == invalidated
    && s.beacon.producer == producer && s.beacon.sender == sender
    && s.beacon.queue == queue && s.beacon.sent == sent && !s.beacon.closed
  }

  /** The goroutines start, and the only payload that waits is sent. */
  lemma PayloadGoesOut(a: State, evs: seq<Event>, s: State, p: string) returns (evs': seq<Event>, s': State)
    requires Run(SYSTEM, a, evs) == Some(s) && NoParentCancel(evs)
    requires Reached(s, s.td, s.holder, s.invalidated, B.Waiting, B.Receiving, [p], s.beacon.sent)
    ensures Run(SYSTEM, a, evs') == Some(s') && NoParentCancel(evs')
    ensures Reached(s', s.td, s.holder, s.invalidated, B.Waiting, B.Receiving, [], s.beacon.sent + [p])
  {
    evs', s' := OneMore(SYSTEM, a, evs, s, Goroutine(B.Receive));
    assert Reached(s', s.td, s.holder, s.invalidated, B.Waiting, B.InHand(p), [], s.beacon.sent);
    evs', s' := OneMore(SYSTEM, a, evs', s', Goroutine(B.Send));
  }

  lemma ContextMade() returns (evs: seq<Event>, s: State)
    ensures Run(SYSTEM, START, evs) == Some(s) && NoParentCancel(evs)
    ensures s.td.main.ContextMade? && s.td.mdns.NotRunning? && !T.BeaconDone(s.td)
    ensures Reached(s, s.td, P.FRESH, false, B.NotStarted, B.Unborn, [], [])
  {
    evs, s := OneMore(SYSTEM, START, [], START, Around(T.Dial));
    assert Reached(s, T.Step(T.START, T.Dial), P.FRESH, false, B.NotStarted, B.Unborn, [], []);
    evs, s := OneMore(SYSTEM, START, evs, s, Around(T.MakeContext));
  }

  lemma GoroutinesStart(evs: seq<Event>, s: State, now: P.Clock, d: P.Draw) returns (evs': seq<Event>, s': State)
    requires Run(SYSTEM, START, evs) == Some(s) && NoParentCancel(evs) && s.td.main.ContextMade?
    requires Reached(s, s.td, P.FRESH, false, B.NotStarted, B.Unborn, [], [])
    ensures Run(SYSTEM, START, evs') == Some(s') && NoParentCancel(evs')
    ensures Reached(s', s.td, P.Rotated(now, d), false, B.Waiting, B.Receiving, [P.MintPin(d)], [])
  {
    evs', s' := OneMore(SYSTEM, START, evs, s, First(now, d));
    assert Reached(s', s.td, P.Rotated(now, d), false, B.Primed, B.Unborn, [P.MintPin(d)], []);
    evs', s' := OneMore(SYSTEM, START, evs', s', Goroutine(B.StartProducer));
    assert Reached(s', s.td, P.Rotated(now, d), false, B.Waiting, B.Unborn, [P.MintPin(d)], []);
    evs', s' := OneMore(SYSTEM, START, evs', s', Goroutine(B.StartSender));
  }

  lemma FirstBeaconOut(now: P.Clock, d: P.Draw) returns (evs: seq<Event>, s: State)
    ensures Run(SYSTEM, START, evs) == Some(s) && NoParentCancel(evs)
    ensures s.td.main.ContextMade? && s.td.mdns.NotRunning? && !T.BeaconDone(s.td)
    ensures Reached(s, s.td, P.Rotated(now, d), false, B.Waiting, B.Receiving, [], [P.MintPin(d)])
  {
    evs, s := ContextMade();
    evs, s := GoroutinesStart(evs, s, now, d);
    evs, s := PayloadGoesOut(START, evs, s, P.MintPin(d));
  }

  /** A board whose advertiser runs: its first beacon is out, the claim has been returned, and
      the PIN is invalidated. */
  lemma ClaimedBoard(now: P.Clock, d: P.Draw) returns (evs: seq<Event>, s: State)
    ensures Run(SYSTEM, START, evs) == Some(s) && NoParentCancel(evs)
    ensures s.td.main == T.Unwinding(true) && s.td.mdns.Advertising?
    ensures Reached(s, s.td, P.FRESH, true, B.Waiting, B.Receiving, [], [P.MintPin(d)])
  {
    evs, s := FirstBeaconOut(now, d);
    evs, s := OneMore(SYSTEM, START, evs, s, Around(T.StartMdns(true)));
    assert Reached(s, s.td, P.Rotated(now, d), false, B.Waiting, B.Receiving, [], [P.MintPin(d)]);
    evs, s := OneMore(SYSTEM, START, evs, s, Around(T.WaitEnds(true)));
    assert Reached(s, s.td, P.Rotated(now, d), false, B.Waiting, B.Receiving, [], [P.MintPin(d)]);
    evs, s := OneMore(SYSTEM, START, evs, s, Invalidate(now));
  }

  /** After the claim a new PIN goes out: for every clock reading and draw there is such a
      run. */
  lemma PinSentAfterClaim(start: P.Clock, d: P.Draw, now: P.Clock, d': P.Draw)
    returns (evs: seq<Event>, claimed: State, more: seq<Event>, s: State)
    ensures Run(SYSTEM, START, evs) == Some(claimed) && NoParentCancel(evs)
    ensures claimed.td.main == T.Unwinding(true) && claimed.invalidated && claimed.beacon.sent == [P.MintPin(d)]
    ensures Run(SYSTEM, claimed, more) == Some(s) && NoParentCancel(more)
    ensures s.beacon.sent == [P.MintPin(d), P.MintPin(d')] && s.holder == P.Rotated(now, d')
  {
    evs, claimed := ClaimedBoard(start, d);
    TickAfterClaimMints(claimed, now, d');
    more, s := OneMore(SYSTEM, claimed, [], claimed, Tick(now, d'));
    assert Reached(s, claimed.td, P.Rotated(now, d'), true, B.Holding(P.MintPin(d')), B.Receiving, [], [P.MintPin(d)]);
    more, s := OneMore(SYSTEM, claimed, more, s, Goroutine(B.Offer));
    assert Reached(s, claimed.td, P.Rotated(now, d'), true, B.Waiting, B.Receiving, [P.MintPin(d')], [P.MintPin(d)]);
    more, s := PayloadGoesOut(claimed, more, s, P.MintPin(d'));
  }
}
