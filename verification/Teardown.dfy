/** How RunUnclaimed ends: the deferred calls run last-in first-out, and the mDNS shutdown
    waits for a context that a later deferred call cancels. */
module Teardown {
  import opened Prelude
  import opened Runs

  datatype Deferred = CloseSocket | CancelBeacon | AwaitMdns

  datatype Main = Dialing | SocketOpen | ContextMade | WaitingForClaim | Unwinding(claimed: bool) | Returned(claimed: bool)

  datatype Mdns = NotRunning | Advertising | ShutDown

  datatype State = State(
    main: Main, defers: seq<Deferred>, parentDone: bool, beaconCancelled: bool, socketClosed: bool, mdns: Mdns)

  datatype Event =
    | Dial
    | MakeContext
    | StartMdns(ok: bool)
    | WaitEnds(claimed: bool)
    | RunDeferred
    | Return
    | MdnsStops
    | ParentCancel

  const START := State(Dialing, [], false, false, false, NotRunning)

  predicate BeaconDone(s: State) {
    s.beaconCancelled || s.parentDone
  }

  predicate Enabled(s: State, e: Event) {
    match e
    case Dial => s.main.Dialing?
    case MakeContext => s.main.SocketOpen?
    case StartMdns(_) => s.main.ContextMade?
    case WaitEnds(_) => s.main.WaitingForClaim?
    case RunDeferred =>
      s.main.Unwinding? && s.defers != [] && (s.defers[|s.defers| - 1] == AwaitMdns ==> s.mdns.ShutDown?)
    case Return => s.main.Unwinding? && s.defers == []
    case MdnsStops => s.mdns.Advertising? && BeaconDone(s)
    case ParentCancel => true
  }

  function RunTop(s: State): State
    requires s.defers != []
  {
    var rest := s.(defers := s.defers[..|s.defers| - 1]);
    match s.defers[|s.defers| - 1]
    case CloseSocket => rest.(socketClosed := true)
    case CancelBeacon => rest.(beaconCancelled := true)
    case AwaitMdns => rest
  }

  function Step(s: State, e: Event): State
    requires Enabled(s, e)
  {
    match e
    case Dial => s.(main := SocketOpen, defers := s.defers + [CloseSocket])
    case MakeContext => s.(main := ContextMade, defers := s.defers + [CancelBeacon])
    case StartMdns(ok) =>
      if ok then s.(main := WaitingForClaim, defers := s.defers + [AwaitMdns], mdns := Advertising)
      else s.(main := WaitingForClaim)
    case WaitEnds(claimed) => s.(main := Unwinding(claimed))
    case RunDeferred => RunTop(s)
    case Return => s.(main := Returned(s.main.claimed))
    case MdnsStops => s.(mdns := ShutDown)
    case ParentCancel => s.(parentDone := true)
  }

  const SYSTEM: (State, Event) -> Option<State> :=
    (s: State, e: Event) => if Enabled(s, e) then Some(Step(s, e)) else None

  /** What is still deferred, by how far the teardown has come. */
  function Expected(s: State): seq<Deferred> {
    match s.main
    case Dialing => []
    case SocketOpen => [CloseSocket]
    case ContextMade => [CloseSocket, CancelBeacon]
    case WaitingForClaim =>
      if s.mdns.NotRunning? then [CloseSocket, CancelBeacon] else [CloseSocket, CancelBeacon, AwaitMdns]
    case Unwinding(_) =>
      if s.socketClosed then []
      else if s.beaconCancelled then [CloseSocket]
      else if AwaitMdns in s.defers then [CloseSocket, CancelBeacon, AwaitMdns]
      else [CloseSocket, CancelBeacon]
    case Returned(_) => []
  }

  predicate Inv(s: State) {
    && s.defers == Expected(s)
    && (s.socketClosed ==> s.beaconCancelled)
    && (s.beaconCancelled ==> s.main.Unwinding? || s.main.Returned?)
    && (s.mdns.ShutDown? && !s.beaconCancelled ==> s.parentDone)
    && (!s.mdns.NotRunning? ==> s.main.WaitingForClaim? || s.main.Unwinding? || s.main.Returned?)
    && (s.main.Unwinding? && !s.mdns.NotRunning? && AwaitMdns !in s.defers ==> s.parentDone)
    && (s.main.Returned? && !s.mdns.NotRunning? ==> s.parentDone)
    && (s.main.Returned? ==> s.socketClosed)
  }

  lemma StepKeepsInv(s: State, e: Event)
    requires Enabled(s, e) && Inv(s)
    ensures Inv(Step(s, e))
  {
  }

  lemma RunKeepsInv(evs: seq<Event>, s: State)
    requires Run(SYSTEM, START, evs) == Some(s)
    ensures Inv(s)
  {
    forall t, e | Inv(t) && SYSTEM(t, e).Some? ensures Inv(SYSTEM(t, e).value) {
      StepKeepsInv(t, e);
    }
    RunKeeps(SYSTEM, t => Inv(t), START, evs);
  }

  /** The socket is never closed under a live beacon context, and every deferred call has
      run when the function returns. */
  lemma SocketOutlivesBeacon(evs: seq<Event>, s: State)
    requires Run(SYSTEM, START, evs) == Some(s)
    ensures s.socketClosed ==> BeaconDone(s)
    ensures s.main.Returned? ==> s.socketClosed && s.beaconCancelled && s.defers == []
  {
    RunKeepsInv(evs, s);
  }

  predicate NoParentCancel(evs: seq<Event>) {
    forall i :: 0 <= i < |evs| ==> evs[i] != ParentCancel
  }

  ghost predicate CanReturnAlone(s: State) {
    exists evs :: NoParentCancel(evs) && Run(SYSTEM, s, evs).Some? && Run(SYSTEM, s, evs).value.main.Returned?
  }

  lemma {:induction false} NoCancelNoChange(s: State, evs: seq<Event>)
    requires NoParentCancel(evs) && Run(SYSTEM, s, evs).Some?
    ensures Run(SYSTEM, s, evs).value.parentDone == s.parentDone
  {
    if evs == [] {
    } else {
      NoCancelNoChange(s, evs[..|evs| - 1]);
    }
  }

  lemma {:induction false} MdnsStaysStarted(s: State, evs: seq<Event>)
    requires Run(SYSTEM, s, evs).Some? && !s.mdns.NotRunning?
    ensures !Run(SYSTEM, s, evs).value.mdns.NotRunning?
  {
    if evs == [] {
    } else {
      MdnsStaysStarted(s, evs[..|evs| - 1]);
    }
  }

  /** Without an advertiser nothing holds up the deferred calls. */
  lemma Unwound(s: State, claimed: bool) returns (steps: seq<Event>, s4: State)
    requires Inv(s) && s.main.WaitingForClaim? && s.mdns.NotRunning?
    ensures steps == [RunDeferred, RunDeferred, Return]
    ensures Run(SYSTEM, Step(s, WaitEnds(claimed)), steps) == Some(s4) && s4.main == Returned(claimed)
  {
    var s1 := Step(s, WaitEnds(claimed));
    assert s1.defers == [CloseSocket, CancelBeacon];
    steps, s4 := OneMore(SYSTEM, s1, [], s1, RunDeferred);
    assert s4.defers == [CloseSocket] && s4.main == Unwinding(claimed);
    steps, s4 := OneMore(SYSTEM, s1, steps, s4, RunDeferred);
    assert s4.defers == [] && s4.main == Unwinding(claimed);
    steps, s4 := OneMore(SYSTEM, s1, steps, s4, Return);
  }

  lemma ReturnsWithoutMdns(s: State, claimed: bool)
    requires Inv(s) && s.main.WaitingForClaim? && s.mdns.NotRunning?
    ensures CanReturnAlone(Step(s, WaitEnds(claimed)))
  {
    var steps, s4 := Unwound(s, claimed);
    assert NoParentCancel(steps);
  }

  /** Once the wait for a claim is over, successfully or not, and unless the caller's own
      context is cancelled, the function can return exactly when the mDNS advertiser had
      failed to start: its shutdown runs before the call that cancels the context it waits
      for. */
  lemma ReturnsAloneIff(evs: seq<Event>, s: State, claimed: bool)
    requires Run(SYSTEM, START, evs) == Some(s) && s.main.WaitingForClaim? && !s.parentDone
    ensures CanReturnAlone(Step(s, WaitEnds(claimed))) <==> s.mdns.NotRunning?
  {
    RunKeepsInv(evs, s);
    var t := Step(s, WaitEnds(claimed));
    StepKeepsInv(s, WaitEnds(claimed));
    if s.mdns.NotRunning? {
      ReturnsWithoutMdns(s, claimed);
    } else if CanReturnAlone(t) {
      var more :| NoParentCancel(more) && Run(SYSTEM, t, more).Some? && Run(SYSTEM, t, more).value.main.Returned?;
      NoCancelNoChange(t, more);
      MdnsStaysStarted(t, more);
      forall x, e | Inv(x) && SYSTEM(x, e).Some? ensures Inv(SYSTEM(x, e).value) {
        StepKeepsInv(x, e);
      }
      RunKeeps(SYSTEM, x => Inv(x), t, more);
    }
  }

  /** Both outcomes of the advertiser are reached, so both sides of ReturnsAloneIff occur. */
  lemma WaitingReached(ok: bool) returns (evs: seq<Event>, s: State)
    ensures Run(SYSTEM, START, evs) == Some(s)
    ensures s.main.WaitingForClaim? && !s.parentDone && s.mdns == if ok then Advertising else NotRunning
  {
    evs, s := OneMore(SYSTEM, START, [], START, Dial);
    assert s.main.SocketOpen? && s.mdns.NotRunning? && !s.parentDone;
    evs, s := OneMore(SYSTEM, START, evs, s, MakeContext);
    assert s.main.ContextMade? && s.mdns.NotRunning? && !s.parentDone;
    evs, s := OneMore(SYSTEM, START, evs, s, StartMdns(ok));
  }
}
