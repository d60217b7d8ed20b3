/** Where jobs come from: every send attempt, and so every job, goes back to an arrival of its
    own, and no arrival is lost. */
module Arrivals {
  import opened Prelude
  import opened Gpio
  import opened Hub
  import opened Runs
  import opened Commands

  /** The message m orders the job. */
  predicate Orders(m: Message, job: Job) {
    && TopicDevice(m.topic) == Some(job.deviceId)
    && m.command == Some(Command(job.action, job.pin, job.timestamp))
  }

  predicate ArrivesAt(evs: seq<Event>, i: nat, h: nat) {
    i < |evs| && evs[i].Arrive? && evs[i].h == h
  }

  /** For each handler the arrival that started it last. */
  function Started(evs: seq<Event>): (m: map<nat, nat>)
    ensures forall h :: h in m ==> ArrivesAt(evs, m[h], h)
  {
    if evs == [] then map[]
    else
      var n := |evs| - 1;
      var before := Started(evs[..n]);
      assert forall h :: h in before ==> ArrivesAt(evs[..n], before[h], h);
      if evs[n].Arrive? then before[evs[n].h := n] else before
  }

  /** For each send attempt, in order, the arrival that started its handler. */
  function SentFrom(evs: seq<Event>): seq<nat> {
    if evs == [] then []
    else
      var n := |evs| - 1;
      var started := Started(evs[..n]);
      if evs[n].Send? && evs[n].h in started then SentFrom(evs[..n]) + [started[evs[n].h]]
      else SentFrom(evs[..n])
  }

  /** Arrivals on a topic that names a device. */
  function TopicArrivals(evs: seq<Event>): nat {
    if evs == [] then 0
    else
      var e := evs[|evs| - 1];
      TopicArrivals(evs[..|evs| - 1]) + (if e.Arrive? && TopicDevice(e.m.topic).Some? then 1 else 0)
  }

  /** Handlers that ended because the body of their message did not parse. */
  function BadBodies(evs: seq<Event>): nat {
    if evs == [] then 0
    else
      var n := |evs| - 1;
      BadBodies(evs[..n]) + (if EndsBadBody(evs[..n], evs[n]) then 1 else 0)
  }

  predicate EndsBadBody(evs: seq<Event>, e: Event) {
    var started := Started(evs);
    e.Parse? && e.h in started && evs[started[e.h]].m.command.None?
  }

  // ----- The invariant -------------------------------------------------------------------------

  /** The handler's stage fits the arrival at i. */
  predicate StageFits(evs: seq<Event>, i: nat, a: Handler)
    requires i < |evs| && evs[i].Arrive?
  {
    match a
    case Arrived(m, id) => evs[i].m == m && TopicDevice(m.topic) == Some(id)
    case HasDevice(m, id) => evs[i].m == m && TopicDevice(m.topic) == Some(id)
    case Sending(job) => Orders(evs[i].m, job)
  }

  ghost predicate HandlersTraced(evs: seq<Event>, handlers: map<nat, Handler>) {
    forall h :: h in handlers ==> h in Started(evs) && StageFits(evs, Started(evs)[h], handlers[h])
  }

  /** Each send attempt has an arrival that ordered its job, different ones have different
      arrivals, and none of these has a handler still running. */
  ghost predicate OffersTraced(evs: seq<Event>, handlers: map<nat, Handler>, offers: seq<Offer>) {
    var from := SentFrom(evs);
    && |from| == |offers| && FromOk(evs, from, offers)
    && (forall k, h :: 0 <= k < |from| && h in handlers && h in Started(evs) ==> from[k] != Started(evs)[h])
  }

  ghost predicate Balanced(evs: seq<Event>, s: State) {
    TopicArrivals(evs) == BadBodies(evs) + |s.handlers| + |s.offers|
  }

  ghost predicate Traced(evs: seq<Event>, s: State) {
    HandlersTraced(evs, s.handlers) && OffersTraced(evs, s.handlers, s.offers) && Balanced(evs, s)
  }

  lemma RecordNext(evs: seq<Event>, e: Event)
    ensures Started(evs + [e]) == if e.Arrive? then Started(evs)[e.h := |evs|] else Started(evs)
    ensures SentFrom(evs + [e]) ==
            if e.Send? && e.h in Started(evs) then SentFrom(evs) + [Started(evs)[e.h]] else SentFrom(evs)
    ensures TopicArrivals(evs + [e]) ==
            TopicArrivals(evs) + (if e.Arrive? && TopicDevice(e.m.topic).Some? then 1 else 0)
    ensures BadBodies(evs + [e]) == BadBodies(evs) + (if EndsBadBody(evs, e) then 1 else 0)
  {
    assert (evs + [e])[..|evs|] == evs;
  }

  lemma SizeWithout(m: map<nat, Handler>, h: nat)
    requires h in m
    ensures |m - {h}| == |m| - 1
  {
    assert (m - {h})[h := m[h]] == m;
  }

  /** A step that is neither an arrival nor a send, and after which each running handler still
      fits its arrival. */
  lemma StageKeeps(evs: seq<Event>, s: State, s': State, e: Event)
    requires Traced(evs, s) && !e.Arrive? && !e.Send? && s'.offers == s.offers
    requires s'.handlers.Keys <= s.handlers.Keys
    requires forall h :: h in s'.handlers && h in Started(evs) ==> StageFits(evs, Started(evs)[h], s'.handlers[h])
    requires |s'.handlers| == |s.handlers| - (if EndsBadBody(evs, e) then 1 else 0)
    ensures Traced(evs + [e], s')
  {
    RecordNext(evs, e);
    StageKeepsHandlers(evs, s.handlers, s'.handlers, e);
    StageKeepsOffers(evs, s.handlers, s'.handlers, s.offers, e);
  }

  lemma StageKeepsHandlers(evs: seq<Event>, handlers: map<nat, Handler>, handlers': map<nat, Handler>, e: Event)
    requires HandlersTraced(evs, handlers) && !e.Arrive? && handlers'.Keys <= handlers.Keys
    requires forall h :: h in handlers' && h in Started(evs) ==> StageFits(evs, Started(evs)[h], handlers'[h])
    ensures HandlersTraced(evs + [e], handlers')
  {
    RecordNext(evs, e);
    assert forall h :: h in handlers' ==> h in handlers;
  }

  lemma StageKeepsOffers(evs: seq<Event>, handlers: map<nat, Handler>, handlers': map<nat, Handler>, offers: seq<Offer>, e: Event)
    requires OffersTraced(evs, handlers, offers) && !e.Arrive? && !e.Send? && handlers'.Keys <= handlers.Keys
    ensures OffersTraced(evs + [e], handlers', offers)
  {
    RecordNext(evs, e);
    assert forall h :: h in handlers' ==> h in handlers;
  }

  lemma ArriveKeepsHandlers(evs: seq<Event>, s: State, h: nat, m: Message)
    requires HandlersTraced(evs, s.handlers) && h !in s.handlers
    ensures HandlersTraced(evs + [Arrive(h, m)], Arrives(s, h, m).handlers)
  {
    RecordNext(evs, Arrive(h, m));
    assert (evs + [Arrive(h, m)])[|evs|] == Arrive(h, m);
  }

  lemma ArriveKeeps(evs: seq<Event>, s: State, h: nat, m: Message)
    requires Traced(evs, s) && h !in s.handlers
    ensures Traced(evs + [Arrive(h, m)], Arrives(s, h, m))
  {
    ArriveKeepsHandlers(evs, s, h, m);
    RecordNext(evs, Arrive(h, m));
  }

  lemma EnsureKeeps(evs: seq<Event>, s: State, h: nat)
    requires Traced(evs, s) && Enabled(s, EnsureDevice(h))
    ensures Traced(evs + [EnsureDevice(h)], DeviceEnsured(s, h))
  {
    assert StageFits(evs, Started(evs)[h], s.handlers[h]);
    assert DeviceEnsured(s, h).handlers.Keys == s.handlers.Keys;
    assert |DeviceEnsured(s, h).handlers| == |s.handlers|;
    StageKeeps(evs, s, DeviceEnsured(s, h), EnsureDevice(h));
  }

  lemma ParseKeeps(evs: seq<Event>, s: State, h: nat)
    requires Traced(evs, s) && Enabled(s, Parse(h))
    ensures Traced(evs + [Parse(h)], Parsed(s, h))
  {
    assert StageFits(evs, Started(evs)[h], s.handlers[h]);
    if s.handlers[h].m.command.None? {
      SizeWithout(s.handlers, h);
    } else {
      assert |Parsed(s, h).handlers| == |s.handlers|;
    }
    StageKeeps(evs, s, Parsed(s, h), Parse(h));
  }

  lemma SendKeepsHandlers(evs: seq<Event>, s: State, h: nat)
    requires HandlersTraced(evs, s.handlers) && Enabled(s, Send(h))
    ensures HandlersTraced(evs + [Send(h)], Sent(s, h).handlers)
  {
    RecordNext(evs, Send(h));
  }

  /** An attempt has an arrival that ordered its job, and of these no two are the same. */
  predicate FromOk(evs: seq<Event>, from: seq<nat>, offers: seq<Offer>)
    requires |from| == |offers|
  {
    && (forall k :: 0 <= k < |from| ==>
          from[k] < |evs| && evs[from[k]].Arrive? && Orders(evs[from[k]].m, offers[k].job))
    && (forall j, k :: 0 <= j < k < |from| ==> from[j] != from[k])
  }

  lemma FromOkNext(evs: seq<Event>, from: seq<nat>, offers: seq<Offer>, e: Event, i: nat, o: Offer)
    requires |from| == |offers| && FromOk(evs, from, offers)
    requires i < |evs| && evs[i].Arrive? && Orders(evs[i].m, o.job) && i !in from
    ensures FromOk(evs + [e], from + [i], offers + [o])
  {
    assert forall k :: 0 <= k < |from| ==> (from + [i])[k] == from[k];
  }

  /** The arrival of the handler that sends is new among the attempts, and no other running
      handler has it. */
  lemma SendKeepsOffers(evs: seq<Event>, handlers: map<nat, Handler>, offers: seq<Offer>, h: nat, o: Offer)
    requires HandlersTraced(evs, handlers) && OffersTraced(evs, handlers, offers)
    requires h in handlers && handlers[h].Sending? && o.job == handlers[h].job
    ensures OffersTraced(evs + [Send(h)], handlers - {h}, offers + [o])
  {
    RecordNext(evs, Send(h));
    var i := Started(evs)[h];
    assert StageFits(evs, i, handlers[h]) && ArrivesAt(evs, i, h);
    assert forall k :: k in Started(evs) ==> ArrivesAt(evs, Started(evs)[k], k);
    FromOkNext(evs, SentFrom(evs), offers, Send(h), i, o);
  }

  lemma SendKeeps(evs: seq<Event>, s: State, h: nat)
    requires Traced(evs, s) && Enabled(s, Send(h))
    ensures Traced(evs + [Send(h)], Sent(s, h))
  {
    SendKeepsHandlers(evs, s, h);
    SendKeepsOffers(evs, s.handlers, s.offers, h, Offer(s.handlers[h].job, Accepts(s.shared)));
    RecordNext(evs, Send(h));
    SizeWithout(s.handlers, h);
  }

  lemma StepKeeps(reg: Registry, evs: seq<Event>, s: State, e: Event)
    requires Enabled(s, e) && Traced(evs, s)
    ensures Traced(evs + [e], Step(reg, s, e))
  {
    match e {
      case Arrive(h, m) => ArriveKeeps(evs, s, h, m);
      case EnsureDevice(h) => EnsureKeeps(evs, s, h);
      case Parse(h) => ParseKeeps(evs, s, h);
      case Send(h) => SendKeeps(evs, s, h);
      case _ => StageKeeps(evs, s, Step(reg, s, e), e);
    }
  }

  lemma {:induction false} RunTraced(reg: Registry, levels: Levels, evs: seq<Event>, s: State)
    requires Run(System(reg), Start(levels), evs) == Some(s)
    ensures Traced(evs, s)
  {
    if evs == [] {
    } else {
      var before := evs[..|evs| - 1];
      var t := Run(System(reg), Start(levels), before).value;
      RunTraced(reg, levels, before, t);
      StepKeeps(reg, before, t, evs[|evs| - 1]);
      assert before + [evs[|evs| - 1]] == evs;
    }
  }

  predicate Increasing(xs: seq<nat>) {
    forall j, k :: 0 <= j < k < |xs| ==> xs[j] < xs[k]
  }

  // ----- What holds of every run -----------------------------------------------------------------

  /** No arrival is lost or answered twice: of the arrivals whose topic names a device, each
      had a body that did not parse, or has a handler still running, or made one send
      attempt. `from` gives the arrival behind each attempt: it ordered the job offered, and
      no two attempts share one. */
  lemma ArrivalsAccountedFor(reg: Registry, levels: Levels, evs: seq<Event>, s: State) returns (from: seq<nat>)
    requires Run(System(reg), Start(levels), evs) == Some(s)
    ensures TopicArrivals(evs) == BadBodies(evs) + |s.handlers| + |s.offers|
    ensures from == SentFrom(evs) && |from| == |s.offers|
    ensures forall k :: 0 <= k < |from| ==>
              from[k] < |evs| && evs[from[k]].Arrive? && Orders(evs[from[k]].m, s.offers[k].job)
    ensures forall j, k :: 0 <= j < k < |from| ==> from[j] != from[k]
  {
    RunTraced(reg, levels, evs, s);
    from := SentFrom(evs);
  }

  /** The accepted attempts, as positions. */
  lemma {:induction false} AcceptedPositions(offers: seq<Offer>) returns (at: seq<nat>)
    ensures |at| == |AcceptedJobs(offers)|
    ensures forall k :: 0 <= k < |at| ==> at[k] < |offers| && offers[at[k]].job == AcceptedJobs(offers)[k]
    ensures forall j, k :: 0 <= j < k < |at| ==> at[j] < at[k]
  {
    at := [];
    if offers == [] {
    } else {
      var n := |offers| - 1;
      at := AcceptedPositions(offers[..n]);
      if offers[n].accepted {
        at := at + [n];
      }
    }
  }

  /** Nothing is executed that no message ordered, and no message is executed twice: the jobs
      finished, in hand and waiting each have an arrival of their own that ordered exactly the
      device, action, pin and timestamp of the job. */
  lemma JobsWereOrdered(reg: Registry, levels: Levels, evs: seq<Event>, s: State) returns (from: seq<nat>)
    requires Run(System(reg), Start(levels), evs) == Some(s)
    ensures var jobs := JobsOf(s.done) + Carried(s.worker) + s.shared.queue;
            && |from| == |jobs|
            && (forall k :: 0 <= k < |from| ==>
                  from[k] < |evs| && evs[from[k]].Arrive? && Orders(evs[from[k]].m, jobs[k]))
    ensures forall j, k :: 0 <= j < k < |from| ==> from[j] != from[k]
    ensures Increasing(SentFrom(evs)) ==> Increasing(from)
  {
    JobsAccountedFor(reg, levels, evs, s);
    var sources := ArrivalsAccountedFor(reg, levels, evs, s);
    var at := AcceptedPositions(s.offers);
    from := seq(|at|, k requires 0 <= k < |at| => sources[at[k]]);
  }
}
