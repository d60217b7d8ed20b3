/** The beacon pipeline of RunUnclaimed: a producer that builds payloads and offers them to a
    channel of eight, and a sender that drains it, interleaved with cancellation. */
module Beacon {
  import opened Prelude
  import opened Runs
  import opened Selections

  const CAPACITY := 8

  datatype Producer = NotStarted | Primed | Waiting | Holding(payload: string) | Quitting | Stopped

  datatype Sender = Unborn | Receiving | InHand(payload: string) | Finished

  datatype Built = Built(payload: string, accepted: bool)

  /** `log` records every payload offered, in building order, and whether the channel took
      it; `sent` the payloads handed to the socket. `panicked` is set by a send on, or a
      second close of, the closed channel. */
  datatype Pipeline = Pipeline(
    queue: seq<string>, closed: bool, panicked: bool, cancelled: bool,
    producer: Producer, sender: Sender, log: seq<Built>, sent: seq<string>)

  datatype Event =
    | FirstBeacon(payload: string)
    | StartProducer
    | StartSender
    | Tick(payload: string)
    | Offer
    | Quit
    | Close
    | Receive
    | Send
    | Finish
    | Cancel

  const START := Pipeline([], false, false, false, NotStarted, Unborn, [], [])

  predicate Enabled(s: Pipeline, e: Event) {
    match e
    case FirstBeacon(_) => s.producer.NotStarted?
    case StartProducer => s.producer.Primed?
    case StartSender => s.sender.Unborn? && !s.producer.NotStarted? && !s.producer.Primed?
    case Tick(_) => s.producer.Waiting?
    case Offer => s.producer.Holding?
    case Quit => s.producer.Waiting? && s.cancelled
    case Close => s.producer.Quitting?
    case Receive => s.sender.Receiving? && s.queue != []
    case Send => s.sender.InHand?
    case Finish => s.sender.Receiving? && s.queue == [] && s.closed
    case Cancel => true
  }

  /** A non-blocking send: a full channel drops the payload just built, not an older one. */
  function Offered(s: Pipeline, p: string): Pipeline {
    if s.closed then s.(panicked := true)
    else if |s.queue| < CAPACITY then s.(queue := s.queue + [p], log := s.log + [Built(p, true)])
    else s.(log := s.log + [Built(p, false)])
  }

  function Step(s: Pipeline, e: Event): Pipeline
    requires Enabled(s, e)
  {
    match e
    case FirstBeacon(p) => Offered(s, p).(producer := Primed)
    case StartProducer => s.(producer := Waiting)
    case StartSender => s.(sender := Receiving)
    case Tick(p) => s.(producer := Holding(p))
    case Offer => Offered(s, s.producer.payload).(producer := Waiting)
    case Quit => s.(producer := Quitting)
    case Close => s.(panicked := s.panicked || s.closed, closed := true, producer := Stopped)
    case Receive => s.(queue := s.queue[1..], sender := InHand(s.queue[0]))
    case Send => s.(sent := s.sent + [s.sender.payload], sender := Receiving)
    case Finish => s.(sender := Finished)
    case Cancel => s.(cancelled := true)
  }

  const SYSTEM: (Pipeline, Event) -> Option<Pipeline> :=
    (s: Pipeline, e: Event) => if Enabled(s, e) then Some(Step(s, e)) else None

  // ----- Accounting -----------------------------------------------------------------------

  function Payloads(log: seq<Built>): seq<string> {
    seq(|log|, i requires 0 <= i < |log| => log[i].payload)
  }

  function AcceptedOf(log: seq<Built>): seq<string> {
    if log == [] then []
    else AcceptedOf(log[..|log| - 1]) + (if log[|log| - 1].accepted then [log[|log| - 1].payload] else [])
  }

  function Carried(sender: Sender): seq<string> {
    if sender.InHand? then [sender.payload] else []
  }

  lemma AcceptedNext(log: seq<Built>, b: Built)
    ensures AcceptedOf(log + [b]) == AcceptedOf(log) + (if b.accepted then [b.payload] else [])
  {
    assert (log + [b])[..|log|] == log;
  }

  lemma LogInOrderNext(log: seq<Built>, b: Built)
    requires InOrder(AcceptedOf(log), Payloads(log))
    ensures InOrder(AcceptedOf(log + [b]), Payloads(log + [b]))
  {
    AcceptedNext(log, b);
    assert Payloads(log + [b]) == Payloads(log) + [b.payload];
    InOrderNext(AcceptedOf(log), Payloads(log), b.payload);
    assert AcceptedOf(log) + [] == AcceptedOf(log);
  }

  lemma {:induction false} AcceptedInOrder(log: seq<Built>)
    ensures InOrder(AcceptedOf(log), Payloads(log))
  {
    if log == [] {
      NothingInOrder(Payloads(log));
    } else {
      var n := |log| - 1;
      AcceptedInOrder(log[..n]);
      LogInOrderNext(log[..n], log[n]);
      assert log[..n] + [log[n]] == log;
    }
  }

  // ----- The invariant ----------------------------------------------------------------------

  predicate Inv(s: Pipeline) {
    && !s.panicked
    && (s.closed <==> s.producer.Stopped?)
    && |s.queue| <= CAPACITY
    && AcceptedOf(s.log) == s.sent + Carried(s.sender) + s.queue
    && (s.sender.Finished? ==> s.closed && s.queue == [])
  }

  lemma OfferedKeeps(s: Pipeline, p: string, next: Producer)
    requires Inv(s) && !s.closed && !next.Stopped?
    ensures Inv(Offered(s, p).(producer := next))
  {
    AcceptedNext(s.log, Built(p, true));
    AcceptedNext(s.log, Built(p, false));
  }

  lemma StepKeepsInv(s: Pipeline, e: Event)
    requires Enabled(s, e) && Inv(s)
    ensures Inv(Step(s, e))
  {
    match e {
      case FirstBeacon(p) => OfferedKeeps(s, p, Primed);
      case Offer => OfferedKeeps(s, s.producer.payload, Waiting);
      case Receive => assert s.queue == [s.queue[0]] + s.queue[1..];
      case _ =>
    }
  }

  lemma RunKeepsInv(evs: seq<Event>, s: Pipeline)
    requires Run(SYSTEM, START, evs) == Some(s)
    ensures Inv(s)
  {
    forall t, e | Inv(t) && SYSTEM(t, e).Some? ensures Inv(SYSTEM(t, e).value) {
      StepKeepsInv(t, e);
    }
    RunKeeps(SYSTEM, t => Inv(t), START, evs);
  }

  // ----- What holds of every run ---------------------------------------------------------------

  /** On every run nothing is sent on the closed channel and it is closed at most once, at
      most eight payloads wait, the payloads taken by the channel are those sent, in hand and
      waiting, in that order, and what is sent is an in-order selection of what was built. */
  lemma PipelineSafe(evs: seq<Event>, s: Pipeline)
    requires Run(SYSTEM, START, evs) == Some(s)
    ensures !s.panicked && |s.queue| <= 8
    ensures AcceptedOf(s.log) == s.sent + Carried(s.sender) + s.queue
    ensures InOrder(s.sent, Payloads(s.log))
  {
    RunKeepsInv(evs, s);
    AcceptedInOrder(s.log);
    PrefixInOrder(AcceptedOf(s.log), Payloads(s.log), |s.sent|);
    assert AcceptedOf(s.log)[..|s.sent|] == s.sent;
  }

  predicate InStartOrder(s: Pipeline) {
    && (s.producer.NotStarted? ==> s.log == [] && s.sender.Unborn?)
    && (s.producer.Primed? ==> |s.log| == 1 && s.sender.Unborn?)
    && (!s.producer.NotStarted? ==> s.log != [] && s.log[0].accepted)
  }

  lemma StartOrderNext(s: Pipeline, e: Event)
    requires Enabled(s, e) && Inv(s) && InStartOrder(s)
    ensures InStartOrder(Step(s, e))
  {
  }

  /** The first beacon is queued before either goroutine starts, the sender last. */
  lemma {:induction false} StartedInOrder(evs: seq<Event>, s: Pipeline)
    requires Run(SYSTEM, START, evs) == Some(s)
    ensures InStartOrder(s)
  {
    if evs == [] {
    } else {
      var before := evs[..|evs| - 1];
      var t := Run(SYSTEM, START, before).value;
      StartedInOrder(before, t);
      RunKeepsInv(before, t);
      StartOrderNext(t, evs[|evs| - 1]);
    }
  }

  /** A payload is dropped only when eight are waiting, and it is the one just built: those
      waiting stay as they are. */
  lemma DropsNewestWhenFull(evs: seq<Event>, s: Pipeline)
    requires Run(SYSTEM, START, evs) == Some(s) && s.producer.Holding?
    ensures var next := Step(s, Offer);
            && next.log == s.log + [Built(s.producer.payload, |s.queue| < 8)]
            && next.queue == (if |s.queue| < 8 then s.queue + [s.producer.payload] else s.queue)
  {
    RunKeepsInv(evs, s);
  }

  // ----- A full channel -----------------------------------------------------------------------------

  /** n times the same payload. */
  function Copies(n: nat, p: string): (ps: seq<string>)
    ensures |ps| == n
  {
    if n == 0 then [] else Copies(n - 1, p) + [p]
  }

  /** While the sender has not started, the producer fills the channel. */
  lemma {:induction false} Fills(n: nat, p: string) returns (evs: seq<Event>, s: Pipeline)
    requires 1 <= n <= 8
    ensures Run(SYSTEM, START, evs) == Some(s) && s.producer.Waiting? && s.queue == Copies(n, p) && !s.closed
  {
    if n == 1 {
      evs, s := OneMore(SYSTEM, START, [], START, FirstBeacon(p));
      evs, s := OneMore(SYSTEM, START, evs, s, StartProducer);
      assert Copies(1, p) == Copies(0, p) + [p];
    } else {
      evs, s := Fills(n - 1, p);
      evs, s := OneMore(SYSTEM, START, evs, s, Tick(p));
      evs, s := OneMore(SYSTEM, START, evs, s, Offer);
    }
  }

  /** Nine beacons before the sender runs: the first eight wait, and the ninth, the freshest,
      is the one that is dropped. */
  lemma FreshestIsDropped(stale: string, newest: string) returns (evs: seq<Event>, s: Pipeline)
    ensures Run(SYSTEM, START, evs) == Some(s)
    ensures s.producer.Holding? && s.producer.payload == newest && s.queue == Copies(8, stale)
    ensures var next := Step(s, Offer);
            next.queue == Copies(8, stale) && next.log == s.log + [Built(newest, false)]
  {
    evs, s := Fills(8, stale);
    evs, s := OneMore(SYSTEM, START, evs, s, Tick(newest));
    DropsNewestWhenFull(evs, s);
  }

  // ----- After the close -------------------------------------------------------------------------

  predicate IsSenderStep(e: Event) {
    e.StartSender? || e.Receive? || e.Send? || e.Finish?
  }

  /** Steps the sender still has to take once no payload can arrive any more. */
  function SenderStepsLeft(s: Pipeline): nat {
    2 * |s.queue| +
    match s.sender
    case Unborn => 2
    case Receiving => 1
    case InHand(_) => 2
    case Finished => 0
  }

  /** After the close every step of the sender reduces the count and no other step changes
      it; until the count is zero the sender has a step to take. */
  lemma SenderWindsDown(evs: seq<Event>, s: Pipeline, e: Event)
    requires Run(SYSTEM, START, evs) == Some(s) && s.closed
    ensures Enabled(s, e) ==>
              SenderStepsLeft(Step(s, e)) == SenderStepsLeft(s) - (if IsSenderStep(e) then 1 else 0)
    ensures Enabled(s, e) ==> Step(s, e).closed && Step(s, e).log == s.log
    ensures !s.sender.Finished? ==> exists e' :: IsSenderStep(e') && Enabled(s, e')
  {
    RunKeepsInv(evs, s);
    if !s.sender.Finished? {
      SenderCanStep(s);
    }
  }

  lemma SenderCanStep(s: Pipeline)
    requires Inv(s) && s.closed && !s.sender.Finished?
    ensures exists e :: IsSenderStep(e) && Enabled(s, e)
  {
    var e := if s.sender.Unborn? then StartSender else if s.sender.InHand? then Send
             else if s.queue != [] then Receive else Finish;
    assert IsSenderStep(e) && Enabled(s, e);
  }

  /** Once finished, the sender has sent exactly the payloads the channel took. */
  lemma FinishedSentAll(evs: seq<Event>, s: Pipeline)
    requires Run(SYSTEM, START, evs) == Some(s) && s.sender.Finished?
    ensures s.sent == AcceptedOf(s.log)
  {
    RunKeepsInv(evs, s);
  }
}
