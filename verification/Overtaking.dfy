/** Handlers run concurrently, so jobs need not be queued in the order in which their messages
    arrived: when that order is kept, and what happens when it is not. */
module Overtaking {
  import opened Prelude
  import opened Gpio
  import opened Hub
  import opened Runs
  import opened Commands
  import opened Arrivals

  /** Event n is a send attempt of a handler that an arrival started. */
  predicate IsSend(evs: seq<Event>, n: nat) {
    n < |evs| && evs[n].Send? && evs[n].h in Started(evs[..n])
  }

  /** That arrival. */
  function Source(evs: seq<Event>, n: nat): nat
    requires IsSend(evs, n)
  {
    Started(evs[..n])[evs[n].h]
  }

  /** Handler p sent before handler n, whose message had arrived earlier. */
  predicate Overtakes(evs: seq<Event>, p: nat, n: nat) {
    p < n && IsSend(evs, p) && IsSend(evs, n) && Source(evs, n) < Source(evs, p)
  }

  /** The send attempts, as positions. */
  function Sends(evs: seq<Event>): seq<nat> {
    if evs == [] then []
    else
      var n := |evs| - 1;
      Sends(evs[..n]) + (if IsSend(evs, n) then [n] else [])
  }

  lemma {:induction false} SendsSize(evs: seq<Event>)
    ensures |Sends(evs)| == |SentFrom(evs)|
  {
    if evs == [] {
    } else {
      SendsSize(evs[..|evs| - 1]);
    }
  }

  lemma SendOfPrefix(evs: seq<Event>, n: nat, p: nat)
    requires p < n <= |evs|
    ensures IsSend(evs[..n], p) <==> IsSend(evs, p)
    ensures IsSend(evs, p) ==> Source(evs[..n], p) == Source(evs, p)
  {
    assert evs[..n][..p] == evs[..p];
  }

  lemma {:induction false} SendsAt(evs: seq<Event>, k: nat)
    requires k < |Sends(evs)|
    ensures |Sends(evs)| == |SentFrom(evs)|
    ensures IsSend(evs, Sends(evs)[k]) && SentFrom(evs)[k] == Source(evs, Sends(evs)[k])
    ensures forall j :: 0 <= j < k ==> Sends(evs)[j] < Sends(evs)[k]
  {
    SendsSize(evs);
    var n := |evs| - 1;
    forall j: nat | j < |Sends(evs[..n])| ensures Sends(evs[..n])[j] < n {
      SendsAt(evs[..n], j);
    }
    if k == |Sends(evs[..n])| {
    } else {
      SendsAt(evs[..n], k);
      SendOfPrefix(evs, n, Sends(evs[..n])[k]);
    }
  }

  lemma {:induction false} SendIsListed(evs: seq<Event>, p: nat) returns (k: nat)
    requires IsSend(evs, p)
    ensures k < |Sends(evs)| && Sends(evs)[k] == p
  {
    var n := |evs| - 1;
    if p == n {
      k := |Sends(evs[..n])|;
    } else {
      SendOfPrefix(evs, n, p);
      k := SendIsListed(evs[..n], p);
    }
  }

  lemma KeptIfNoneOvertakes(evs: seq<Event>, j: nat, k: nat)
    requires j < k < |SentFrom(evs)| && SentFrom(evs)[j] != SentFrom(evs)[k]
    requires forall p, n :: !Overtakes(evs, p, n)
    ensures SentFrom(evs)[j] < SentFrom(evs)[k]
  {
    SendsSize(evs);
    SendsAt(evs, j);
    SendsAt(evs, k);
    assert !Overtakes(evs, Sends(evs)[j], Sends(evs)[k]);
  }

  lemma LaterInSends(evs: seq<Event>, j: nat, k: nat)
    requires j < |Sends(evs)| && k < |Sends(evs)| && Sends(evs)[j] < Sends(evs)[k]
    ensures j < k
  {
    if k < j {
      SendsAt(evs, j);
    }
  }

  lemma NotKeptIfOvertaken(evs: seq<Event>, p: nat, n: nat)
    requires Overtakes(evs, p, n)
    ensures !Increasing(SentFrom(evs))
  {
    SendsSize(evs);
    var j := SendIsListed(evs, p);
    var k := SendIsListed(evs, n);
    LaterInSends(evs, j, k);
    SendsAt(evs, j);
    SendsAt(evs, k);
  }

  /** The attempts keep the order of arrival exactly when no handler sends before one whose
      message arrived earlier. */
  lemma OrderKeptIff(reg: Registry, levels: Levels, evs: seq<Event>, s: State)
    requires Run(System(reg), Start(levels), evs) == Some(s)
    ensures Increasing(SentFrom(evs)) <==> forall p, n :: !Overtakes(evs, p, n)
  {
    var from := ArrivalsAccountedFor(reg, levels, evs, s);
    if forall p, n :: !Overtakes(evs, p, n) {
      forall j: nat, k: nat | j < k < |from| ensures from[j] < from[k] {
        KeptIfNoneOvertakes(evs, j, k);
      }
    } else {
      var p, n :| Overtakes(evs, p, n);
      NotKeptIfOvertaken(evs, p, n);
    }
  }

  /** Messages arrive one at a time: whenever one does, no handler is running. */
  predicate Serial(reg: Registry, levels: Levels, evs: seq<Event>) {
    forall n :: 0 <= n < |evs| && evs[n].Arrive? ==> Quiet(reg, levels, evs[..n])
  }

  predicate Quiet(reg: Registry, levels: Levels, evs: seq<Event>) {
    var t := Run(System(reg), Start(levels), evs);
    t.Some? && t.value.handlers == map[]
  }

  predicate OneRuns(evs: seq<Event>, handlers: map<nat, Handler>) {
    && Increasing(SentFrom(evs))
    && (forall k, h :: 0 <= k < |SentFrom(evs)| && h in handlers && h in Started(evs) ==>
          SentFrom(evs)[k] < Started(evs)[h])
    && (forall h, h' :: h in handlers && h' in handlers ==> h == h')
  }

  lemma OneArrives(reg: Registry, evs: seq<Event>, s: State, h: nat, m: Message)
    requires Traced(evs, s) && Increasing(SentFrom(evs)) && s.handlers == map[]
    ensures OneRuns(evs + [Arrive(h, m)], Arrives(s, h, m).handlers)
  {
    RecordNext(evs, Arrive(h, m));
    assert forall k :: k in Arrives(s, h, m).handlers ==> k == h;
  }

  lemma OneSends(evs: seq<Event>, s: State, h: nat)
    requires Traced(evs, s) && OneRuns(evs, s.handlers) && Enabled(s, Send(h))
    ensures OneRuns(evs + [Send(h)], Sent(s, h).handlers)
  {
    RecordNext(evs, Send(h));
    IncreasingNext(SentFrom(evs), Started(evs)[h]);
    assert Sent(s, h).handlers == map[];
  }

  lemma IncreasingNext(xs: seq<nat>, x: nat)
    requires Increasing(xs) && forall k :: 0 <= k < |xs| ==> xs[k] < x
    ensures Increasing(xs + [x])
  {
  }

  /** Other events record nothing and start no handler. */
  lemma OneGoesOn(evs: seq<Event>, handlers: map<nat, Handler>, handlers': map<nat, Handler>, e: Event)
    requires OneRuns(evs, handlers) && !e.Arrive? && !e.Send? && handlers'.Keys <= handlers.Keys
    ensures OneRuns(evs + [e], handlers')
  {
    RecordNext(evs, e);
    assert forall h :: h in handlers' ==> h in handlers;
  }

  lemma OneRunsNext(reg: Registry, evs: seq<Event>, s: State, e: Event)
    requires Enabled(s, e) && Traced(evs, s) && OneRuns(evs, s.handlers)
    requires e.Arrive? ==> s.handlers == map[]
    ensures OneRuns(evs + [e], Step(reg, s, e).handlers)
  {
    match e {
      case Arrive(h, m) => OneArrives(reg, evs, s, h, m);
      case Send(h) => OneSends(evs, s, h);
      case _ =>
        assert Step(reg, s, e).handlers.Keys <= s.handlers.Keys;
        OneGoesOn(evs, s.handlers, Step(reg, s, e).handlers, e);
    }
  }

  lemma {:induction false} SerialOneRuns(reg: Registry, levels: Levels, evs: seq<Event>, s: State)
    requires Run(System(reg), Start(levels), evs) == Some(s) && Serial(reg, levels, evs)
    ensures OneRuns(evs, s.handlers)
  {
    if evs == [] {
    } else {
      var before := evs[..|evs| - 1];
      var t := Run(System(reg), Start(levels), before).value;
      assert forall n :: 0 <= n < |before| ==> before[..n] == evs[..n];
      SerialOneRuns(reg, levels, before, t);
      RunTraced(reg, levels, before, t);
      OneRunsNext(reg, before, t, evs[|evs| - 1]);
      assert before + [evs[|evs| - 1]] == evs;
    }
  }

  lemma DoneWereOrdered(reg: Registry, levels: Levels, evs: seq<Event>, s: State) returns (from: seq<nat>)
    requires Run(System(reg), Start(levels), evs) == Some(s)
    ensures |from| == |s.done| && (Increasing(SentFrom(evs)) ==> Increasing(from))
    ensures forall k :: 0 <= k < |from| ==>
              from[k] < |evs| && evs[from[k]].Arrive? && Orders(evs[from[k]].m, s.done[k].job)
  {
    var all := JobsWereOrdered(reg, levels, evs, s);
    from := all[..|s.done|];
    var jobs := JobsOf(s.done) + Carried(s.worker) + s.shared.queue;
    assert forall k :: 0 <= k < |s.done| ==> jobs[k] == s.done[k].job;
  }

  ghost predicate LatestToDrive(reg: Registry, done: seq<Done>, from: seq<nat>, i: nat, line: Line)
    requires |from| == |done| && i < |done|
  {
    forall j :: 0 <= j < |done| && DroveLine(reg, done[j], line) ==> from[j] <= from[i]
  }

  lemma LastIsLatest(reg: Registry, done: seq<Done>, from: seq<nat>, i: nat, line: Line, level: bool)
    requires |from| == |done| && Increasing(from) && LastToDrive(reg, done, i, line, level)
    ensures LatestToDrive(reg, done, from, i, line)
  {
  }

  /** When messages arrive one at a time, commands are executed in the order of arrival, so a
      line stands at the level that the latest arrival among the commands executed on it
      asked for. */
  lemma SerialKeepsOrder(reg: Registry, levels: Levels, evs: seq<Event>, s: State) returns (from: seq<nat>)
    requires Run(System(reg), Start(levels), evs) == Some(s) && Serial(reg, levels, evs)
    ensures |from| == |s.done| && Increasing(from)
    ensures forall k :: 0 <= k < |from| ==>
              from[k] < |evs| && evs[from[k]].Arrive? && Orders(evs[from[k]].m, s.done[k].job)
    ensures forall i: nat, line, level :: LastToDrive(reg, s.done, i, line, level) ==>
              && LatestToDrive(reg, s.done, from, i, line)
              && line in s.shared.levels && s.shared.levels[line] == level
  {
    SerialOneRuns(reg, levels, evs, s);
    from := DoneWereOrdered(reg, levels, evs, s);
    forall i: nat, line, level | LastToDrive(reg, s.done, i, line, level)
      ensures LatestToDrive(reg, s.done, from, i, line)
      ensures line in s.shared.levels && s.shared.levels[line] == level
    {
      LastIsLatest(reg, s.done, from, i, line, level);
      LineFollowsLastCommand(reg, levels, evs, s, line);
    }
  }

  // ----- A command that overtakes ----------------------------------------------------------------------

  /** The worker takes the first job, and the hardware accepts the level. */
  lemma JobRuns(reg: Registry, levels: Levels, evs: seq<Event>, s: State) returns (evs': seq<Event>, s': State)
    requires Run(System(reg), Start(levels), evs) == Some(s) && s.worker.Idle? && s.shared.queue != []
    requires LineOf(reg, s.shared.queue[0].pin).Some? && ActionLevel(s.shared.queue[0].action).Some?
    ensures Run(System(reg), Start(levels), evs') == Some(s') && s'.worker.Idle?
    ensures s'.shared.queue == s.shared.queue[1..]
    ensures var job := s.shared.queue[0];
            s'.shared.levels == s.shared.levels[LineOf(reg, job.pin).value := ActionLevel(job.action).value]
    ensures evs' == evs + [Receive, Lookup, Execute(true), Publish]
  {
    DevicesAlwaysThere(reg, levels, evs, s);
    var evs1, s1 := OneMore(System(reg), Start(levels), evs, s, Receive);
    var evs2, s2 := OneMore(System(reg), Start(levels), evs1, s1, Lookup);
    var evs3, s3 := OneMore(System(reg), Start(levels), evs2, s2, Execute(true));
    evs', s' := OneMore(System(reg), Start(levels), evs3, s3, Publish);
  }

  function CommandFor(id: string, action: string, pin: int): Message {
    Message("devices/" + id + "/commands", Some(Command(action, pin, 0)))
  }

  function TwoHandlers(id: string, pin: int): seq<Event> {
    [Arrive(0, CommandFor(id, "ON", pin)), Arrive(1, CommandFor(id, "OFF", pin)),
     EnsureDevice(0), EnsureDevice(1), Parse(0), Parse(1), Send(1), Send(0)]
  }

  /** What the example needs to know of a state: its handlers and what the worker can see. */
  predicate Shows(s: State, handlers: map<nat, Handler>, queue: seq<Job>, levels: Levels) {
    s.handlers == handlers && s.shared.queue == queue && s.shared.levels == levels && s.worker.Idle?
  }

  lemma ArrivalShown(reg: Registry, s: State, handlers: map<nat, Handler>, levels: Levels, h: nat, m: Message, id: string)
    requires Shows(s, handlers, [], levels) && h !in handlers && TopicDevice(m.topic) == Some(id)
    ensures Enabled(s, Arrive(h, m)) && Shows(Step(reg, s, Arrive(h, m)), handlers[h := Arrived(m, id)], [], levels)
  {
  }

  lemma DeviceShown(reg: Registry, s: State, handlers: map<nat, Handler>, levels: Levels, h: nat, m: Message, id: string)
    requires Shows(s, handlers, [], levels) && h in handlers && handlers[h] == Arrived(m, id)
    ensures Enabled(s, EnsureDevice(h))
    ensures Shows(Step(reg, s, EnsureDevice(h)), handlers[h := HasDevice(m, id)], [], levels)
  {
  }

  lemma ParseShown(reg: Registry, s: State, handlers: map<nat, Handler>, levels: Levels, h: nat, m: Message, id: string, c: Command)
    requires Shows(s, handlers, [], levels) && h in handlers && handlers[h] == HasDevice(m, id) && m.command == Some(c)
    ensures Enabled(s, Parse(h))
    ensures Shows(Step(reg, s, Parse(h)), handlers[h := Sending(JobOf(id, c))], [], levels)
  {
  }

  lemma SendShown(reg: Registry, s: State, handlers: map<nat, Handler>, queue: seq<Job>, levels: Levels, h: nat, job: Job)
    requires Shows(s, handlers, queue, levels) && h in handlers && handlers[h] == Sending(job) && |queue| < 64
    ensures Enabled(s, Send(h)) && Shows(Step(reg, s, Send(h)), handlers - {h}, queue + [job], levels)
  {
  }

  lemma BothArrive(reg: Registry, levels: Levels, id: string, on: Message, off: Message) returns (evs: seq<Event>, s: State)
    requires TopicDevice(on.topic) == TopicDevice(off.topic) == Some(id)
    ensures evs == [Arrive(0, on), Arrive(1, off)]
    ensures Run(System(reg), Start(levels), evs) == Some(s)
    ensures Shows(s, map[0 := Arrived(on, id), 1 := Arrived(off, id)], [], levels)
  {
    var a := Start(levels);
    ArrivalShown(reg, a, map[], levels, 0, on, id);
    evs, s := OneMore(System(reg), a, [], a, Arrive(0, on));
    ArrivalShown(reg, s, map[0 := Arrived(on, id)], levels, 1, off, id);
    evs, s := OneMore(System(reg), a, evs, s, Arrive(1, off));
  }

  lemma BothEnsure(reg: Registry, levels: Levels, evs: seq<Event>, s: State, id: string, on: Message, off: Message)
    returns (evs': seq<Event>, s': State)
    requires Run(System(reg), Start(levels), evs) == Some(s)
    requires Shows(s, map[0 := Arrived(on, id), 1 := Arrived(off, id)], [], levels)
    ensures evs' == evs + [EnsureDevice(0), EnsureDevice(1)]
    ensures Run(System(reg), Start(levels), evs') == Some(s')
    ensures Shows(s', map[0 := HasDevice(on, id), 1 := HasDevice(off, id)], [], levels)
  {
    var handlers := map[0 := Arrived(on, id), 1 := Arrived(off, id)];
    DeviceShown(reg, s, handlers, levels, 0, on, id);
    evs', s' := OneMore(System(reg), Start(levels), evs, s, EnsureDevice(0));
    handlers := handlers[0 := HasDevice(on, id)];
    DeviceShown(reg, s', handlers, levels, 1, off, id);
    evs', s' := OneMore(System(reg), Start(levels), evs', s', EnsureDevice(1));
    assert handlers[1 := HasDevice(off, id)] == map[0 := HasDevice(on, id), 1 := HasDevice(off, id)];
  }

  lemma BothParse(reg: Registry, levels: Levels, evs: seq<Event>, s: State, id: string, on: Message, off: Message,
                  c: Command, c': Command) returns (evs': seq<Event>, s': State)
    requires Run(System(reg), Start(levels), evs) == Some(s) && on.command == Some(c) && off.command == Some(c')
    requires Shows(s, map[0 := HasDevice(on, id), 1 := HasDevice(off, id)], [], levels)
    ensures evs' == evs + [Parse(0), Parse(1)]
    ensures Run(System(reg), Start(levels), evs') == Some(s')
    ensures Shows(s', map[0 := Sending(JobOf(id, c)), 1 := Sending(JobOf(id, c'))], [], levels)
  {
    var handlers := map[0 := HasDevice(on, id), 1 := HasDevice(off, id)];
    ParseShown(reg, s, handlers, levels, 0, on, id, c);
    evs', s' := OneMore(System(reg), Start(levels), evs, s, Parse(0));
    handlers := handlers[0 := Sending(JobOf(id, c))];
    ParseShown(reg, s', handlers, levels, 1, off, id, c');
    evs', s' := OneMore(System(reg), Start(levels), evs', s', Parse(1));
    assert handlers[1 := Sending(JobOf(id, c'))] == map[0 := Sending(JobOf(id, c)), 1 := Sending(JobOf(id, c'))];
  }

  lemma SecondSendsFirst(reg: Registry, levels: Levels, evs: seq<Event>, s: State, job: Job, job': Job)
    returns (evs': seq<Event>, s': State)
    requires Run(System(reg), Start(levels), evs) == Some(s)
    requires Shows(s, map[0 := Sending(job), 1 := Sending(job')], [], levels)
    ensures evs' == evs + [Send(1), Send(0)]
    ensures Run(System(reg), Start(levels), evs') == Some(s')
    ensures Shows(s', map[], [job', job], levels)
  {
    var handlers := map[0 := Sending(job), 1 := Sending(job')];
    SendShown(reg, s, handlers, [], levels, 1, job');
    evs', s' := OneMore(System(reg), Start(levels), evs, s, Send(1));
    SendShown(reg, s', handlers - {1}, [] + [job'], levels, 0, job);
    evs', s' := OneMore(System(reg), Start(levels), evs', s', Send(0));
    assert handlers - {1} - {0} == map[];
  }

  /** ON arrives, then OFF; the handler of OFF sends first. */
  lemma OffIsQueuedFirst(reg: Registry, levels: Levels, id: string, pin: int) returns (s: State)
    requires '/' !in id
    ensures Run(System(reg), Start(levels), TwoHandlers(id, pin)) == Some(s)
    ensures Shows(s, map[], [Job(id, "OFF", pin, 0), Job(id, "ON", pin, 0)], levels)
  {
    CommandTopicNamesDevice(id);
    var evs;
    var on, off := CommandFor(id, "ON", pin), CommandFor(id, "OFF", pin);
    evs, s := BothArrive(reg, levels, id, on, off);
    evs, s := BothEnsure(reg, levels, evs, s, id, on, off);
    evs, s := BothParse(reg, levels, evs, s, id, on, off, on.command.value, off.command.value);
    evs, s := SecondSendsFirst(reg, levels, evs, s, Job(id, "ON", pin, 0), Job(id, "OFF", pin, 0));
    assert evs == TwoHandlers(id, pin);
  }

  /** OFF was the last command to arrive, both were executed, and the line ends high. */
  lemma LastArrivalCanLose(reg: Registry, levels: Levels, id: string, pin: int, line: Line)
    returns (evs: seq<Event>, s: State)
    requires '/' !in id && OnLine(reg, pin, line)
    ensures Run(System(reg), Start(levels), evs) == Some(s) && TwoHandlers(id, pin) <= evs
    ensures forall n :: 2 <= n < |evs| ==> !evs[n].Arrive?
    ensures s.worker.Idle? && s.shared.queue == []
    ensures s.shared.levels == levels[line := false][line := true]
  {
    LineOfIff(reg, pin);
    s := OffIsQueuedFirst(reg, levels, id, pin);
    evs := TwoHandlers(id, pin);
    ActionLevelIff("OFF");
    ActionLevelIff("ON");
    evs, s := JobRuns(reg, levels, evs, s);
    evs, s := JobRuns(reg, levels, evs, s);
  }
}
