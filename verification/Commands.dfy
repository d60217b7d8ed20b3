/** The command pipeline: any number of concurrent handlers, the shared controller state and
    one worker, interleaved in every order. The mutex makes each access to the device map a
    single step. */
module Commands {
  import opened Prelude
  import opened Text
  import opened Gpio
  import opened Hub
  import opened Runs

  /** A message whose body does not parse has no command. */
  datatype Message = Message(topic: string, command: Option<Command>)

  datatype Handler = Arrived(m: Message, id: string) | HasDevice(m: Message, id: string) | Sending(job: Job)

  datatype Worker = Idle | InHand(job: Job) | Found(job: Job) | Publishing(p: Publication) | Stopped

  datatype Offer = Offer(job: Job, accepted: bool)

  datatype Done = Done(job: Job, outcome: Outcome)

  /** `offers` records every send attempt, `done` every job the worker finished with and
      `published` every publication attempted, each in order. */
  datatype State = State(
    shared: Shared, handlers: map<nat, Handler>, worker: Worker, cancelled: bool,
    offers: seq<Offer>, done: seq<Done>, published: seq<Publication>)

  datatype Event =
    | Arrive(h: nat, m: Message)
    | EnsureDevice(h: nat)
    | Parse(h: nat)
    | Send(h: nat)
    | Receive
    | Lookup
    | Execute(driven: bool)
    | Publish
    | Stop
    | Cancel

  function Start(levels: Levels): State {
    State(Shared(map[], [], levels), map[], Idle, false, [], [], [])
  }

  predicate Enabled(s: State, e: Event) {
    match e
    case Arrive(h, _) => h !in s.handlers
    case EnsureDevice(h) => h in s.handlers && s.handlers[h].Arrived?
    case Parse(h) => h in s.handlers && s.handlers[h].HasDevice?
    case Send(h) => h in s.handlers && s.handlers[h].Sending?
    case Receive => s.worker.Idle? && s.shared.queue != []
    case Lookup => s.worker.InHand?
    case Execute(_) => s.worker.Found? && s.worker.job.deviceId in s.shared.devices
    case Publish => s.worker.Publishing?
    case Stop => s.worker.Idle? && s.cancelled
    case Cancel => true
  }

  // ----- One function per event -----------------------------------------------------------

  /** A topic that names no device ends the handler at once. */
  function Arrives(s: State, h: nat, m: Message): State {
    match TopicDevice(m.topic)
    case None => s
    case Some(id) => s.(handlers := s.handlers[h := Arrived(m, id)])
  }

  function DeviceEnsured(s: State, h: nat): State
    requires Enabled(s, EnsureDevice(h))
  {
    var a := s.handlers[h];
    s.(shared := WithDevice(s.shared, a.id), handlers := s.handlers[h := HasDevice(a.m, a.id)])
  }

  function Parsed(s: State, h: nat): State
    requires Enabled(s, Parse(h))
  {
    var a := s.handlers[h];
    match a.m.command
    case None => s.(handlers := s.handlers - {h})
    case Some(c) => s.(handlers := s.handlers[h := Sending(JobOf(a.id, c))])
  }

  function Sent(s: State, h: nat): State
    requires Enabled(s, Send(h))
  {
    var job := s.handlers[h].job;
    s.(shared := Offered(s.shared, job), handlers := s.handlers - {h},
       offers := s.offers + [Offer(job, Accepts(s.shared))])
  }

  function Received(s: State): State
    requires Enabled(s, Receive)
  {
    s.(shared := Taken(s.shared), worker := InHand(s.shared.queue[0]))
  }

  function LookedUp(s: State): State
    requires Enabled(s, Lookup)
  {
    if s.worker.job.deviceId in s.shared.devices then s.(worker := Found(s.worker.job))
    else s.(worker := Idle, done := s.done + [Done(s.worker.job, DeviceGone)])
  }

  function PublicationOf(job: Job): Publication {
    Publication(job.deviceId, job.action, job.timestamp)
  }

  function WasExecuted(reg: Registry, s: State, driven: bool): State
    requires s.worker.Found?
  {
    var job := s.worker.job;
    var outcome := OutcomeOf(reg, s.shared, job, driven);
    s.(shared := AfterExecution(reg, s.shared, job, driven), done := s.done + [Done(job, outcome)],
       worker := if outcome == Executed then Publishing(PublicationOf(job)) else Idle)
  }

  function PublishedNow(s: State): State
    requires Enabled(s, Publish)
  {
    s.(published := s.published + [s.worker.p], worker := Idle)
  }

  function Step(reg: Registry, s: State, e: Event): State
    requires Enabled(s, e)
  {
    match e
    case Arrive(h, m) => Arrives(s, h, m)
    case EnsureDevice(h) => DeviceEnsured(s, h)
    case Parse(h) => Parsed(s, h)
    case Send(h) => Sent(s, h)
    case Receive => Received(s)
    case Lookup => LookedUp(s)
    case Execute(driven) => WasExecuted(reg, s, driven)
    case Publish => PublishedNow(s)
    case Stop => s.(worker := Stopped)
    case Cancel => s.(cancelled := true)
  }

  function System(reg: Registry): (State, Event) -> Option<State> {
    (s: State, e: Event) => if Enabled(s, e) then Some(Step(reg, s, e)) else None
  }

  // ----- Accounting -------------------------------------------------------------------------

  function AcceptedJobs(offers: seq<Offer>): seq<Job> {
    if offers == [] then []
    else AcceptedJobs(offers[..|offers| - 1]) +
         (if offers[|offers| - 1].accepted then [offers[|offers| - 1].job] else [])
  }

  function JobsOf(done: seq<Done>): seq<Job> {
    seq(|done|, i requires 0 <= i < |done| => done[i].job)
  }

  function Carried(w: Worker): seq<Job> {
    if w.InHand? || w.Found? then [w.job] else []
  }

  /** The publications owed to the successful executions, in order. */
  function Owed(done: seq<Done>): seq<Publication> {
    if done == [] then []
    else Owed(done[..|done| - 1]) +
         (var d := done[|done| - 1];
          if d.outcome == Executed then [Publication(d.job.deviceId, d.job.action, d.job.timestamp)] else [])
  }

  function Pending(w: Worker): seq<Publication> {
    if w.Publishing? then [w.p] else []
  }

  /** The line a finished job drove and the level it drove it to. */
  function Drove(reg: Registry, d: Done): Option<(Line, bool)> {
    if d.outcome != Executed || LineOf(reg, d.job.pin).None? || ActionLevel(d.job.action).None? then None
    else Some((LineOf(reg, d.job.pin).value, ActionLevel(d.job.action).value))
  }

  /** Levels after the finished jobs, with no cache anywhere. */
  function Replay(reg: Registry, levels: Levels, done: seq<Done>): Levels {
    if done == [] then levels
    else
      var before := Replay(reg, levels, done[..|done| - 1]);
      match Drove(reg, done[|done| - 1])
      case None => before
      case Some((line, level)) => before[line := level]
  }

  lemma AcceptedNext(offers: seq<Offer>, o: Offer)
    ensures AcceptedJobs(offers + [o]) == AcceptedJobs(offers) + (if o.accepted then [o.job] else [])
  {
    assert (offers + [o])[..|offers|] == offers;
  }

  lemma DoneNext(reg: Registry, levels: Levels, done: seq<Done>, d: Done)
    ensures JobsOf(done + [d]) == JobsOf(done) + [d.job]
    ensures Owed(done + [d]) == Owed(done) + (if d.outcome == Executed then [PublicationOf(d.job)] else [])
    ensures Replay(reg, levels, done + [d]) ==
            match Drove(reg, d) case None => Replay(reg, levels, done)
                                case Some((line, level)) => Replay(reg, levels, done)[line := level]
  {
    assert (done + [d])[..|done|] == done;
  }

  // ----- The invariant ------------------------------------------------------------------------

  predicate Known(s: State, id: string) {
    id in s.shared.devices
  }

  predicate DevicesOk(reg: Registry, s: State) {
    forall k :: k in s.shared.devices ==>
      s.shared.devices[k].id == k && CacheOk(reg, s.shared.devices[k].pinCache)
  }

  predicate HandlersKnown(s: State) {
    forall h :: h in s.handlers ==>
      match s.handlers[h]
      case Arrived(_, _) => true
      case HasDevice(_, id) => Known(s, id)
      case Sending(job) => Known(s, job.deviceId)
  }

  predicate JobsKnown(s: State) {
    && (forall i :: 0 <= i < |s.shared.queue| ==> Known(s, s.shared.queue[i].deviceId))
    && (s.worker.InHand? || s.worker.Found? ==> Known(s, s.worker.job.deviceId))
  }

  predicate NeverGone(s: State) {
    forall i :: 0 <= i < |s.done| ==> s.done[i].outcome != DeviceGone
  }

  predicate Books(reg: Registry, levels: Levels, s: State) {
    && AcceptedJobs(s.offers) == JobsOf(s.done) + Carried(s.worker) + s.shared.queue
    && Owed(s.done) == s.published + Pending(s.worker)
    && s.shared.levels == Replay(reg, levels, s.done)
    && |s.shared.queue| <= CHANNEL_SIZE
  }

  predicate Inv(reg: Registry, levels: Levels, s: State) {
    && DevicesOk(reg, s) && HandlersKnown(s) && JobsKnown(s) && NeverGone(s) && Books(reg, levels, s)
  }

  lemma ArrivesKeeps(reg: Registry, levels: Levels, s: State, h: nat, m: Message)
    requires Inv(reg, levels, s)
    ensures Inv(reg, levels, Arrives(s, h, m))
  {
  }

  lemma DeviceEnsuredKeeps(reg: Registry, levels: Levels, s: State, h: nat)
    requires Enabled(s, EnsureDevice(h)) && Inv(reg, levels, s)
    ensures Inv(reg, levels, DeviceEnsured(s, h))
  {
    assert forall id :: Known(s, id) ==> Known(DeviceEnsured(s, h), id);
  }

  lemma ParsedKeeps(reg: Registry, levels: Levels, s: State, h: nat)
    requires Enabled(s, Parse(h)) && Inv(reg, levels, s)
    ensures Inv(reg, levels, Parsed(s, h))
  {
  }

  lemma SentKeepsBooks(reg: Registry, levels: Levels, s: State, h: nat)
    requires Enabled(s, Send(h)) && Books(reg, levels, s)
    ensures Books(reg, levels, Sent(s, h))
  {
    var job := s.handlers[h].job;
    AcceptedNext(s.offers, Offer(job, Accepts(s.shared)));
    if Accepts(s.shared) {
      assert JobsOf(s.done) + Carried(s.worker) + (s.shared.queue + [job])
          == JobsOf(s.done) + Carried(s.worker) + s.shared.queue + [job];
    }
  }

  lemma SentKeepsHandlers(s: State, s': State, h: nat)
    requires HandlersKnown(s) && s'.handlers == s.handlers - {h} && s'.shared.devices == s.shared.devices
    ensures HandlersKnown(s')
  {
  }

  lemma SentKeepsJobs(s: State, s': State, job: Job)
    requires JobsKnown(s) && Known(s, job.deviceId)
    requires s'.worker == s.worker && s'.shared.devices == s.shared.devices
    requires s'.shared.queue == s.shared.queue || s'.shared.queue == s.shared.queue + [job]
    ensures JobsKnown(s')
  {
  }

  lemma SendKeeps(reg: Registry, levels: Levels, s: State, h: nat)
    requires Enabled(s, Send(h)) && Inv(reg, levels, s)
    ensures Inv(reg, levels, Sent(s, h))
  {
    SentKeepsBooks(reg, levels, s, h);
    assert Known(s, s.handlers[h].job.deviceId);
    SentKeepsHandlers(s, Sent(s, h), h);
    SentKeepsJobs(s, Sent(s, h), s.handlers[h].job);
  }

  /** Taking the first job only moves the border between the jobs. */
  lemma QueueSplit(done: seq<Job>, queue: seq<Job>)
    requires queue != []
    ensures done + [] + queue == done + [queue[0]] + queue[1..]
  {
  }

  lemma ReceiveKeepsBooks(reg: Registry, levels: Levels, s: State)
    requires Enabled(s, Receive) && Books(reg, levels, s)
    ensures Books(reg, levels, Received(s))
  {
    QueueSplit(JobsOf(s.done), s.shared.queue);
  }

  lemma ReceiveKeeps(reg: Registry, levels: Levels, s: State)
    requires Enabled(s, Receive) && Inv(reg, levels, s)
    ensures Inv(reg, levels, Received(s))
  {
    ReceiveKeepsBooks(reg, levels, s);
    assert Received(s).shared.devices == s.shared.devices && Received(s).handlers == s.handlers;
    assert forall i :: 0 <= i < |s.shared.queue| - 1 ==> Received(s).shared.queue[i] == s.shared.queue[i + 1];
  }

  lemma DriveIsReplayed(reg: Registry, h: Shared, job: Job, driven: bool)
    ensures AfterExecution(reg, h, job, driven).levels ==
            match Drove(reg, Done(job, OutcomeOf(reg, h, job, driven)))
            case None => h.levels
            case Some((line, level)) => h.levels[line := level]
    ensures AfterExecution(reg, h, job, driven).queue == h.queue
  {
  }

  lemma ExecuteKeepsBooks(reg: Registry, levels: Levels, s: State, driven: bool)
    requires Enabled(s, Execute(driven)) && Books(reg, levels, s)
    ensures Books(reg, levels, WasExecuted(reg, s, driven))
  {
    var job := s.worker.job;
    var d := Done(job, OutcomeOf(reg, s.shared, job, driven));
    DoneNext(reg, levels, s.done, d);
    DriveIsReplayed(reg, s.shared, job, driven);
    assert JobsOf(s.done) + [job] + s.shared.queue == JobsOf(s.done + [d]) + [] + s.shared.queue;
    assert s.published + [] == s.published;
  }

  lemma ExecuteKeepsDevices(reg: Registry, s: State, driven: bool)
    requires Enabled(s, Execute(driven)) && DevicesOk(reg, s)
    ensures DevicesOk(reg, WasExecuted(reg, s, driven))
    ensures WasExecuted(reg, s, driven).shared.devices.Keys == s.shared.devices.Keys
  {
    CachedStaysOk(reg, s.shared.devices[s.worker.job.deviceId].pinCache, s.worker.job.pin);
  }

  lemma ExecuteKeeps(reg: Registry, levels: Levels, s: State, driven: bool)
    requires Enabled(s, Execute(driven)) && Inv(reg, levels, s)
    ensures Inv(reg, levels, WasExecuted(reg, s, driven))
  {
    ExecuteKeepsBooks(reg, levels, s, driven);
    ExecuteKeepsDevices(reg, s, driven);
    KnownStays(s, WasExecuted(reg, s, driven));
  }

  /** Who is known stays known, so handlers and jobs untouched by a step stay in order. */
  lemma KnownStays(s: State, s': State)
    requires HandlersKnown(s) && JobsKnown(s)
    requires s'.handlers == s.handlers && s'.shared.queue == s.shared.queue
    requires s'.shared.devices.Keys == s.shared.devices.Keys
    requires s'.worker.InHand? || s'.worker.Found? ==> s'.worker == s.worker
    ensures HandlersKnown(s') && JobsKnown(s')
  {
    assert forall id :: Known(s, id) ==> Known(s', id);
  }

  lemma WorkerKeeps(reg: Registry, levels: Levels, s: State, e: Event)
    requires Enabled(s, e) && Inv(reg, levels, s)
    requires e.Lookup? || e.Publish? || e.Stop? || e.Cancel?
    ensures Inv(reg, levels, Step(reg, s, e))
  {
  }

  lemma StepKeepsInv(reg: Registry, levels: Levels, s: State, e: Event)
    requires Enabled(s, e) && Inv(reg, levels, s)
    ensures Inv(reg, levels, Step(reg, s, e))
  {
    match e {
      case Send(h) => SendKeeps(reg, levels, s, h);
      case Receive => ReceiveKeeps(reg, levels, s);
      case Execute(driven) => ExecuteKeeps(reg, levels, s, driven);
      case Arrive(h, m) => ArrivesKeeps(reg, levels, s, h, m);
      case EnsureDevice(h) => DeviceEnsuredKeeps(reg, levels, s, h);
      case Parse(h) => ParsedKeeps(reg, levels, s, h);
      case _ => WorkerKeeps(reg, levels, s, e);
    }
  }

  lemma RunKeepsInv(reg: Registry, levels: Levels, evs: seq<Event>, s: State)
    requires Run(System(reg), Start(levels), evs) == Some(s)
    ensures Inv(reg, levels, s)
  {
    forall t, e | Inv(reg, levels, t) && System(reg)(t, e).Some?
      ensures Inv(reg, levels, System(reg)(t, e).value)
    {
      StepKeepsInv(reg, levels, t, e);
    }
    RunKeeps(System(reg), t => Inv(reg, levels, t), Start(levels), evs);
  }

  // ----- What holds of every run ----------------------------------------------------------------

  /** On every run the device of every job that waits or is in hand exists under its own id,
      so no job ever meets a missing device, and at most 64 jobs wait. */
  lemma DevicesAlwaysThere(reg: Registry, levels: Levels, evs: seq<Event>, s: State)
    requires Run(System(reg), Start(levels), evs) == Some(s)
    ensures forall k :: k in s.shared.devices ==> s.shared.devices[k].id == k
    ensures forall i :: 0 <= i < |s.shared.queue| ==> s.shared.queue[i].deviceId in s.shared.devices
    ensures forall i :: 0 <= i < |s.done| ==> s.done[i].outcome != DeviceGone
    ensures s.worker.InHand? ==> LookedUp(s).worker.Found?
    ensures |s.shared.queue| <= 64
  {
    RunKeepsInv(reg, levels, evs, s);
  }

  /** No event removes or replaces a device: its entry stays, under the same id, and its
      cache only grows. */
  lemma DevicesNeverReplaced(reg: Registry, levels: Levels, evs: seq<Event>, s: State, e: Event)
    requires Run(System(reg), Start(levels), evs) == Some(s) && Enabled(s, e)
    ensures forall k :: k in s.shared.devices ==> SameOrGrown(s.shared.devices, Step(reg, s, e).shared.devices, k)
  {
    forall k | k in s.shared.devices
      ensures SameOrGrown(s.shared.devices, Step(reg, s, e).shared.devices, k)
    {
      if e.Execute? {
        ExecutionGrows(reg, s, e.driven, k);
      }
    }
  }

  predicate SameOrGrown(before: map<string, Device>, after: map<string, Device>, k: string)
    requires k in before
  {
    && k in after && after[k].id == before[k].id
    && forall p :: p in before[k].pinCache ==>
         p in after[k].pinCache && after[k].pinCache[p] == before[k].pinCache[p]
  }

  lemma ExecutionGrows(reg: Registry, s: State, driven: bool, k: string)
    requires s.worker.Found? && k in s.shared.devices
    ensures SameOrGrown(s.shared.devices, WasExecuted(reg, s, driven).shared.devices, k)
  {
  }

  /** On every run the accepted jobs are those executed, in hand and waiting, in that order;
      the publications attempted are those owed to the successful executions, in order, with
      action and timestamp as received; at most the newest is still to come. */
  lemma JobsAccountedFor(reg: Registry, levels: Levels, evs: seq<Event>, s: State)
    requires Run(System(reg), Start(levels), evs) == Some(s)
    ensures AcceptedJobs(s.offers) == JobsOf(s.done) + Carried(s.worker) + s.shared.queue
    ensures Owed(s.done) == s.published + Pending(s.worker)
  {
    RunKeepsInv(reg, levels, evs, s);
  }

  /** The caches never show: on every run the levels are those of replaying the finished
      jobs with fresh lookups. */
  lemma LevelsAreReplayed(reg: Registry, levels: Levels, evs: seq<Event>, s: State)
    requires Run(System(reg), Start(levels), evs) == Some(s)
    ensures s.shared.levels == Replay(reg, levels, s.done)
  {
    RunKeepsInv(reg, levels, evs, s);
  }

  /** The job was executed, its action asks for the level and its pin number is spelled by a
      registered name on the line. */
  ghost predicate DroveTo(reg: Registry, d: Done, line: Line, level: bool) {
    && d.outcome == Executed && (if level then IsOn(d.job.action) else IsOff(d.job.action))
    && OnLine(reg, d.job.pin, line)
  }

  ghost predicate DroveLine(reg: Registry, d: Done, line: Line) {
    DroveTo(reg, d, line, true) || DroveTo(reg, d, line, false)
  }

  ghost predicate LastToDrive(reg: Registry, done: seq<Done>, i: nat, line: Line, level: bool) {
    && i < |done| && DroveTo(reg, done[i], line, level)
    && forall j :: i < j < |done| ==> !DroveLine(reg, done[j], line)
  }

  lemma DroveIff(reg: Registry, d: Done, line: Line, level: bool)
    ensures Drove(reg, d) == Some((line, level)) <==> DroveTo(reg, d, line, level)
  {
    LineOfIff(reg, d.job.pin);
    ActionLevelIff(d.job.action);
  }

  lemma {:induction false} ReplayLast(reg: Registry, levels: Levels, done: seq<Done>, i: nat, line: Line, level: bool)
    requires LastToDrive(reg, done, i, line, level)
    ensures line in Replay(reg, levels, done) && Replay(reg, levels, done)[line] == level
  {
    var n := |done| - 1;
    DroveIff(reg, done[n], line, true);
    DroveIff(reg, done[n], line, false);
    if i == n {
    } else {
      assert !DroveLine(reg, done[n], line);
      assert LastToDrive(reg, done[..n], i, line, level);
      ReplayLast(reg, levels, done[..n], i, line, level);
    }
  }

  lemma {:induction false} ReplayUntouched(reg: Registry, levels: Levels, done: seq<Done>, line: Line)
    requires forall j :: 0 <= j < |done| ==> !DroveLine(reg, done[j], line)
    ensures line in Replay(reg, levels, done) <==> line in levels
    ensures line in levels ==> Replay(reg, levels, done)[line] == levels[line]
  {
    if done == [] {
    } else {
      var n := |done| - 1;
      assert !DroveLine(reg, done[n], line);
      DroveIff(reg, done[n], line, true);
      DroveIff(reg, done[n], line, false);
      ReplayUntouched(reg, levels, done[..n], line);
    }
  }

  /** What one execution records and does: how the job ends, and the level of the one line it
      names. */
  lemma ExecutionRecorded(reg: Registry, s: State, driven: bool)
    requires Enabled(s, Execute(driven))
    ensures var job, s' := s.worker.job, Step(reg, s, Execute(driven));
            && |s'.done| == |s.done| + 1 && s'.done[..|s.done|] == s.done && s'.done[|s.done|].job == job
            && EndsWith(reg, job, true, driven, s'.done[|s.done|].outcome)
            && (s'.done[|s.done|].outcome != Executed ==> s'.shared.levels == s.shared.levels)
            && (s'.done[|s.done|].outcome == Executed ==>
                  exists line: Line :: OnLine(reg, job.pin, line) && s'.shared.levels == s.shared.levels[line := IsOn(job.action)])
  {
    OutcomeEnds(reg, s.shared, s.worker.job, driven);
    LevelsAfterExecution(reg, s.shared, s.worker.job, driven);
  }

  /** A send is accepted exactly when fewer than 64 jobs wait. */
  lemma OfferRecorded(reg: Registry, s: State, h: nat)
    requires Enabled(s, Send(h))
    ensures var job, s' := s.handlers[h].job, Step(reg, s, Send(h));
            && s'.offers == s.offers + [Offer(job, |s.shared.queue| < 64)]
            && s'.shared.queue == if |s.shared.queue| < 64 then s.shared.queue + [job] else s.shared.queue
  {
  }

  /** A worker that has stopped takes, executes and publishes nothing more. */
  lemma StoppedForGood(reg: Registry, s: State, e: Event)
    requires Enabled(s, e) && s.worker.Stopped?
    ensures var s' := Step(reg, s, e);
            s'.worker.Stopped? && s'.done == s.done && s'.published == s.published && s'.shared.levels == s.shared.levels
  {
  }

  lemma CancelNext(reg: Registry, s: State, e: Event)
    requires Enabled(s, e)
    ensures Step(reg, s, e).cancelled == (s.cancelled || e == Cancel)
    ensures Step(reg, s, e).worker.Stopped? ==> s.worker.Stopped? || s.cancelled
  {
  }

  /** The worker stops only after the context was cancelled. */
  lemma {:induction false} StopsAfterCancel(reg: Registry, levels: Levels, evs: seq<Event>, s: State)
    requires Run(System(reg), Start(levels), evs) == Some(s)
    ensures s.cancelled <==> Cancel in evs
    ensures s.worker.Stopped? ==> Cancel in evs
  {
    if evs == [] {
    } else {
      var before, e := evs[..|evs| - 1], evs[|evs| - 1];
      var t := Run(System(reg), Start(levels), before).value;
      StopsAfterCancel(reg, levels, before, t);
      CancelNext(reg, t, e);
      assert before + [e] == evs;
    }
  }

  /** After any run a line stands at the level of the last successful ON or OFF on any pin
      of any device that resolves to it, and where it stood if there was none. */
  lemma LineFollowsLastCommand(reg: Registry, levels: Levels, evs: seq<Event>, s: State, line: Line)
    requires Run(System(reg), Start(levels), evs) == Some(s)
    ensures forall i, level :: LastToDrive(reg, s.done, i, line, level) ==>
              line in s.shared.levels && s.shared.levels[line] == level
    ensures (forall j :: 0 <= j < |s.done| ==> !DroveLine(reg, s.done[j], line)) ==>
              (line in s.shared.levels <==> line in levels) &&
              (line in levels ==> s.shared.levels[line] == levels[line])
  {
    LevelsAreReplayed(reg, levels, evs, s);
    forall i, level | LastToDrive(reg, s.done, i, line, level)
      ensures line in s.shared.levels && s.shared.levels[line] == level
    {
      ReplayLast(reg, levels, s.done, i, line, level);
    }
    if forall j :: 0 <= j < |s.done| ==> !DroveLine(reg, s.done[j], line) {
      ReplayUntouched(reg, levels, s.done, line);
    }
  }
}
