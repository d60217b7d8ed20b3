/** ClaimSubscriber.Wait as a step system: the message callback, the waiting call, their two
    one-place channels, the context and the disk, interleaved in every order. Callbacks run
    one after another, and may run before Subscribe returns and after Wait has returned. */
module ClaimWait {
  import opened Prelude
  import opened ProvisionTypes
  import opened Claim
  import opened StateFile
  import opened Runs
  import opened Selections

  datatype Payload = Garbage | Parsed(r: ClaimResponse)

  datatype WaitError =
    | ParseClaim
    | VerifyClaim(v: VerifyError)
    | PersistState
    | SubscribeFailed
    | ContextDone

  datatype SaveStage = Marshalled | Opened | Written

  datatype Callback = Idle | Saving(st: ActiveState, stage: SaveStage) | Delivering(st: ActiveState)

  datatype Waiter = Subscribing | Selecting | Returned(st: ActiveState) | Failed(err: WaitError)

  /** The last four fields record the run: messages handled, states that reached state.json
      in order, whether a save failed, whether the subscription failed. */
  datatype Wait = Wait(
    cb: Callback, waiter: Waiter, resultCh: Option<ActiveState>, errCh: Option<WaitError>, cancelled: bool,
    handled: seq<Payload>, persisted: seq<ActiveState>, saveFailed: bool, subscribeFailed: bool)

  datatype State = State(w: Wait, disk: Disk)

  datatype Event =
    | Deliver(p: Payload)
    | OpenTemp(ok: bool)
    | WriteTemp(ok: bool)
    | RenameTemp(ok: bool)
    | SendResult
    | SubscribeEnds(ok: bool)
    | TakeResult
    | TakeError
    | TakeCancel
    | Cancel

  function Start(disk: Disk): State {
    State(Wait(Idle, Subscribing, None, None, false, [], [], false, false), disk)
  }

  /** A send in a select with an empty default: dropped when the channel is full. */
  function Offer<T>(ch: Option<T>, x: T): Option<T> {
    if ch.None? then Some(x) else ch
  }

  predicate Enabled(s: State, e: Event) {
    match e
    case Deliver(_) => s.w.cb.Idle?
    case OpenTemp(_) => s.w.cb.Saving? && s.w.cb.stage == Marshalled
    case WriteTemp(_) => s.w.cb.Saving? && s.w.cb.stage == Opened
    case RenameTemp(_) => s.w.cb.Saving? && s.w.cb.stage == Written && s.disk.temp.Some?
    case SendResult => s.w.cb.Delivering?
    case SubscribeEnds(_) => s.w.waiter.Subscribing?
    case TakeResult => s.w.waiter.Selecting? && s.w.resultCh.Some?
    case TakeError => s.w.waiter.Selecting? && s.w.errCh.Some?
    case TakeCancel => s.w.waiter.Selecting? && s.w.cancelled
    case Cancel => true
  }

  // ----- One function per event ----------------------------------------------------------

  /** A message is parsed and verified; both failures are offered to the error channel. */
  function Handled(own: string, s: State, p: Payload): State {
    var w := s.w.(handled := s.w.handled + [p]);
    match p
    case Garbage => s.(w := w.(errCh := Offer(w.errCh, ParseClaim)))
    case Parsed(r) =>
      match Verify(Some(r), own)
      case Some(v) => s.(w := w.(errCh := Offer(w.errCh, VerifyClaim(v))))
      case None => s.(w := w.(cb := Saving(ToActiveState(r), Marshalled)))
  }

  function SaveFailed(s: State): State {
    s.(w := s.w.(cb := Idle, errCh := Offer(s.w.errCh, PersistState), saveFailed := true))
  }

  function TempOpened(s: State): State
    requires s.w.cb.Saving?
  {
    State(s.w.(cb := Saving(s.w.cb.st, Opened)), OpenedTemp(s.disk))
  }

  function TempWritten(s: State): State
    requires s.w.cb.Saving?
  {
    State(s.w.(cb := Saving(s.w.cb.st, Written)), WrittenTemp(s.disk, s.w.cb.st))
  }

  function TempRenamed(s: State): State
    requires s.w.cb.Saving? && s.disk.temp.Some?
  {
    State(s.w.(cb := Delivering(s.w.cb.st), persisted := s.w.persisted + [s.w.cb.st]), Renamed(s.disk))
  }

  function ResultSent(s: State): State
    requires s.w.cb.Delivering?
  {
    s.(w := s.w.(cb := Idle, resultCh := Offer(s.w.resultCh, s.w.cb.st)))
  }

  function SubscribeEnded(s: State, ok: bool): State {
    if ok then s.(w := s.w.(waiter := Selecting))
    else s.(w := s.w.(waiter := Failed(SubscribeFailed), subscribeFailed := true))
  }

  function ResultTaken(s: State): State
    requires s.w.resultCh.Some?
  {
    s.(w := s.w.(waiter := Returned(s.w.resultCh.value), resultCh := None))
  }

  function ErrorTaken(s: State): State
    requires s.w.errCh.Some?
  {
    s.(w := s.w.(waiter := Failed(s.w.errCh.value), errCh := None))
  }

  function CancelTaken(s: State): State {
    s.(w := s.w.(waiter := Failed(ContextDone)))
  }

  function Cancelled(s: State): State {
    s.(w := s.w.(cancelled := true))
  }

  function Step(own: string, s: State, e: Event): State
    requires Enabled(s, e)
  {
    match e
    case Deliver(p) => Handled(own, s, p)
    case OpenTemp(ok) => if ok then TempOpened(s) else SaveFailed(s)
    case WriteTemp(ok) => if ok then TempWritten(s) else SaveFailed(s)
    case RenameTemp(ok) => if ok then TempRenamed(s) else SaveFailed(s)
    case SendResult => ResultSent(s)
    case SubscribeEnds(ok) => SubscribeEnded(s, ok)
    case TakeResult => ResultTaken(s)
    case TakeError => ErrorTaken(s)
    case TakeCancel => CancelTaken(s)
    case Cancel => Cancelled(s)
  }

  function System(own: string): (State, Event) -> Option<State> {
    (s: State, e: Event) => if Enabled(s, e) then Some(Step(own, s, e)) else None
  }

  // ----- The invariant --------------------------------------------------------------------

  /** st is the image of a claim that verification accepts for this board. */
  ghost predicate FromClaim(own: string, st: ActiveState) {
    exists r :: Accepted(r, own) && st == ToActiveState(r)
  }

  /** The acceptable claims among the messages, in the order they came. */
  function AcceptedClaims(own: string, ps: seq<Payload>): seq<ClaimResponse> {
    if ps == [] then []
    else
      var p := ps[|ps| - 1];
      AcceptedClaims(own, ps[..|ps| - 1]) + (if p.Parsed? && Accepted(p.r, own) then [p.r] else [])
  }

  function Acceptances(own: string, ps: seq<Payload>): nat {
    |AcceptedClaims(own, ps)|
  }

  /** Every error has its cause in the run. */
  ghost predicate Justified(own: string, w: Wait, e: WaitError) {
    match e
    case ParseClaim => Garbage in w.handled
    case VerifyClaim(v) => exists r :: Parsed(r) in w.handled && Verify(Some(r), own) == Some(v)
    case PersistState => w.saveFailed
    case SubscribeFailed => w.subscribeFailed
    case ContextDone => w.cancelled
  }

  /** What state.json holds after the persisted states, starting from `initial`. */
  function FileAfter(initial: Option<Content>, persisted: seq<ActiveState>): Option<Content> {
    if persisted == [] then initial else Some(Complete(persisted[|persisted| - 1]))
  }

  ghost predicate CallbackInv(own: string, s: State) {
    match s.w.cb
    case Idle => true
    case Saving(st, stage) =>
      && FromClaim(own, st)
      && (stage == Written ==> s.disk.temp == Some(Complete(st)))
    case Delivering(st) => s.w.persisted != [] && s.w.persisted[|s.w.persisted| - 1] == st
  }

  /** Until Wait returns, the result channel holds the first persisted state as soon as the
      callback that persisted it has finished. */
  ghost predicate ChannelInv(w: Wait) {
    match w.waiter
    case Returned(st) => w.persisted != [] && st == w.persisted[0]
    case Failed(_) => true
    case _ =>
      && (w.resultCh.Some? ==> w.persisted != [] && w.resultCh.value == w.persisted[0])
      && (w.persisted != [] && w.resultCh.None? ==> |w.persisted| == 1 && w.cb.Delivering?)
  }

  ghost predicate ErrorInv(own: string, w: Wait) {
    && (w.errCh.Some? ==> Justified(own, w, w.errCh.value))
    && (w.waiter.Failed? ==> Justified(own, w, w.waiter.err))
  }

  ghost predicate Inv(own: string, initial: Option<Content>, s: State) {
    && s.disk.file == FileAfter(initial, s.w.persisted)
    && (forall st :: st in s.w.persisted ==> FromClaim(own, st))
    && |s.w.persisted| + (if s.w.cb.Saving? then 1 else 0) <= Acceptances(own, s.w.handled)
    && CallbackInv(own, s)
    && ChannelInv(s.w)
    && ErrorInv(own, s.w)
  }

  lemma JustifiedStays(own: string, w: Wait, w': Wait, e: WaitError)
    requires Justified(own, w, e)
    requires forall p :: p in w.handled ==> p in w'.handled
    requires w.saveFailed ==> w'.saveFailed
    requires w.subscribeFailed ==> w'.subscribeFailed
    requires w.cancelled ==> w'.cancelled
    ensures Justified(own, w', e)
  {
  }

  /** Errors already recorded stay justified as the run's record grows. */
  lemma ErrorsStay(own: string, w: Wait, w': Wait)
    requires ErrorInv(own, w)
    requires w'.errCh == w.errCh || (w'.errCh.Some? && Justified(own, w', w'.errCh.value))
    requires w'.waiter == w.waiter || !w'.waiter.Failed? || Justified(own, w', w'.waiter.err)
    requires forall p :: p in w.handled ==> p in w'.handled
    requires w.saveFailed ==> w'.saveFailed
    requires w.subscribeFailed ==> w'.subscribeFailed
    requires w.cancelled ==> w'.cancelled
    ensures ErrorInv(own, w')
  {
    if w.errCh.Some? {
      JustifiedStays(own, w, w', w.errCh.value);
    }
    if w.waiter.Failed? {
      JustifiedStays(own, w, w', w.waiter.err);
    }
  }

  lemma AcceptancesGrow(own: string, ps: seq<Payload>, p: Payload)
    ensures AcceptedClaims(own, ps + [p]) ==
            AcceptedClaims(own, ps) + (if p.Parsed? && Accepted(p.r, own) then [p.r] else [])
    ensures Acceptances(own, ps + [p]) ==
            Acceptances(own, ps) + (if p.Parsed? && Accepted(p.r, own) then 1 else 0)
  {
    assert (ps + [p])[..|ps|] == ps;
  }

  lemma HandledJustifies(own: string, s: State, p: Payload)
    requires ErrorInv(own, s.w)
    ensures ErrorInv(own, Handled(own, s, p).w)
  {
    var w' := Handled(own, s, p).w;
    assert p in w'.handled;
    ErrorsStay(own, s.w, w');
  }

  lemma HandledKeeps(own: string, initial: Option<Content>, s: State, p: Payload)
    requires Inv(own, initial, s) && s.w.cb.Idle?
    ensures Inv(own, initial, Handled(own, s, p))
  {
    AcceptancesGrow(own, s.w.handled, p);
    HandledJustifies(own, s, p);
    var s' := Handled(own, s, p);
    if p.Parsed? && Accepted(p.r, own) {
      assert FromClaim(own, ToActiveState(p.r));
    }
    assert s'.disk == s.disk && s'.w.persisted == s.w.persisted;
    assert CallbackInv(own, s');
    assert ChannelInv(s'.w);
  }

  lemma SaveFailedKeeps(own: string, initial: Option<Content>, s: State)
    requires Inv(own, initial, s) && s.w.cb.Saving?
    ensures Inv(own, initial, SaveFailed(s))
  {
    ErrorsStay(own, s.w, SaveFailed(s).w);
  }

  lemma TempOpenedKeeps(own: string, initial: Option<Content>, s: State)
    requires Inv(own, initial, s) && s.w.cb.Saving?
    ensures Inv(own, initial, TempOpened(s))
  {
    ErrorsStay(own, s.w, TempOpened(s).w);
  }

  lemma TempWrittenKeeps(own: string, initial: Option<Content>, s: State)
    requires Inv(own, initial, s) && s.w.cb.Saving?
    ensures Inv(own, initial, TempWritten(s))
  {
    ErrorsStay(own, s.w, TempWritten(s).w);
  }

  lemma TempRenamedKeeps(own: string, initial: Option<Content>, s: State)
    requires Inv(own, initial, s) && s.w.cb.Saving? && s.w.cb.stage == Written && s.disk.temp.Some?
    ensures Inv(own, initial, TempRenamed(s))
  {
    ErrorsStay(own, s.w, TempRenamed(s).w);
  }

  /** The first persisted state fills the empty channel; any other finds it full. */
  lemma ResultSentChannel(own: string, s: State)
    requires s.w.cb.Delivering? && ChannelInv(s.w) && CallbackInv(own, s)
    ensures ChannelInv(ResultSent(s).w)
  {
    assert |s.w.persisted| == 1 ==> s.w.persisted[|s.w.persisted| - 1] == s.w.persisted[0];
  }

  lemma FrameKeeps(own: string, initial: Option<Content>, s: State, s': State)
    requires Inv(own, initial, s) && s'.disk == s.disk
    requires s'.w.persisted == s.w.persisted && s'.w.handled == s.w.handled
    requires s'.w.cb.Saving? ==> s.w.cb.Saving?
    requires CallbackInv(own, s') && ChannelInv(s'.w) && ErrorInv(own, s'.w)
    ensures Inv(own, initial, s')
  {
  }

  lemma ResultSentKeeps(own: string, initial: Option<Content>, s: State)
    requires Inv(own, initial, s) && s.w.cb.Delivering?
    ensures Inv(own, initial, ResultSent(s))
  {
    ErrorsStay(own, s.w, ResultSent(s).w);
    ResultSentChannel(own, s);
    FrameKeeps(own, initial, s, ResultSent(s));
  }

  lemma WaiterKeeps(own: string, initial: Option<Content>, s: State, e: Event)
    requires Inv(own, initial, s) && Enabled(s, e)
    requires e.SubscribeEnds? || e.TakeResult? || e.TakeError? || e.TakeCancel? || e.Cancel?
    ensures Inv(own, initial, Step(own, s, e))
  {
    var w' := Step(own, s, e).w;
    if w'.waiter.Failed? && w'.waiter != s.w.waiter {
      assert Justified(own, w', w'.waiter.err);
    }
    if e.TakeError? {
      assert ErrorInv(own, w');
    } else {
      ErrorsStay(own, s.w, w');
    }
  }

  lemma StepKeepsInv(own: string, initial: Option<Content>, s: State, e: Event)
    requires Enabled(s, e) && Inv(own, initial, s)
    ensures Inv(own, initial, Step(own, s, e))
  {
    match e {
      case Deliver(p) => HandledKeeps(own, initial, s, p);
      case OpenTemp(ok) =>
        TempOpenedKeeps(own, initial, s);
        SaveFailedKeeps(own, initial, s);
      case WriteTemp(ok) =>
        TempWrittenKeeps(own, initial, s);
        SaveFailedKeeps(own, initial, s);
      case RenameTemp(ok) =>
        TempRenamedKeeps(own, initial, s);
        SaveFailedKeeps(own, initial, s);
      case SendResult => ResultSentKeeps(own, initial, s);
      case _ => WaiterKeeps(own, initial, s, e);
    }
  }

  lemma RunKeepsInv(own: string, disk: Disk, evs: seq<Event>, s: State)
    requires Run(System(own), Start(disk), evs) == Some(s)
    ensures Inv(own, disk.file, s)
  {
    forall t, e | Inv(own, disk.file, t) && System(own)(t, e).Some?
      ensures Inv(own, disk.file, System(own)(t, e).value)
    {
      StepKeepsInv(own, disk.file, t, e);
    }
    RunKeeps(System(own), t => Inv(own, disk.file, t), Start(disk), evs);
  }

  // ----- What holds of every run ------------------------------------------------------------

  /** On every run: a returned state is the first one persisted; state.json holds the last
      one persisted, or what it held at the start; all of them are images of accepted
      claims; and every error has its cause in the run. */
  lemma WaitOutcomes(own: string, disk: Disk, evs: seq<Event>, s: State)
    requires Run(System(own), Start(disk), evs) == Some(s)
    ensures s.disk.file == FileAfter(disk.file, s.w.persisted)
    ensures forall st :: st in s.w.persisted ==> FromClaim(own, st)
    ensures |s.w.persisted| <= Acceptances(own, s.w.handled)
    ensures s.w.waiter.Returned? ==> s.w.persisted != [] && s.w.waiter.st == s.w.persisted[0]
    ensures s.w.waiter.Failed? ==> Justified(own, s.w, s.w.waiter.err)
  {
    RunKeepsInv(own, disk, evs, s);
  }

  // ----- Which claims are saved, in terms of the messages ---------------------------------------

  /** The claim delivered last. */
  function Latest(evs: seq<Event>): Option<ClaimResponse> {
    if evs == [] then None
    else match evs[|evs| - 1]
      case Deliver(Parsed(r)) => Some(r)
      case Deliver(Garbage) => None
      case _ => Latest(evs[..|evs| - 1])
  }

  /** The claims all of whose file operations succeeded: the one delivered last before each
      successful rename. */
  function SavedClaims(evs: seq<Event>): seq<ClaimResponse> {
    if evs == [] then []
    else
      var before := evs[..|evs| - 1];
      SavedClaims(before) +
      (if evs[|evs| - 1] == RenameTemp(true) && Latest(before).Some? then [Latest(before).value] else [])
  }

  /** The saved claims and the one under way. */
  function TakenUp(evs: seq<Event>, cb: Callback): seq<ClaimResponse> {
    if cb.Saving? && Latest(evs).Some? then SavedClaims(evs) + [Latest(evs).value] else SavedClaims(evs)
  }

  lemma LatestNext(evs: seq<Event>, e: Event)
    ensures !e.Deliver? ==> Latest(evs + [e]) == Latest(evs)
    ensures e.Deliver? && e.p.Parsed? ==> Latest(evs + [e]) == Some(e.p.r)
    ensures e != RenameTemp(true) ==> SavedClaims(evs + [e]) == SavedClaims(evs)
    ensures e == RenameTemp(true) && Latest(evs).Some? ==>
              SavedClaims(evs + [e]) == SavedClaims(evs) + [Latest(evs).value]
  {
    assert (evs + [e])[..|evs|] == evs;
  }

  ghost predicate Traced(own: string, evs: seq<Event>, w: Wait) {
    && w.persisted == Images(SavedClaims(evs))
    && (w.cb.Saving? ==> Latest(evs).Some? && w.cb.st == ToActiveState(Latest(evs).value))
    && InOrder(TakenUp(evs, w.cb), AcceptedClaims(own, w.handled))
    && (!w.saveFailed ==> TakenUp(evs, w.cb) == AcceptedClaims(own, w.handled))
  }

  lemma AcceptedTraced(own: string, evs: seq<Event>, s: State, r: ClaimResponse)
    requires Traced(own, evs, s.w) && s.w.cb.Idle? && Accepted(r, own)
    ensures Traced(own, evs + [Deliver(Parsed(r))], Handled(own, s, Parsed(r)).w)
  {
    var saved := SavedClaims(evs);
    LatestNext(evs, Deliver(Parsed(r)));
    AcceptancesGrow(own, s.w.handled, Parsed(r));
    InOrderNext(saved, AcceptedClaims(own, s.w.handled), r);
  }

  lemma RejectedTraced(own: string, evs: seq<Event>, s: State, p: Payload)
    requires Traced(own, evs, s.w) && s.w.cb.Idle? && !(p.Parsed? && Accepted(p.r, own))
    ensures Traced(own, evs + [Deliver(p)], Handled(own, s, p).w)
  {
    LatestNext(evs, Deliver(p));
    AcceptancesGrow(own, s.w.handled, p);
    var w' := Handled(own, s, p).w;
    assert w'.persisted == s.w.persisted && w'.handled == s.w.handled + [p] && w'.cb.Idle?;
    assert AcceptedClaims(own, s.w.handled) + [] == AcceptedClaims(own, s.w.handled);
  }

  lemma SaveFailedTraced(own: string, evs: seq<Event>, s: State, e: Event)
    requires Traced(own, evs, s.w) && !e.Deliver? && e != RenameTemp(true)
    ensures Traced(own, evs + [e], SaveFailed(s).w)
  {
    LatestNext(evs, e);
    var saved := SavedClaims(evs);
    PrefixInOrder(TakenUp(evs, s.w.cb), AcceptedClaims(own, s.w.handled), |saved|);
    assert TakenUp(evs, s.w.cb)[..|saved|] == saved;
  }

  lemma RenamedTraced(own: string, evs: seq<Event>, s: State)
    requires Traced(own, evs, s.w) && s.w.cb.Saving? && s.disk.temp.Some?
    ensures Traced(own, evs + [RenameTemp(true)], TempRenamed(s).w)
  {
    LatestNext(evs, RenameTemp(true));
    var saved, r := SavedClaims(evs), Latest(evs).value;
    ImagesNext(saved, r);
    assert TakenUp(evs, s.w.cb) == saved + [r];
  }

  /** Every other event leaves the record of saved and unsaved claims alone. */
  lemma QuietTraced(own: string, evs: seq<Event>, w: Wait, w': Wait, e: Event)
    requires Traced(own, evs, w) && !e.Deliver? && e != RenameTemp(true)
    requires w'.persisted == w.persisted && w'.handled == w.handled && w'.saveFailed == w.saveFailed
    requires w'.cb.Saving? <==> w.cb.Saving?
    requires w'.cb.Saving? ==> w'.cb.st == w.cb.st
    ensures Traced(own, evs + [e], w')
  {
    LatestNext(evs, e);
  }

  lemma StepTraced(own: string, evs: seq<Event>, s: State, e: Event)
    requires Enabled(s, e) && Traced(own, evs, s.w)
    ensures Traced(own, evs + [e], Step(own, s, e).w)
  {
    if e.Deliver? && e.p.Parsed? && Accepted(e.p.r, own) {
      AcceptedTraced(own, evs, s, e.p.r);
    } else if e.Deliver? {
      RejectedTraced(own, evs, s, e.p);
    } else if e == RenameTemp(true) {
      RenamedTraced(own, evs, s);
    } else if e == OpenTemp(false) || e == WriteTemp(false) || e == RenameTemp(false) {
      SaveFailedTraced(own, evs, s, e);
    } else {
      QuietTraced(own, evs, s.w, Step(own, s, e).w, e);
    }
  }

  lemma {:induction false} RunTraced(own: string, disk: Disk, evs: seq<Event>, s: State)
    requires Run(System(own), Start(disk), evs) == Some(s)
    ensures Traced(own, evs, s.w)
  {
    if evs == [] {
      NothingInOrder(AcceptedClaims(own, []));
    } else {
      var before := evs[..|evs| - 1];
      var t := Run(System(own), Start(disk), before).value;
      RunTraced(own, disk, before, t);
      StepTraced(own, before, t, evs[|evs| - 1]);
      assert before + [evs[|evs| - 1]] == evs;
    }
  }

  /** Nothing is made up, doubled or put out of order: whatever is persisted is the image of a
      saved claim, and the saved claims are an in-order selection of the acceptable ones this
      handshake received. Nothing is lost: as long as no save fails, exactly the acceptable
      claims are saved, up to the one still under way. What Wait returns is the first. */
  lemma ClaimsInOrder(own: string, disk: Disk, evs: seq<Event>, s: State)
    requires Run(System(own), Start(disk), evs) == Some(s)
    ensures s.w.persisted == Images(SavedClaims(evs))
    ensures InOrder(TakenUp(evs, s.w.cb), AcceptedClaims(own, s.w.handled))
    ensures !s.w.saveFailed ==> TakenUp(evs, s.w.cb) == AcceptedClaims(own, s.w.handled)
    ensures s.w.waiter.Returned? ==> SavedClaims(evs) != [] && s.w.waiter.st == ToActiveState(SavedClaims(evs)[0])
    ensures !s.w.saveFailed && s.w.waiter.Returned? ==>
              Acceptances(own, s.w.handled) > 0 && s.w.waiter.st == ToActiveState(AcceptedClaims(own, s.w.handled)[0])
  {
    WaitOutcomes(own, disk, evs, s);
    RunTraced(own, disk, evs, s);
  }

  lemma SavedWereAccepted(own: string, disk: Disk, evs: seq<Event>, s: State)
    requires Run(System(own), Start(disk), evs) == Some(s)
    ensures forall r :: r in SavedClaims(evs) ==> Accepted(r, own) && Parsed(r) in s.w.handled
  {
    ClaimsInOrder(own, disk, evs, s);
    InOrderMembers(TakenUp(evs, s.w.cb), AcceptedClaims(own, s.w.handled));
    AcceptedWereHandled(own, s.w.handled);
    forall r | r in SavedClaims(evs) ensures r in AcceptedClaims(own, s.w.handled) {
      assert r in TakenUp(evs, s.w.cb);
    }
  }

  lemma {:induction false} AcceptedWereHandled(own: string, ps: seq<Payload>)
    ensures forall r :: r in AcceptedClaims(own, ps) ==> Accepted(r, own) && Parsed(r) in ps
  {
    if ps == [] {
    } else {
      AcceptedWereHandled(own, ps[..|ps| - 1]);
    }
  }

  lemma SavedAll(own: string, disk: Disk, evs: seq<Event>, s: State)
    requires Run(System(own), Start(disk), evs) == Some(s)
    ensures !s.w.saveFailed && !s.w.cb.Saving? ==> SavedClaims(evs) == AcceptedClaims(own, s.w.handled)
  {
    ClaimsInOrder(own, disk, evs, s);
  }

  lemma FileHoldsLast(initial: Option<Content>, saved: seq<ClaimResponse>, last: ClaimResponse)
    requires saved != [] && last == saved[|saved| - 1]
    ensures FileAfter(initial, Images(saved)) == Some(Complete(ToActiveState(last)))
  {
    ImagesAt(saved, |saved| - 1);
  }

  /** What is returned and what is on disk, in terms of the first and the last saved claim. */
  lemma SavedEnds(own: string, disk: Disk, evs: seq<Event>, s: State) returns (first: ClaimResponse, last: ClaimResponse)
    requires Run(System(own), Start(disk), evs) == Some(s) && SavedClaims(evs) != []
    ensures first == SavedClaims(evs)[0] && last == SavedClaims(evs)[|SavedClaims(evs)| - 1]
    ensures Accepted(first, own) && Accepted(last, own)
    ensures s.disk.file == Some(Complete(ToActiveState(last)))
    ensures s.w.waiter.Returned? ==> s.w.waiter.st == ToActiveState(first)
  {
    var saved := SavedClaims(evs);
    first, last := saved[0], saved[|saved| - 1];
    WaitOutcomes(own, disk, evs, s);
    ClaimsInOrder(own, disk, evs, s);
    FileHoldsLast(disk.file, saved, last);
    SavedWereAccepted(own, disk, evs, s);
  }

  lemma FileIs(file: Option<Content>, last: ActiveState, first: ActiveState)
    requires file == Some(Complete(last))
    ensures file == Some(Complete(first)) <==> first == last
  {
  }

  lemma ClaimsAgreeIff(own: string, file: Option<Content>, st: ActiveState, first: ClaimResponse, last: ClaimResponse)
    requires Accepted(first, own) && Accepted(last, own)
    requires file == Some(Complete(ToActiveState(last))) && st == ToActiveState(first)
    ensures file == Some(Complete(st)) <==> SameOrders(first, last)
  {
    FileIs(file, ToActiveState(last), ToActiveState(first));
    SameImageIff(first, last, own);
  }

  /** The state returned is the state on disk exactly when the first and the last claim that
      were saved say the same. (SavedAll: when every save succeeds these are the first and the
      last acceptable message.) */
  lemma ReturnedIsOnDiskIff(own: string, disk: Disk, evs: seq<Event>, s: State)
    returns (first: ClaimResponse, last: ClaimResponse)
    requires Run(System(own), Start(disk), evs) == Some(s) && s.w.waiter.Returned?
    ensures SavedClaims(evs) != []
    ensures first == SavedClaims(evs)[0] && last == SavedClaims(evs)[|SavedClaims(evs)| - 1]
    ensures s.disk.file == Some(Complete(s.w.waiter.st)) <==> SameOrders(first, last)
  {
    ClaimsInOrder(own, disk, evs, s);
    first, last := SavedEnds(own, disk, evs, s);
    ClaimsAgreeIff(own, s.disk.file, s.w.waiter.st, first, last);
  }

  lemma OnePersisted(initial: Option<Content>, persisted: seq<ActiveState>)
    requires |persisted| == 1
    ensures FileAfter(initial, persisted) == Some(Complete(persisted[0]))
  {
  }

  /** One acceptable message is enough for that. */
  lemma OneClaimAgrees(own: string, disk: Disk, evs: seq<Event>, s: State)
    requires Run(System(own), Start(disk), evs) == Some(s) && s.w.waiter.Returned?
    requires Acceptances(own, s.w.handled) == 1
    ensures s.disk.file == Some(Complete(s.w.waiter.st))
  {
    WaitOutcomes(own, disk, evs, s);
    OnePersisted(disk.file, s.w.persisted);
  }

  /** The callback's own steps. */
  predicate IsCallbackStep(e: Event) {
    e.OpenTemp? || e.WriteTemp? || e.RenameTemp? || e.SendResult?
  }

  function CallbackStepsLeft(cb: Callback): nat {
    match cb
    case Idle => 0
    case Saving(_, Marshalled) => 4
    case Saving(_, Opened) => 3
    case Saving(_, Written) => 2
    case Delivering(_) => 1
  }

  /** Whichever way the file operations go, at most four steps finish the callback. */
  lemma CallbackStepDescends(own: string, s: State, e: Event)
    requires IsCallbackStep(e) && Enabled(s, e)
    ensures CallbackStepsLeft(Step(own, s, e).w.cb) < CallbackStepsLeft(s.w.cb) <= 4
  {
  }

  /** The callback never waits for the other side: in every state of every run it can take a
      step of its own until it is finished. */
  lemma CallbackNeverBlocks(own: string, disk: Disk, evs: seq<Event>, s: State)
    requires Run(System(own), Start(disk), evs) == Some(s) && !s.w.cb.Idle?
    ensures exists e :: IsCallbackStep(e) && Enabled(s, e)
  {
    RunKeepsInv(own, disk, evs, s);
    CallbackCanStep(own, s);
  }

  lemma CallbackCanStep(own: string, s: State)
    requires CallbackInv(own, s) && !s.w.cb.Idle?
    ensures exists e :: IsCallbackStep(e) && Enabled(s, e)
  {
    var e := match s.w.cb
      case Saving(_, Marshalled) => OpenTemp(true)
      case Saving(_, Opened) => WriteTemp(true)
      case Saving(_, Written) => RenameTemp(true)
      case _ => SendResult;
    assert IsCallbackStep(e) && Enabled(s, e);
  }

  /** A persisted claim is never lost: while Wait is still selecting and the callback is at
      rest, the first persisted state can be taken and is what Wait then returns. */
  lemma PersistedClaimIsReturned(own: string, disk: Disk, evs: seq<Event>, s: State)
    requires Run(System(own), Start(disk), evs) == Some(s)
    requires s.w.waiter.Selecting? && s.w.cb.Idle? && s.w.persisted != []
    ensures Enabled(s, TakeResult) && Step(own, s, TakeResult).w.waiter == Returned(s.w.persisted[0])
  {
    RunKeepsInv(own, disk, evs, s);
  }

  // ----- Which errors reach Wait -------------------------------------------------------------------

  /** The error an event brings: a message that is malformed or rejected, or a file operation
      that fails. */
  function Fault(own: string, e: Event): Option<WaitError> {
    match e
    case Deliver(Garbage) => Some(ParseClaim)
    case Deliver(Parsed(r)) =>
      (match Verify(Some(r), own) case Some(v) => Some(VerifyClaim(v)) case None => None)
    case OpenTemp(ok) => if ok then None else Some(PersistState)
    case WriteTemp(ok) => if ok then None else Some(PersistState)
    case RenameTemp(ok) => if ok then None else Some(PersistState)
    case _ => None
  }

  function FirstError(own: string, evs: seq<Event>): Option<WaitError> {
    if evs == [] then None
    else
      var before := FirstError(own, evs[..|evs| - 1]);
      if before.Some? then before else Fault(own, evs[|evs| - 1])
  }

  lemma FirstErrorNext(own: string, evs: seq<Event>, e: Event)
    ensures FirstError(own, evs).Some? || Fault(own, e).None? ==> FirstError(own, evs + [e]) == FirstError(own, evs)
    ensures FirstError(own, evs).None? ==> FirstError(own, evs + [e]) == Fault(own, e)
  {
    assert (evs + [e])[..|evs|] == evs;
  }

  /** The first event that brings an error decides. */
  lemma {:induction false} FirstErrorIs(own: string, evs: seq<Event>) returns (i: nat)
    requires FirstError(own, evs).Some?
    ensures i < |evs| && Fault(own, evs[i]) == FirstError(own, evs)
    ensures forall j :: 0 <= j < i ==> Fault(own, evs[j]) == None
  {
    var n := |evs| - 1;
    if FirstError(own, evs[..n]).Some? {
      i := FirstErrorIs(own, evs[..n]);
    } else {
      i := n;
      NoErrorBefore(own, evs[..n]);
      assert forall j :: 0 <= j < n ==> evs[..n][j] == evs[j];
    }
  }

  lemma {:induction false} NoErrorBefore(own: string, evs: seq<Event>)
    requires FirstError(own, evs).None?
    ensures forall i :: 0 <= i < |evs| ==> Fault(own, evs[i]) == None
  {
    if evs == [] {
    } else {
      var n := |evs| - 1;
      NoErrorBefore(own, evs[..n]);
      assert forall j :: 0 <= j < n ==> evs[..n][j] == evs[j];
    }
  }

  /** Some message was malformed or rejected, or a save failed. */
  ghost predicate WentWrong(own: string, w: Wait) {
    || Garbage in w.handled
    || (exists r :: Parsed(r) in w.handled && !Accepted(r, own))
    || w.saveFailed
  }

  predicate FileFailure(e: Event) {
    e == OpenTemp(false) || e == WriteTemp(false) || e == RenameTemp(false)
  }

  /** The messages of a run, in order. */
  function Delivered(evs: seq<Event>): seq<Payload> {
    if evs == [] then []
    else
      var e := evs[|evs| - 1];
      Delivered(evs[..|evs| - 1]) + (if e.Deliver? then [e.p] else [])
  }

  lemma {:induction false} DeliveredIff(evs: seq<Event>, p: Payload)
    ensures p in Delivered(evs) <==> Deliver(p) in evs
  {
    if evs == [] {
    } else {
      var n := |evs| - 1;
      DeliveredIff(evs[..n], p);
      assert evs == evs[..n] + [evs[n]];
    }
  }

  /** The record is what the events say. */
  ghost predicate Recorded(evs: seq<Event>, w: Wait) {
    && w.handled == Delivered(evs)
    && (w.saveFailed <==> exists e :: e in evs && FileFailure(e))
    && (w.cancelled <==> Cancel in evs)
    && (w.subscribeFailed <==> SubscribeEnds(false) in evs)
  }

  /** While Wait is at work its error channel holds the first error; if it has failed, with
      that error or because of the subscription or the context. */
  ghost predicate FirstErrorHeld(own: string, evs: seq<Event>, w: Wait) {
    match w.waiter
    case Returned(_) => true
    case Failed(err) =>
      || (err == SubscribeFailed && SubscribeEnds(false) in evs)
      || (err == ContextDone && Cancel in evs)
      || Some(err) == FirstError(own, evs)
    case _ => w.errCh == FirstError(own, evs)
  }

  lemma RecordGrows(own: string, s: State, e: Event)
    requires Enabled(s, e)
    ensures var w' := Step(own, s, e).w;
            && w'.handled == (if e.Deliver? then s.w.handled + [e.p] else s.w.handled)
            && w'.saveFailed == (s.w.saveFailed || FileFailure(e))
            && w'.cancelled == (s.w.cancelled || e == Cancel)
            && w'.subscribeFailed == (s.w.subscribeFailed || e == SubscribeEnds(false))
  {
  }

  lemma RecordedNext(own: string, evs: seq<Event>, s: State, e: Event)
    requires Enabled(s, e) && Recorded(evs, s.w)
    ensures Recorded(evs + [e], Step(own, s, e).w)
  {
    RecordGrows(own, s, e);
    assert (evs + [e])[..|evs|] == evs;
    assert FileFailure(e) ==> e in evs + [e];
    assert Delivered(evs) + [] == Delivered(evs);
  }

  lemma FaultOffered(own: string, s: State, e: Event)
    requires Enabled(s, e) && Fault(own, e).Some?
    ensures var w' := Step(own, s, e).w;
            w'.waiter == s.w.waiter && w'.errCh == Offer(s.w.errCh, Fault(own, e).value)
  {
  }

  lemma NoFaultNoOffer(own: string, s: State, e: Event)
    requires Enabled(s, e) && Fault(own, e).None?
    ensures var w' := Step(own, s, e).w;
            && (!e.TakeError? ==> w'.errCh == s.w.errCh)
            && (e.Deliver? || e.OpenTemp? || e.WriteTemp? || e.RenameTemp? || e.SendResult? || e.Cancel? ==> w'.waiter == s.w.waiter)
  {
  }

  lemma FirstErrorHeldNext(own: string, evs: seq<Event>, s: State, e: Event)
    requires Enabled(s, e) && Recorded(evs, s.w) && FirstErrorHeld(own, evs, s.w)
    ensures FirstErrorHeld(own, evs + [e], Step(own, s, e).w)
  {
    FirstErrorNext(own, evs, e);
    if Fault(own, e).Some? {
      FaultOffered(own, s, e);
    } else {
      NoFaultNoOffer(own, s, e);
    }
  }

  lemma {:induction false} RunRecorded(own: string, disk: Disk, evs: seq<Event>, s: State)
    requires Run(System(own), Start(disk), evs) == Some(s)
    ensures Recorded(evs, s.w) && FirstErrorHeld(own, evs, s.w)
  {
    if evs == [] {
    } else {
      var before, e := evs[..|evs| - 1], evs[|evs| - 1];
      var t := Run(System(own), Start(disk), before).value;
      RunRecorded(own, disk, before, t);
      RecordedNext(own, before, t, e);
      FirstErrorHeldNext(own, before, t, e);
      assert before + [e] == evs;
    }
  }

  lemma WentWrongIff(own: string, evs: seq<Event>, w: Wait)
    requires Recorded(evs, w)
    ensures FirstError(own, evs).Some? <==> WentWrong(own, w)
  {
    if FirstError(own, evs).Some? {
      var i := FirstErrorIs(own, evs);
      assert evs[i] in evs;
      if evs[i].Deliver? {
        DeliveredIff(evs, evs[i].p);
        assert evs[i].p in w.handled;
      } else {
        assert FileFailure(evs[i]);
      }
    } else {
      NoErrorBefore(own, evs);
      forall p | p in w.handled ensures Deliver(p) in evs {
        DeliveredIff(evs, p);
      }
    }
  }

  /** No error is lost while Wait is at work: its channel is filled as soon as a message was
      malformed or rejected or a save failed, and the first of these errors is what fills it. */
  lemma ErrorsReachWait(own: string, disk: Disk, evs: seq<Event>, s: State)
    requires Run(System(own), Start(disk), evs) == Some(s)
    requires s.w.waiter.Subscribing? || s.w.waiter.Selecting?
    ensures s.w.errCh.Some? <==> WentWrong(own, s.w)
    ensures s.w.errCh == FirstError(own, evs)
  {
    RunRecorded(own, disk, evs, s);
    WentWrongIff(own, evs, s.w);
  }

  /** The end of the context can end the wait at any time. */
  lemma CancelEndsWait(own: string, s: State) returns (evs: seq<Event>, s': State)
    requires s.w.waiter.Selecting?
    ensures evs == [Cancel, TakeCancel] && Run(System(own), s, evs) == Some(s')
    ensures s'.w.waiter == Failed(ContextDone) && s'.disk == s.disk
  {
    evs, s' := OneMore(System(own), s, [], s, Cancel);
    evs, s' := OneMore(System(own), s, evs, s', TakeCancel);
  }

  /** Wait is past its subscription exactly when that has ended, and if it failed so does Wait. */
  lemma {:induction false} AfterSubscribe(own: string, disk: Disk, evs: seq<Event>, s: State)
    requires Run(System(own), Start(disk), evs) == Some(s)
    ensures s.w.waiter.Subscribing? <==> SubscribeEnds(true) !in evs && SubscribeEnds(false) !in evs
    ensures SubscribeEnds(false) in evs ==> s.w.waiter == Failed(SubscribeFailed)
  {
    if evs == [] {
    } else {
      var before, e := evs[..|evs| - 1], evs[|evs| - 1];
      var t := Run(System(own), Start(disk), before).value;
      AfterSubscribe(own, disk, before, t);
      assert before + [e] == evs;
      WaiterMoves(own, t, e);
    }
  }

  lemma WaiterMoves(own: string, s: State, e: Event)
    requires Enabled(s, e)
    ensures var w' := Step(own, s, e).w;
            && (e == SubscribeEnds(true) ==> w'.waiter == Selecting)
            && (e == SubscribeEnds(false) ==> w'.waiter == Failed(SubscribeFailed))
            && (!e.SubscribeEnds? ==> s.w.waiter == w'.waiter || (s.w.waiter.Selecting? && !w'.waiter.Subscribing?))
  {
  }

  /** When Wait fails, it is with the first error of the run, or because the subscription
      failed or the context ended. */
  lemma FailedWith(own: string, disk: Disk, evs: seq<Event>, s: State)
    requires Run(System(own), Start(disk), evs) == Some(s) && s.w.waiter.Failed?
    ensures || (s.w.waiter.err == SubscribeFailed && SubscribeEnds(false) in evs)
            || (s.w.waiter.err == ContextDone && Cancel in evs)
            || Some(s.w.waiter.err) == FirstError(own, evs)
  {
    RunRecorded(own, disk, evs, s);
  }

  // ----- Failing although a claim was accepted -------------------------------------------------------

  /** The event brings no error of its own: no rejected message, failed save or cancel. */
  predicate Faultless(own: string, e: Event) {
    match e
    case Deliver(p) => p.Parsed? && Accepted(p.r, own)
    case OpenTemp(ok) => ok
    case WriteTemp(ok) => ok
    case RenameTemp(ok) => ok
    case SubscribeEnds(ok) => ok
    case Cancel => false
    case _ => true
  }

  predicate AllFaultless(own: string, evs: seq<Event>) {
    forall i :: 0 <= i < |evs| ==> Faultless(own, evs[i])
  }

  predicate NoErrorYet(w: Wait) {
    w.errCh.None? && !w.cancelled && !w.waiter.Failed?
  }

  lemma FaultlessStep(own: string, s: State, e: Event)
    requires Enabled(s, e) && Faultless(own, e) && NoErrorYet(s.w)
    ensures NoErrorYet(Step(own, s, e).w)
  {
  }

  lemma {:induction false} FaultlessRun(own: string, s: State, more: seq<Event>)
    requires NoErrorYet(s.w) && AllFaultless(own, more) && Run(System(own), s, more).Some?
    ensures NoErrorYet(Run(System(own), s, more).value.w)
  {
    if more == [] {
    } else {
      var n := |more| - 1;
      FaultlessRun(own, s, more[..n]);
      FaultlessStep(own, Run(System(own), s, more[..n]).value, more[n]);
    }
  }

  ghost predicate CanStillFail(own: string, s: State) {
    exists more :: AllFaultless(own, more) && Run(System(own), s, more).Some?
                && Run(System(own), s, more).value.w.waiter.Failed?
  }

  lemma CanFailIff(own: string, s: State)
    requires s.w.waiter.Selecting?
    ensures CanStillFail(own, s) <==> s.w.errCh.Some? || s.w.cancelled
  {
    if s.w.errCh.Some? || s.w.cancelled {
      var e := if s.w.errCh.Some? then TakeError else TakeCancel;
      var evs, s' := OneMore(System(own), s, [], s, e);
      assert evs == [e] && AllFaultless(own, evs);
    } else if CanStillFail(own, s) {
      var more :| AllFaultless(own, more) && Run(System(own), s, more).Some?
               && Run(System(own), s, more).value.w.waiter.Failed?;
      FaultlessRun(own, s, more);
      assert false;
    }
  }

  /** While Wait selects, it can fail although nothing goes wrong any more exactly when a message
      was malformed or rejected, a save failed, or the context was cancelled; whether a claim
      was saved and offered too makes no difference. */
  lemma CanStillFailIff(own: string, disk: Disk, evs: seq<Event>, s: State)
    requires Run(System(own), Start(disk), evs) == Some(s) && s.w.waiter.Selecting?
    ensures CanStillFail(own, s) <==>
            || Deliver(Garbage) in evs
            || (exists r :: Deliver(Parsed(r)) in evs && !Accepted(r, own))
            || (exists e :: e in evs && FileFailure(e))
            || Cancel in evs
  {
    CanFailIff(own, s);
    RunRecorded(own, disk, evs, s);
    ErrorsReachWait(own, disk, evs, s);
    forall p ensures p in s.w.handled <==> Deliver(p) in evs {
      DeliveredIff(evs, p);
    }
  }

  /** One malformed message before an accepted claim is enough: the claim is saved and offered,
      and Wait fails nevertheless. */
  lemma ClaimLostToError(own: string, disk: Disk, r: ClaimResponse) returns (evs: seq<Event>, s: State)
    requires Accepted(r, own)
    ensures Run(System(own), Start(disk), evs) == Some(s) && Cancel !in evs
    ensures s.w.waiter == Failed(ParseClaim) && s.w.resultCh == Some(ToActiveState(r))
    ensures s.disk.file == Some(Complete(ToActiveState(r)))
  {
    evs, s := Malformed(own, disk);
    NoCancelIn(evs, r);
    evs, s := ClaimHandled(own, disk, evs, s, r);
    evs, s := TakesError(own, disk, evs, s, ParseClaim);
  }

  // ----- A second claim ------------------------------------------------------------------------

  function Handling(r: ClaimResponse): seq<Event> {
    [Deliver(Parsed(r)), OpenTemp(true), WriteTemp(true), RenameTemp(true), SendResult]
  }

  function AfterClaim(s: State, r: ClaimResponse): State {
    var st := ToActiveState(r);
    State(s.w.(handled := s.w.handled + [Parsed(r)], persisted := s.w.persisted + [st], resultCh := Offer(s.w.resultCh, st)),
          Disk(Some(Complete(st)), None))
  }

  lemma ClaimSaved(own: string, s: State, r: ClaimResponse) returns (s1: State, s2: State, s3: State, s4: State)
    requires s.w.cb.Idle? && Accepted(r, own)
    ensures s1 == Handled(own, s, Parsed(r)) && s1.w.cb == Saving(ToActiveState(r), Marshalled)
    ensures s2 == TempOpened(s1) && s2.w.cb == Saving(ToActiveState(r), Opened)
    ensures s3 == TempWritten(s2) && s3.w.cb == Saving(ToActiveState(r), Written) && s3.disk.temp.Some?
    ensures s4 == TempRenamed(s3) && s4.w.cb == Delivering(ToActiveState(r)) && ResultSent(s4) == AfterClaim(s, r)
  {
    s1 := Handled(own, s, Parsed(r));
    s2 := TempOpened(s1);
    s3 := TempWritten(s2);
    s4 := TempRenamed(s3);
  }

  lemma ClaimUnderWay(own: string, disk: Disk, evs: seq<Event>, s: State, r: ClaimResponse)
    returns (evs': seq<Event>, s3: State)
    requires Run(System(own), Start(disk), evs) == Some(s) && s.w.cb.Idle? && Accepted(r, own)
    ensures evs' == evs + [Deliver(Parsed(r)), OpenTemp(true), WriteTemp(true)]
    ensures Run(System(own), Start(disk), evs') == Some(s3)
    ensures s3 == TempWritten(TempOpened(Handled(own, s, Parsed(r))))
  {
    var s1, s2, t3, s4 := ClaimSaved(own, s, r);
    evs', s3 := OneMore(System(own), Start(disk), evs, s, Deliver(Parsed(r)));
    evs', s3 := OneMore(System(own), Start(disk), evs', s1, OpenTemp(true));
    evs', s3 := OneMore(System(own), Start(disk), evs', s2, WriteTemp(true));
  }

  /** One accepted message handled without a fault. */
  lemma ClaimHandled(own: string, disk: Disk, evs: seq<Event>, s: State, r: ClaimResponse)
    returns (evs': seq<Event>, s': State)
    requires Run(System(own), Start(disk), evs) == Some(s) && s.w.cb.Idle? && Accepted(r, own)
    ensures evs' == evs + Handling(r) && s' == AfterClaim(s, r) && Run(System(own), Start(disk), evs') == Some(s')
  {
    var s1, s2, s3, s4 := ClaimSaved(own, s, r);
    var before, t := ClaimUnderWay(own, disk, evs, s, r);
    evs', s' := Persisted(own, disk, before, s3);
    assert evs' == evs + Handling(r);
  }

  lemma Persisted(own: string, disk: Disk, evs: seq<Event>, s: State) returns (evs': seq<Event>, s': State)
    requires Run(System(own), Start(disk), evs) == Some(s)
    requires s.w.cb.Saving? && s.w.cb.stage == Written && s.disk.temp.Some?
    ensures evs' == evs + [RenameTemp(true), SendResult] && s' == ResultSent(TempRenamed(s))
    ensures Run(System(own), Start(disk), evs') == Some(s')
  {
    evs', s' := OneMore(System(own), Start(disk), evs, s, RenameTemp(true));
    evs', s' := OneMore(System(own), Start(disk), evs', s', SendResult);
  }

  lemma NoCancelIn(evs: seq<Event>, r: ClaimResponse)
    requires Cancel !in evs
    ensures Cancel !in evs + Handling(r)
  {
  }

  lemma TakesResult(own: string, disk: Disk, evs: seq<Event>, s: State, st: ActiveState)
    returns (evs': seq<Event>, s': State)
    requires Run(System(own), Start(disk), evs) == Some(s) && s.w.waiter.Selecting? && s.w.resultCh == Some(st)
    ensures Run(System(own), Start(disk), evs') == Some(s') && evs' == evs + [TakeResult]
    ensures s'.w.waiter == Returned(st) && s'.disk == s.disk
  {
    evs', s' := OneMore(System(own), Start(disk), evs, s, TakeResult);
  }

  lemma TakesError(own: string, disk: Disk, evs: seq<Event>, s: State, err: WaitError)
    returns (evs': seq<Event>, s': State)
    requires Run(System(own), Start(disk), evs) == Some(s) && s.w.waiter.Selecting? && s.w.errCh == Some(err)
    ensures Run(System(own), Start(disk), evs') == Some(s') && evs' == evs + [TakeError]
    ensures s'.w.waiter == Failed(err) && s'.w.resultCh == s.w.resultCh && s'.disk == s.disk
  {
    evs', s' := OneMore(System(own), Start(disk), evs, s, TakeError);
  }

  lemma Subscribed(own: string, disk: Disk) returns (evs: seq<Event>, s: State)
    ensures Run(System(own), Start(disk), evs) == Some(s) && evs == [SubscribeEnds(true)]
    ensures s == SubscribeEnded(Start(disk), true)
  {
    evs, s := OneMore(System(own), Start(disk), [], Start(disk), SubscribeEnds(true));
  }

  lemma Malformed(own: string, disk: Disk) returns (evs: seq<Event>, s: State)
    ensures Run(System(own), Start(disk), evs) == Some(s) && Cancel !in evs
    ensures s.w.cb.Idle? && s.w.waiter.Selecting? && s.w.errCh == Some(ParseClaim) && s.w.resultCh == None
  {
    evs, s := Subscribed(own, disk);
    evs, s := OneMore(System(own), Start(disk), evs, s, Deliver(Garbage));
  }

  /** Two accepted claims, handled before Wait takes a result. */
  lemma BothHandled(own: string, disk: Disk, r: ClaimResponse, r': ClaimResponse) returns (evs: seq<Event>, s: State)
    requires Accepted(r, own) && Accepted(r', own)
    ensures Run(System(own), Start(disk), evs) == Some(s) && Cancel !in evs
    ensures s == AfterClaim(AfterClaim(SubscribeEnded(Start(disk), true), r), r')
  {
    evs, s := Subscribed(own, disk);
    NoCancelIn(evs, r);
    evs, s := ClaimHandled(own, disk, evs, s, r);
    NoCancelIn(evs, r');
    evs, s := ClaimHandled(own, disk, evs, s, r');
  }

  lemma BothHandledState(disk: Disk, r: ClaimResponse, r': ClaimResponse)
    ensures var s := AfterClaim(AfterClaim(SubscribeEnded(Start(disk), true), r), r');
            && s.w.waiter.Selecting? && s.w.resultCh == Some(ToActiveState(r))
            && s.disk.file == Some(Complete(ToActiveState(r')))
  {
  }

  /** Two accepted claims with different images: Wait can return the first while state.json
      holds the second. */
  lemma SecondClaimOverwrites(own: string, disk: Disk, r: ClaimResponse, r': ClaimResponse)
    returns (evs: seq<Event>, s: State)
    requires Accepted(r, own) && Accepted(r', own) && ToActiveState(r) != ToActiveState(r')
    ensures Run(System(own), Start(disk), evs) == Some(s) && Cancel !in evs
    ensures s.w.waiter == Returned(ToActiveState(r)) && s.disk.file == Some(Complete(ToActiveState(r')))
    ensures s.disk.file != Some(Complete(s.w.waiter.st))
  {
    BothHandledState(disk, r, r');
    evs, s := BothHandled(own, disk, r, r');
    evs, s := TakesResult(own, disk, evs, s, ToActiveState(r));
    FileIs(s.disk.file, ToActiveState(r'), ToActiveState(r));
  }

  /** Such claims exist: the first names one server, the second another. */
  lemma SecondClaimExample(disk: Disk) returns (own: string, evs: seq<Event>, s: State)
    ensures Run(System(own), Start(disk), evs) == Some(s)
    ensures s.w.waiter.Returned? && s.w.waiter.st.serverHttpUrl == "http://a:4000"
    ensures s.disk.file.Some? && s.disk.file.value.Complete? && s.disk.file.value.st.serverHttpUrl == "http://b:4000"
  {
    var r, r';
    own, r := ClaimExists("c", "http://a:4000", "", "");
    own, r' := ClaimExists("c", "http://b:4000", "", "");
    evs, s := SecondClaimOverwrites(own, disk, r, r');
  }
}
