/** Where the state file, the active configuration and the broker credentials come from: from
    claims that were delivered to this board at some earlier point of the same history, over
    any number of boots. */
module Origins {
  import opened Prelude
  import opened ProvisionTypes
  import opened ClientConfig
  import opened Claim
  import opened StateFile
  import opened ActiveConfig
  import CW = ClaimWait
  import opened Runs
  import opened Boot

  predicate Delivers(e: Event, r: ClaimResponse) {
    e == Handshake(CW.Deliver(CW.Parsed(r)))
  }

  /** The claim r was delivered during the history and this board accepts it. */
  predicate Obeyable(own: string, evs: seq<Event>, r: ClaimResponse) {
    Accepted(r, own) && exists i :: 0 <= i < |evs| && Delivers(evs[i], r)
  }

  ghost predicate Brought(own: string, evs: seq<Event>, st: ActiveState) {
    exists r :: Obeyable(own, evs, r) && st == ToActiveState(r)
  }

  ghost predicate FileBrought(own: string, evs: seq<Event>, file: Option<Content>) {
    file.Some? && file.value.Complete? ==> Brought(own, evs, file.value.st)
  }

  ghost predicate WaitBrought(own: string, evs: seq<Event>, w: CW.Wait) {
    && (w.cb.Saving? ==> Brought(own, evs, w.cb.st))
    && (forall st :: st in w.persisted ==> Brought(own, evs, st))
  }

  /** cfg resolves yaml against a state that was brought. */
  ghost predicate ConfigBrought(own: string, evs: seq<Event>, yaml: ConfigData, cfg: ConfigData) {
    exists st :: Brought(own, evs, st) && cfg == Resolved(yaml, st)
  }

  /** Up to the trip to disk, creds is a state that was brought. */
  ghost predicate CredsBrought(own: string, evs: seq<Event>, creds: ActiveState) {
    exists st :: Brought(own, evs, st) && Reload(creds) == Reload(st)
  }

  ghost predicate ProcBrought(own: string, evs: seq<Event>, p: Proc) {
    && (SessionOf(p).Some? ==> WaitBrought(own, evs, SessionOf(p).value.w))
    && match p
       case StateLoaded(_, yaml, cfg, st) =>
         st.Some? ==> ConfigBrought(own, evs, yaml, cfg) && CredsBrought(own, evs, st.value)
       case Active(yaml, cfg, creds, _) => ConfigBrought(own, evs, yaml, cfg) && CredsBrought(own, evs, creds)
       case _ => true
  }

  ghost predicate BoardBrought(own: string, evs: seq<Event>, b: Board) {
    FileBrought(own, evs, b.disk.file) && ProcBrought(own, evs, b.proc)
  }

  lemma StaysBrought(own: string, evs: seq<Event>, e: Event)
    ensures forall st :: Brought(own, evs, st) ==> Brought(own, evs + [e], st)
  {
    forall r | Obeyable(own, evs, r) ensures Obeyable(own, evs + [e], r) {
      var i :| 0 <= i < |evs| && Delivers(evs[i], r);
      assert (evs + [e])[i] == evs[i];
    }
  }

  lemma BoardStaysBrought(own: string, evs: seq<Event>, e: Event, b: Board)
    requires BoardBrought(own, evs, b)
    ensures BoardBrought(own, evs + [e], b)
  {
    StaysBrought(own, evs, e);
  }

  lemma DeliveryBrings(own: string, evs: seq<Event>, e: Event, r: ClaimResponse)
    requires Delivers(e, r) && Accepted(r, own)
    ensures Brought(own, evs + [e], ToActiveState(r))
  {
    assert (evs + [e])[|evs|] == e;
    assert Obeyable(own, evs + [e], r);
  }

  // ----- Each event --------------------------------------------------------------------------

  /** A handshake step moves states along but makes none up. */
  lemma WaitStepBrought(own: string, evs: seq<Event>, s: CW.State, e: CW.Event)
    requires CW.Enabled(s, e) && CW.CallbackInv(own, s)
    requires WaitBrought(own, evs, s.w) && FileBrought(own, evs, s.disk.file)
    requires e.Deliver? && e.p.Parsed? && Accepted(e.p.r, own) ==> Brought(own, evs, ToActiveState(e.p.r))
    ensures WaitBrought(own, evs, CW.Step(own, s, e).w) && FileBrought(own, evs, CW.Step(own, s, e).disk.file)
  {
  }

  lemma SessionCallback(own: string, b: Board)
    requires Inv(own, b) && SessionOf(b.proc).Some?
    ensures CW.CallbackInv(own, CW.State(SessionOf(b.proc).value.w, b.disk))
  {
  }

  lemma ProcKeepsBrought(own: string, evs: seq<Event>, p: Proc, s: Session)
    requires ProcBrought(own, evs, p) && SessionOf(p).Some? && WaitBrought(own, evs, s.w)
    ensures ProcBrought(own, evs, WithSession(p, s))
  {
    match p {
      case Unclaimed(_, td) => assert SessionOf(Unclaimed(s, td)) == Some(s);
      case Claimed(_, st) => assert SessionOf(Claimed(s, st)) == Some(s);
      case Active(yaml, cfg, creds, _) => ActiveBrought(own, evs, yaml, cfg, creds, s);
    }
  }

  lemma SessionBrought(own: string, evs: seq<Event>, b: Board, s: Session, disk: Disk)
    requires BoardBrought(own, evs, b) && SessionOf(b.proc).Some?
    requires WaitBrought(own, evs, s.w) && FileBrought(own, evs, disk.file)
    ensures BoardBrought(own, evs, Board(disk, WithSession(b.proc, s)))
  {
    ProcKeepsBrought(own, evs, b.proc, s);
  }

  lemma HandshakeBrought(own: string, evs: seq<Event>, b: Board, e: CW.Event)
    requires Enabled(b, Handshake(e)) && BoardBrought(own, evs + [Handshake(e)], b)
    requires CW.CallbackInv(own, CW.State(SessionOf(b.proc).value.w, b.disk))
    ensures BoardBrought(own, evs + [Handshake(e)], AfterHandshake(own, b, e))
  {
    if e.Deliver? && e.p.Parsed? && Accepted(e.p.r, own) {
      DeliveryBrings(own, evs, Handshake(e), e.p.r);
    }
    var s := SessionOf(b.proc).value;
    var now := CW.State(s.w, b.disk);
    WaitStepBrought(own, evs + [Handshake(e)], now, e);
    var next := CW.Step(own, now, e);
    SessionBrought(own, evs + [Handshake(e)], b, s.(w := next.w), next.disk);
  }

  lemma LoadStateBrought(own: string, evs: seq<Event>, b: Board)
    requires Inv(own, b) && b.proc.ConfigLoaded? && BoardBrought(own, evs, b)
    ensures BoardBrought(own, evs, AfterLoadState(b))
  {
    if b.disk.file.Some? {
      LoadedResolves(own, b.disk, b.proc.yaml);
      ReloadResolvesTheSame(b.proc.yaml, b.disk.file.value.st);
    }
  }

  lemma ActiveBrought(own: string, evs: seq<Event>, yaml: ConfigData,
                      cfg: ConfigData, creds: ActiveState, session: Session)
    requires ConfigBrought(own, evs, yaml, cfg) && CredsBrought(own, evs, creds)
    requires WaitBrought(own, evs, session.w)
    ensures ProcBrought(own, evs, Active(yaml, cfg, creds, Some(session)))
  {
  }

  lemma StateBrings(own: string, evs: seq<Event>, yaml: ConfigData, st: ActiveState)
    requires Brought(own, evs, st)
    ensures ConfigBrought(own, evs, yaml, Resolved(yaml, st)) && CredsBrought(own, evs, st)
  {
  }

  lemma ClaimsBrought(own: string, evs: seq<Event>, b: Board, last: ActiveState, first: ActiveState)
    requires ClaimsHeld(own, b, last, first) && BoardBrought(own, evs, b)
    ensures Brought(own, evs, last) && Brought(own, evs, first) && WaitBrought(own, evs, b.proc.session.w)
  {
  }

  lemma HandOverBrought(own: string, evs: seq<Event>, b: Board, found: Option<ConfigData>)
    requires Inv(own, b) && b.proc.Claimed? && BoardBrought(own, evs, b)
    ensures BoardBrought(own, evs, AfterHandOver(b, found))
  {
    if found.Some? {
      var last, first := ClaimedHolds(own, b);
      HandOverLoads(own, b, found.value, last, first);
      ClaimsBrought(own, evs, b, last, first);
      StateBrings(own, evs, found.value, last);
      StateBrings(own, evs, found.value, first);
      ActiveBrought(own, evs, found.value, Resolved(found.value, last), first, b.proc.session);
    }
  }

  lemma SessionStays(own: string, evs: seq<Event>, b: Board, b': Board)
    requires BoardBrought(own, evs, b) && b'.disk == b.disk
    requires SessionOf(b'.proc) == SessionOf(b.proc) && (b'.proc.Unclaimed? || b'.proc.Claimed?)
    ensures BoardBrought(own, evs, b')
  {
  }

  /** Events before the decision, the decision itself, and a stop. */
  lemma BootStepBrought(own: string, evs: seq<Event>, b: Board, e: Event)
    requires Enabled(b, e) && BoardBrought(own, evs, b)
    requires e.PowerOn? || e.Reset? || e.LoadConfig? || e.Stop?
    ensures BoardBrought(own, evs, Step(own, b, e))
  {
    assert SessionOf(Step(own, b, e).proc) == None;
  }

  lemma DecideBrought(own: string, evs: seq<Event>, b: Board)
    requires b.proc.StateLoaded? && BoardBrought(own, evs, b)
    ensures BoardBrought(own, evs, AfterDecide(b))
  {
  }

  lemma StepBrought(own: string, evs: seq<Event>, b: Board, e: Event)
    requires Enabled(b, e) && Inv(own, b) && BoardBrought(own, evs, b)
    ensures BoardBrought(own, evs + [e], Step(own, b, e))
  {
    BoardStaysBrought(own, evs, e, b);
    match e {
      case Handshake(h) =>
        SessionCallback(own, b);
        HandshakeBrought(own, evs, b, h);
      case LoadState => LoadStateBrought(own, evs + [e], b);
      case HandOver(found) => HandOverBrought(own, evs + [e], b, found);
      case Around(t) => SessionStays(own, evs + [e], b, Step(own, b, e));
      case UnclaimedReturns => SessionStays(own, evs + [e], b, Step(own, b, e));
      case Decide => DecideBrought(own, evs + [e], b);
      case _ => BootStepBrought(own, evs + [e], b, e);
    }
  }

  lemma {:induction false} RunBrought(own: string, temp: Option<Content>, evs: seq<Event>, b: Board)
    requires Run(System(own), Factory(temp), evs) == Some(b)
    ensures BoardBrought(own, evs, b)
  {
    if evs == [] {
    } else {
      var before := evs[..|evs| - 1];
      var a := Run(System(own), Factory(temp), before).value;
      RunBrought(own, temp, before, a);
      RunKeepsInv(own, temp, before, a);
      StepBrought(own, before, a, evs[|evs| - 1]);
      assert before + [evs[|evs| - 1]] == evs;
    }
  }

  // ----- What holds over any number of boots ----------------------------------------------------

  /** state.json is at every moment absent or the complete image of a claim that was delivered
      and that this board accepts. */
  lemma FileWasDelivered(own: string, temp: Option<Content>, evs: seq<Event>, b: Board)
    requires Run(System(own), Factory(temp), evs) == Some(b)
    ensures b.disk.file == None ||
            exists r :: Obeyable(own, evs, r) && b.disk.file == Some(Complete(ToActiveState(r)))
  {
    RunBrought(own, temp, evs, b);
    StateFileAlwaysWhole(own, temp, evs, b);
    if b.disk.file.Some? {
      var r :| Obeyable(own, evs, r) && b.disk.file.value.st == ToActiveState(r);
    }
  }

  ghost predicate CredentialsOf(r: ClaimResponse, creds: ActiveState) {
    && creds.mqttBrokerUrl == r.mqttBrokerUrl
    && creds.mqttUsername == r.mqttUsername && creds.mqttPassword == r.mqttPassword
  }

  lemma ActiveProc(own: string, evs: seq<Event>, b: Board)
    requires BoardBrought(own, evs, b) && b.proc.Active?
    ensures ConfigBrought(own, evs, b.proc.yaml, b.proc.cfg) && CredsBrought(own, evs, b.proc.creds)
  {
  }

  lemma ConfigOrdered(own: string, evs: seq<Event>, yaml: ConfigData, cfg: ConfigData)
    requires ConfigBrought(own, evs, yaml, cfg)
    ensures exists r :: Obeyable(own, evs, r) && ConfiguredBy(r, yaml, cfg)
  {
    var st :| Brought(own, evs, st) && cfg == Resolved(yaml, st);
    var r :| Obeyable(own, evs, r) && st == ToActiveState(r);
    ClaimConfigures(r, yaml);
  }

  lemma CredsCarried(own: string, evs: seq<Event>, creds: ActiveState)
    requires CredsBrought(own, evs, creds)
    ensures exists r :: Obeyable(own, evs, r) && CredentialsOf(r, creds)
  {
    var st :| Brought(own, evs, st) && Reload(creds) == Reload(st);
    var r :| Obeyable(own, evs, r) && st == ToActiveState(r);
    assert CredentialsOf(r, creds);
  }

  /** The active flow only ever runs with a configuration that a delivered and accepted claim
      ordered, and with broker fields that a delivered and accepted claim carried, whatever
      boots, resets, crashes and trips over the disk lie between. */
  lemma ActiveWasDelivered(own: string, temp: Option<Content>, evs: seq<Event>, b: Board)
    requires Run(System(own), Factory(temp), evs) == Some(b) && b.proc.Active?
    ensures exists r :: Obeyable(own, evs, r) && ConfiguredBy(r, b.proc.yaml, b.proc.cfg)
    ensures exists r :: Obeyable(own, evs, r) && CredentialsOf(r, b.proc.creds)
  {
    RunBrought(own, temp, evs, b);
    ActiveProc(own, evs, b);
    ConfigOrdered(own, evs, b.proc.yaml, b.proc.cfg);
    CredsCarried(own, evs, b.proc.creds);
  }
}
