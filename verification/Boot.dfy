/** The boot decision of main and the hand-over after a claim, over any number of boots. A
    process may stop (exit or crash) between any two steps, also in the middle of a save;
    the disk stays as it is. RunUnclaimed is the claim handshake inside the set-up and the
    deferred calls of Teardown; main does not cancel its context before it returns. */
module Boot {
  import opened Prelude
  import opened ProvisionTypes
  import opened ClientConfig
  import opened Mac
  import opened Claim
  import opened StateFile
  import opened Resolve
  import opened Merge
  import opened ActiveConfig
  import CW = ClaimWait
  import T = Teardown
  import opened Runs

  datatype Flags = Flags(unclaimed: bool, resetClaim: bool)

  /** A claim handshake and the disk when it began. */
  datatype Session = Session(w: CW.Wait, initial: Disk)

  /** The stages of one process. `yaml` is the configuration file as last loaded, `cfg` the
      resolved one, `creds` the state whose broker fields runActiveFlow is given. Claim
      messages may still arrive in active mode, so the handshake is kept. */
  datatype Proc =
    | Off
    | Flagged(flags: Flags)
    | ResetDone(flags: Flags)
    | ConfigLoaded(flags: Flags, yaml: ConfigData)
    | StateLoaded(flags: Flags, yaml: ConfigData, cfg: ConfigData, loaded: Option<ActiveState>)
    | Unclaimed(session: Session, td: T.State)
    | Claimed(session: Session, st: ActiveState)
    | Active(yaml: ConfigData, cfg: ConfigData, creds: ActiveState, late: Option<Session>)

  datatype Board = Board(disk: Disk, proc: Proc)

  datatype Event =
    | PowerOn(flags: Flags)
    | Reset(ok: bool)
    | LoadConfig(found: Option<ConfigData>)
    | LoadState
    | Decide
    | Handshake(e: CW.Event)
    | Around(step: T.Event)
    | UnclaimedReturns
    | HandOver(found: Option<ConfigData>)
    | Stop

  function ResolveLoaded(yaml: ConfigData, st: Option<ActiveState>): ConfigData {
    if IsClaimed(st) then Resolved(yaml, st.value) else yaml
  }

  function SessionOf(p: Proc): Option<Session> {
    match p
    case Unclaimed(s, _) => Some(s)
    case Claimed(s, _) => Some(s)
    case Active(_, _, _, late) => late
    case _ => None
  }

  function WithSession(p: Proc, s: Session): Proc
    requires SessionOf(p).Some?
  {
    match p
    case Unclaimed(_, td) => Unclaimed(s, td)
    case Claimed(_, st) => Claimed(s, st)
    case Active(yaml, cfg, creds, _) => Active(yaml, cfg, creds, Some(s))
  }

  /** Wait is under way, or over while its messages may still come in. */
  predicate InWait(p: Proc) {
    p.Unclaimed? ==> p.td.main.WaitingForClaim? || p.td.main.Unwinding? || p.td.main.Returned?
  }

  /** RunUnclaimed goes on as Teardown says; the wait ends as the waiter did. */
  predicate AroundEnabled(p: Proc, e: T.Event) {
    && p.Unclaimed? && T.Enabled(p.td, e) && e != T.ParentCancel
    && (e.WaitEnds? ==> if e.claimed then p.session.w.waiter.Returned? else p.session.w.waiter.Failed?)
  }

  predicate Enabled(b: Board, e: Event) {
    match e
    case PowerOn(_) => b.proc.Off?
    case Reset(_) => b.proc.Flagged?
    case LoadConfig(_) => b.proc.ResetDone?
    case LoadState => b.proc.ConfigLoaded?
    case Decide => b.proc.StateLoaded?
    case Handshake(e) =>
      && SessionOf(b.proc).Some? && InWait(b.proc) && e != CW.Cancel
      && CW.Enabled(CW.State(SessionOf(b.proc).value.w, b.disk), e)
    case Around(e) => AroundEnabled(b.proc, e)
    case UnclaimedReturns =>
      b.proc.Unclaimed? && b.proc.td.main == T.Returned(true) && b.proc.session.w.waiter.Returned?
    case HandOver(_) => b.proc.Claimed?
    case Stop => true
  }

  /** --reset-claim deletes state.json; a failed deletion ends the process. */
  function AfterReset(b: Board, ok: bool): Board
    requires b.proc.Flagged?
  {
    if !b.proc.flags.resetClaim then b.(proc := ResetDone(b.proc.flags))
    else if ok then Board(b.disk.(file := None), ResetDone(b.proc.flags))
    else b.(proc := Off)
  }

  function AfterLoadState(b: Board): Board
    requires b.proc.ConfigLoaded?
  {
    match LoadActiveState(b.disk)
    case ParseFailed => b.(proc := Off)
    case Loaded(st) =>
      b.(proc := StateLoaded(b.proc.flags, b.proc.yaml, ResolveLoaded(b.proc.yaml, st), st))
  }

  function AfterDecide(b: Board): Board
    requires b.proc.StateLoaded?
  {
    var enterUnclaimed := b.proc.flags.unclaimed || b.proc.loaded == None || !IsClaimed(b.proc.loaded);
    if enterUnclaimed then b.(proc := Unclaimed(Session(CW.Start(b.disk).w, b.disk), T.START))
    else b.(proc := Active(b.proc.yaml, b.proc.cfg, b.proc.loaded.value, None))
  }

  function AfterHandshake(own: string, b: Board, e: CW.Event): Board
    requires Enabled(b, Handshake(e))
  {
    var s := SessionOf(b.proc).value;
    var next := CW.Step(own, CW.State(s.w, b.disk), e);
    Board(next.disk, WithSession(b.proc, s.(w := next.w)))
  }

  /** The configuration and state.json are read again; the broker fields come from the state
      that Wait returned. */
  function AfterHandOver(b: Board, found: Option<ConfigData>): Board
    requires b.proc.Claimed?
  {
    match (found, LoadActiveState(b.disk))
    case (Some(yaml), Loaded(st)) =>
      b.(proc := Active(yaml, ResolveLoaded(yaml, st), b.proc.st, Some(b.proc.session)))
    case _ => b.(proc := Off)
  }

  function Step(own: string, b: Board, e: Event): Board
    requires Enabled(b, e)
  {
    match e
    case PowerOn(flags) => b.(proc := Flagged(flags))
    case Reset(ok) => AfterReset(b, ok)
    case LoadConfig(found) =>
      b.(proc := if found.Some? then ConfigLoaded(b.proc.flags, found.value) else Off)
    case LoadState => AfterLoadState(b)
    case Decide => AfterDecide(b)
    case Handshake(e) => AfterHandshake(own, b, e)
    case Around(e) => b.(proc := b.proc.(td := T.Step(b.proc.td, e)))
    case UnclaimedReturns => b.(proc := Claimed(b.proc.session, b.proc.session.w.waiter.st))
    case HandOver(found) => AfterHandOver(b, found)
    case Stop => b.(proc := Off)
  }

  function System(own: string): (Board, Event) -> Option<Board> {
    (b: Board, e: Event) => if Enabled(b, e) then Some(Step(own, b, e)) else None
  }

  /** A new board: no state.json, whatever temporary file. */
  function Factory(temp: Option<Content>): Board {
    Board(Disk(None, temp), Off)
  }

  // ----- The invariant ---------------------------------------------------------------------

  ghost predicate FileOk(own: string, file: Option<Content>) {
    file.None? || (file.value.Complete? && CW.FromClaim(own, file.value.st))
  }

  ghost predicate SessionOk(own: string, s: Session, disk: Disk) {
    FileOk(own, s.initial.file) && CW.Inv(own, s.initial.file, CW.State(s.w, disk))
  }

  ghost predicate ProcOk(own: string, b: Board) {
    && (SessionOf(b.proc).Some? ==> SessionOk(own, SessionOf(b.proc).value, b.disk))
    && (b.proc.Claimed? ==> b.proc.session.w.persisted != [] && b.proc.st == b.proc.session.w.persisted[0])
  }

  ghost predicate Inv(own: string, b: Board) {
    FileOk(own, b.disk.file) && ProcOk(own, b)
  }

  lemma ClaimIsClaimed(own: string, st: ActiveState)
    requires CW.FromClaim(own, st)
    ensures IsClaimed(Some(st)) && ParseMac(own).Some?
    ensures st.controllerMac == Canonical(ParseMac(own).value)
  {
    var r :| Accepted(r, own) && st == ToActiveState(r);
    AcceptedImage(r, own);
  }

  lemma LoadedResolves(own: string, disk: Disk, yaml: ConfigData)
    requires FileOk(own, disk.file) && disk.file.Some?
    ensures var st := disk.file.value.st;
            && LoadActiveState(disk) == Loaded(Some(Reload(st)))
            && IsClaimed(Some(Reload(st)))
            && ResolveLoaded(yaml, Some(Reload(st))) == Resolved(yaml, st)
  {
    var st := disk.file.value.st;
    ClaimIsClaimed(own, st);
    ReloadResolvesTheSame(yaml, st);
  }

  lemma LoadStateKeeps(own: string, b: Board)
    requires Inv(own, b) && b.proc.ConfigLoaded?
    ensures Inv(own, AfterLoadState(b)) && AfterLoadState(b).proc.StateLoaded?
  {
    if b.disk.file.Some? {
      LoadedResolves(own, b.disk, b.proc.yaml);
    }
  }

  lemma DecideKeeps(own: string, b: Board)
    requires Inv(own, b) && b.proc.StateLoaded?
    ensures Inv(own, AfterDecide(b))
  {
    assert CW.Inv(own, b.disk.file, CW.Start(b.disk));
  }

  lemma PersistedGrows(own: string, s: CW.State, e: CW.Event)
    requires CW.Enabled(s, e)
    ensures s.w.persisted <= CW.Step(own, s, e).w.persisted
  {
  }

  /** What a session that satisfies the handshake invariant says about state.json. */
  lemma SessionFile(own: string, s: Session, disk: Disk)
    requires SessionOk(own, s, disk)
    ensures FileOk(own, disk.file)
    ensures s.w.persisted != [] ==> disk.file == Some(Complete(s.w.persisted[|s.w.persisted| - 1]))
  {
  }

  lemma SessionMoves(own: string, b: Board, s: Session, s': Session, disk': Disk)
    requires Inv(own, b) && SessionOf(b.proc) == Some(s)
    requires SessionOk(own, s', disk') && s.w.persisted <= s'.w.persisted
    ensures Inv(own, Board(disk', WithSession(b.proc, s')))
  {
    SessionFile(own, s', disk');
    assert SessionOf(WithSession(b.proc, s')) == Some(s');
  }

  lemma HandshakeKeeps(own: string, b: Board, e: CW.Event)
    requires Inv(own, b) && Enabled(b, Handshake(e))
    ensures Inv(own, AfterHandshake(own, b, e))
  {
    var s := SessionOf(b.proc).value;
    var now := CW.State(s.w, b.disk);
    CW.StepKeepsInv(own, s.initial.file, now, e);
    PersistedGrows(own, now, e);
    var next := CW.Step(own, now, e);
    SessionMoves(own, b, s, s.(w := next.w), next.disk);
  }

  /** The last claim persisted in the session, and the first. */
  ghost predicate ClaimsHeld(own: string, b: Board, last: ActiveState, first: ActiveState) {
    && b.proc.Claimed? && b.proc.session.w.persisted != []
    && last == b.proc.session.w.persisted[|b.proc.session.w.persisted| - 1]
    && first == b.proc.session.w.persisted[0] == b.proc.st
    && b.disk.file == Some(Complete(last)) && CW.FromClaim(own, last)
  }

  lemma ClaimedHolds(own: string, b: Board) returns (last: ActiveState, first: ActiveState)
    requires Inv(own, b) && b.proc.Claimed?
    ensures ClaimsHeld(own, b, last, first)
  {
    SessionFile(own, b.proc.session, b.disk);
    last, first := b.disk.file.value.st, b.proc.st;
  }

  function HandedOver(b: Board, yaml: ConfigData, last: ActiveState, first: ActiveState): Board
    requires b.proc.Claimed?
  {
    b.(proc := Active(yaml, Resolved(yaml, last), first, Some(b.proc.session)))
  }

  lemma HandOverLoads(own: string, b: Board, yaml: ConfigData, last: ActiveState, first: ActiveState)
    requires ClaimsHeld(own, b, last, first)
    ensures AfterHandOver(b, Some(yaml)) == HandedOver(b, yaml, last, first)
  {
    LoadedResolves(own, b.disk, yaml);
  }

  lemma ActivatedOk(own: string, b: Board, yaml: ConfigData, cfg: ConfigData, creds: ActiveState)
    requires Inv(own, b) && b.proc.Claimed?
    ensures Inv(own, b.(proc := Active(yaml, cfg, creds, Some(b.proc.session))))
  {
  }

  lemma HandOverKeeps(own: string, b: Board, found: Option<ConfigData>)
    requires Inv(own, b) && b.proc.Claimed?
    ensures Inv(own, AfterHandOver(b, found))
  {
    if found.Some? {
      var last, first := ClaimedHolds(own, b);
      HandOverLoads(own, b, found.value, last, first);
      ActivatedOk(own, b, found.value, Resolved(found.value, last), first);
    } else {
      StoppedOk(own, b);
    }
  }

  lemma StoppedOk(own: string, b: Board)
    requires Inv(own, b)
    ensures Inv(own, b.(proc := Off))
  {
  }

  lemma AroundKeeps(own: string, b: Board, e: T.Event)
    requires Inv(own, b) && AroundEnabled(b.proc, e)
    ensures Inv(own, Step(own, b, Around(e)))
  {
    SessionMoves(own, b, b.proc.session, b.proc.session, b.disk);
    var b' := Step(own, b, Around(e));
    assert SessionOf(b'.proc) == SessionOf(b.proc) && b'.disk == b.disk;
  }

  /** What Wait returned is the first state it persisted. */
  lemma ReturnKeeps(own: string, b: Board)
    requires Inv(own, b) && Enabled(b, UnclaimedReturns)
    ensures Inv(own, Step(own, b, UnclaimedReturns))
  {
    assert CW.ChannelInv(b.proc.session.w);
  }

  lemma StepKeepsInv(own: string, b: Board, e: Event)
    requires Enabled(b, e) && Inv(own, b)
    ensures Inv(own, Step(own, b, e))
  {
    match e {
      case LoadState => LoadStateKeeps(own, b);
      case Decide => DecideKeeps(own, b);
      case Handshake(e) => HandshakeKeeps(own, b, e);
      case HandOver(found) => HandOverKeeps(own, b, found);
      case Around(e) => AroundKeeps(own, b, e);
      case UnclaimedReturns => ReturnKeeps(own, b);
      case _ =>
    }
  }

  lemma RunKeepsInv(own: string, temp: Option<Content>, evs: seq<Event>, b: Board)
    requires Run(System(own), Factory(temp), evs) == Some(b)
    ensures Inv(own, b)
  {
    forall t, e | Inv(own, t) && System(own)(t, e).Some? ensures Inv(own, System(own)(t, e).value) {
      StepKeepsInv(own, t, e);
    }
    RunKeeps(System(own), t => Inv(own, t), Factory(temp), evs);
  }

  // ----- What holds over any number of boots --------------------------------------------------

  /** state.json is at every moment absent or the complete image of a claim verified for this
      board; so it always loads, and what it loads is claimed and names the board
      canonically. */
  lemma StateFileAlwaysWhole(own: string, temp: Option<Content>, evs: seq<Event>, b: Board)
    requires Run(System(own), Factory(temp), evs) == Some(b)
    ensures b.disk.file == None ||
            exists r :: Accepted(r, own) && b.disk.file == Some(Complete(ToActiveState(r)))
    ensures LoadActiveState(b.disk).Loaded?
    ensures var st := LoadActiveState(b.disk).st;
            st.Some? ==> && IsClaimed(st) && ParseMac(own).Some?
                         && st.value.controllerMac == Canonical(ParseMac(own).value)
  {
    RunKeepsInv(own, temp, evs, b);
    if b.disk.file.Some? {
      var st := b.disk.file.value.st;
      ClaimIsClaimed(own, st);
      var r :| Accepted(r, own) && st == ToActiveState(r);
    }
  }

  /** cfg is yaml with what the claim r orders: its server address and controller id, its
      broker fields where it has any, and its sensors and devices laid over the local ones. */
  ghost predicate ConfiguredBy(r: ClaimResponse, yaml: ConfigData, cfg: ConfigData) {
    && cfg.server == ServerConfig(r.serverHttpUrl, r.controllerId)
    && cfg.mqtt.broker == (if r.mqttBrokerUrl == "" then yaml.mqtt.broker else r.mqttBrokerUrl)
    && cfg.mqtt.username == (if r.mqttUsername == "" then yaml.mqtt.username else r.mqttUsername)
    && cfg.mqtt.password == (if r.mqttPassword == "" then yaml.mqtt.password else r.mqttPassword)
    && cfg.mqtt.clientId == yaml.mqtt.clientId
    && cfg.mqtt.connectTimeout == yaml.mqtt.connectTimeout && cfg.mqtt.keepAlive == yaml.mqtt.keepAlive
    && cfg.sensors == Overlay(SENSOR_SCHEME, UsableSensors(Elements(r.sensors)), yaml.sensors)
    && cfg.devices == Overlay(DEVICE_SCHEME, UsableDevices(Elements(r.devices)), yaml.devices)
  }

  lemma ClaimConfigures(r: ClaimResponse, yaml: ConfigData)
    ensures ConfiguredBy(r, yaml, Resolved(yaml, ToActiveState(r)))
  {
  }

  function BootEvents(flags: Flags, yaml: ConfigData): seq<Event> {
    [PowerOn(flags), Reset(true), LoadConfig(Some(yaml)), LoadState, Decide]
  }

  lemma RunFive<S, E>(next: (S, E) -> Option<S>, s: S, a: E, b: E, c: E, d: E, e: E, s1: S, s2: S, s3: S, s4: S)
    requires next(s, a) == Some(s1) && next(s1, b) == Some(s2) && next(s2, c) == Some(s3) && next(s3, d) == Some(s4)
    ensures Run(next, s, [a, b, c, d, e]) == next(s4, e)
  {
    assert [] + [a] == [a] && [a] + [b] == [a, b] && [a, b] + [c] == [a, b, c];
    assert [a, b, c] + [d] == [a, b, c, d] && [a, b, c, d] + [e] == [a, b, c, d, e];
    RunOneMore(next, s, [], a);
    RunOneMore(next, s, [a], b);
    RunOneMore(next, s, [a, b], c);
    RunOneMore(next, s, [a, b, c], d);
    RunOneMore(next, s, [a, b, c, d], e);
  }

  /** After any history a plain boot that runs through becomes active exactly when
      state.json is there, and then under the claim the file holds; --reset-claim and
      --unclaimed always lead to the claim handshake. A controller id in the configuration
      file plays no part. */
  lemma BootDecision(own: string, temp: Option<Content>, evs: seq<Event>, b: Board, flags: Flags, yaml: ConfigData)
    requires Run(System(own), Factory(temp), evs) == Some(b) && b.proc.Off?
    ensures var after := Run(System(own), b, BootEvents(flags, yaml));
            && after.Some?
            && (after.value.proc.Active? <==> b.disk.file.Some? && !flags.unclaimed && !flags.resetClaim)
            && after.value.disk == (if flags.resetClaim then b.disk.(file := None) else b.disk)
            && (!after.value.proc.Active? ==>
                  after.value.proc == Unclaimed(Session(CW.Start(after.value.disk).w, after.value.disk), T.START))
            && (after.value.proc.Active? ==>
                  && b.disk.file.value.Complete?
                  && after.value.proc.cfg == Resolved(yaml, b.disk.file.value.st)
                  && after.value.proc.creds == Reload(b.disk.file.value.st))
  {
    RunKeepsInv(own, temp, evs, b);
    Decided(own, b, flags, yaml);
    BootRuns(own, b, flags, yaml);
  }

  /** What ends a process by itself: a state file that cannot be deleted, but only when it is to
      be, a configuration that does not load, at the boot or at the hand-over, and a state file
      that does not parse. None of these touches the disk. */
  lemma BootEndsEarly(own: string, b: Board, ok: bool, found: Option<ConfigData>)
    ensures b.proc.Flagged? ==>
              Step(own, b, Reset(ok)) ==
              (if !b.proc.flags.resetClaim then Board(b.disk, ResetDone(b.proc.flags))
               else if ok then Board(Disk(None, b.disk.temp), ResetDone(b.proc.flags))
               else Board(b.disk, Off))
    ensures b.proc.ResetDone? ==>
              Step(own, b, LoadConfig(found)) ==
              Board(b.disk, if found.Some? then ConfigLoaded(b.proc.flags, found.value) else Off)
    ensures b.proc.ConfigLoaded? && b.disk.file == Some(Torn) ==> Step(own, b, LoadState) == Board(b.disk, Off)
    ensures b.proc.Claimed? && (found == None || b.disk.file == Some(Torn)) ==>
              Step(own, b, HandOver(found)) == Board(b.disk, Off)
  {
  }

  /** Only the file operations of a save and the reset touch the disk; a process that stops leaves
      it as it is. */
  lemma DiskStays(own: string, b: Board, e: Event)
    requires Enabled(b, e)
    ensures e.Stop? ==> Step(own, b, e) == Board(b.disk, Off)
    ensures !e.Handshake? && !(e == Reset(true) && b.proc.flags.resetClaim) ==> Step(own, b, e).disk == b.disk
    ensures e.Handshake? && !e.e.OpenTemp? && !e.e.WriteTemp? && !e.e.RenameTemp? ==> Step(own, b, e).disk == b.disk
  {
  }

  /** Until the wait begins no message has been handled. */
  predicate SilentBeforeWait(p: Proc) {
    p.Unclaimed? && !InWait(p) ==> p.session.w == CW.Start(p.session.initial).w
  }

  lemma SilentNext(own: string, b: Board, e: Event)
    requires Enabled(b, e) && SilentBeforeWait(b.proc)
    ensures SilentBeforeWait(Step(own, b, e).proc)
  {
  }

  lemma {:induction false} NoMessageBeforeWait(own: string, temp: Option<Content>, evs: seq<Event>, b: Board)
    requires Run(System(own), Factory(temp), evs) == Some(b)
    ensures SilentBeforeWait(b.proc)
  {
    if evs == [] {
    } else {
      var before := evs[..|evs| - 1];
      var t := Run(System(own), Factory(temp), before).value;
      NoMessageBeforeWait(own, temp, before, t);
      SilentNext(own, t, evs[|evs| - 1]);
    }
  }

  /** The wait for a claim ended as the waiter did. */
  predicate EndedAsWaited(p: Proc) {
    p.Unclaimed? ==>
      match p.td.main
      case Unwinding(claimed) => if claimed then p.session.w.waiter.Returned? else p.session.w.waiter.Failed?
      case Returned(claimed) => if claimed then p.session.w.waiter.Returned? else p.session.w.waiter.Failed?
      case _ => true
  }

  lemma WaiterEnds(own: string, s: CW.State, e: CW.Event)
    requires CW.Enabled(s, e) && (s.w.waiter.Returned? || s.w.waiter.Failed?)
    ensures CW.Step(own, s, e).w.waiter == s.w.waiter
  {
  }

  lemma EndedNext(own: string, b: Board, e: Event)
    requires Enabled(b, e) && EndedAsWaited(b.proc)
    ensures EndedAsWaited(Step(own, b, e).proc)
  {
    if e.Handshake? {
      var s := CW.State(SessionOf(b.proc).value.w, b.disk);
      if s.w.waiter.Returned? || s.w.waiter.Failed? {
        WaiterEnds(own, s, e.e);
      }
    }
  }

  /** RunUnclaimed ends with a claim exactly when Wait returned one, and with an error exactly when
      Wait failed. */
  lemma {:induction false} WaitDecides(own: string, temp: Option<Content>, evs: seq<Event>, b: Board)
    requires Run(System(own), Factory(temp), evs) == Some(b)
    ensures EndedAsWaited(b.proc)
  {
    if evs == [] {
    } else {
      var before := evs[..|evs| - 1];
      var t := Run(System(own), Factory(temp), before).value;
      WaitDecides(own, temp, before, t);
      EndedNext(own, t, evs[|evs| - 1]);
    }
  }

  /** The board when main has to decide. */
  function BeforeDecision(b: Board, flags: Flags, yaml: ConfigData): Board
    requires b.proc.Off?
  {
    AfterLoadState(AfterReset(b.(proc := Flagged(flags)), true).(proc := ConfigLoaded(flags, yaml)))
  }

  lemma BeforeDecisionOk(own: string, b: Board, flags: Flags, yaml: ConfigData)
    requires Inv(own, b) && b.proc.Off?
    ensures var d := BeforeDecision(b, flags, yaml);
            var file := if flags.resetClaim then None else b.disk.file;
            && d.disk == b.disk.(file := file) && d.proc.StateLoaded? && d.proc.flags == flags && d.proc.yaml == yaml
            && (d.proc.loaded.Some? <==> file.Some?)
            && (file.Some? ==> file.value.Complete? && IsClaimed(d.proc.loaded)
                               && d.proc.loaded == Some(Reload(file.value.st))
                               && d.proc.cfg == Resolved(yaml, file.value.st))
  {
    var b1 := AfterReset(b.(proc := Flagged(flags)), true).(proc := ConfigLoaded(flags, yaml));
    if b1.disk.file.Some? {
      LoadedResolves(own, b1.disk, yaml);
    }
  }

  lemma BootRuns(own: string, b: Board, flags: Flags, yaml: ConfigData)
    requires b.proc.Off? && BeforeDecision(b, flags, yaml).proc.StateLoaded?
    ensures Run(System(own), b, BootEvents(flags, yaml)) == Some(AfterDecide(BeforeDecision(b, flags, yaml)))
  {
    var b1 := b.(proc := Flagged(flags));
    var b2 := AfterReset(b1, true);
    var b3 := b2.(proc := ConfigLoaded(flags, yaml));
    RunFive(System(own), b, PowerOn(flags), Reset(true), LoadConfig(Some(yaml)), LoadState, Decide,
            b1, b2, b3, AfterLoadState(b3));
  }

  lemma Decided(own: string, b: Board, flags: Flags, yaml: ConfigData)
    requires Inv(own, b) && b.proc.Off?
    ensures BeforeDecision(b, flags, yaml).proc.StateLoaded?
    ensures var after := AfterDecide(BeforeDecision(b, flags, yaml));
            && (after.proc.Active? <==> b.disk.file.Some? && !flags.unclaimed && !flags.resetClaim)
            && after.disk == (if flags.resetClaim then b.disk.(file := None) else b.disk)
            && (!after.proc.Active? ==>
                  after.proc == Unclaimed(Session(CW.Start(after.disk).w, after.disk), T.START))
            && (after.proc.Active? ==>
                  && b.disk.file.value.Complete?
                  && after.proc.cfg == Resolved(yaml, b.disk.file.value.st)
                  && after.proc.creds == Reload(b.disk.file.value.st))
  {
    BeforeDecisionOk(own, b, flags, yaml);
  }
}
