/** The hand-over to the active flow: which claims it draws on, when they are one, when it can
    happen at all, and what a restart does instead. */
module HandOver {
  import opened Prelude
  import opened ProvisionTypes
  import opened ClientConfig
  import opened Claim
  import opened StateFile
  import opened Resolve
  import opened Merge
  import opened ActiveConfig
  import CW = ClaimWait
  import T = Teardown
  import opened Runs
  import opened Boot

  // ----- The handshake inside a run of the board ---------------------------------------------------

  /** The handshake events since the board was last switched on. */
  function HandshakeOf(evs: seq<Event>): seq<CW.Event> {
    if evs == [] then []
    else
      var e, before := evs[|evs| - 1], HandshakeOf(evs[..|evs| - 1]);
      if e.PowerOn? then [] else if e.Handshake? then before + [e.e] else before
  }

  predicate Undecided(p: Proc) {
    p.Flagged? || p.ResetDone? || p.ConfigLoaded? || p.StateLoaded?
  }

  ghost predicate Projects(own: string, evs: seq<Event>, b: Board) {
    && (Undecided(b.proc) ==> HandshakeOf(evs) == [])
    && (SessionOf(b.proc).Some? ==> SessionRuns(own, evs, SessionOf(b.proc).value, b.disk))
  }

  ghost predicate SessionRuns(own: string, evs: seq<Event>, s: Session, disk: Disk) {
    Run(CW.System(own), CW.Start(s.initial), HandshakeOf(evs)) == Some(CW.State(s.w, disk))
  }

  lemma HandshakeOfNext(evs: seq<Event>, e: Event)
    ensures HandshakeOf(evs + [e]) ==
            if e.PowerOn? then [] else if e.Handshake? then HandshakeOf(evs) + [e.e] else HandshakeOf(evs)
  {
    assert (evs + [e])[..|evs|] == evs;
  }

  lemma HandshakeProjects(own: string, evs: seq<Event>, b: Board, h: CW.Event)
    requires Enabled(b, Handshake(h)) && Projects(own, evs, b)
    ensures Projects(own, evs + [Handshake(h)], AfterHandshake(own, b, h))
  {
    HandshakeOfNext(evs, Handshake(h));
    var s := SessionOf(b.proc).value;
    RunOneMore(CW.System(own), CW.Start(s.initial), HandshakeOf(evs), h);
    var next := CW.Step(own, CW.State(s.w, b.disk), h);
    assert SessionOf(AfterHandshake(own, b, h).proc) == Some(s.(w := next.w));
  }

  lemma DecideProjects(own: string, evs: seq<Event>, b: Board)
    requires b.proc.StateLoaded? && Projects(own, evs, b)
    ensures Projects(own, evs + [Decide], AfterDecide(b))
  {
    HandshakeOfNext(evs, Decide);
  }

  /** The other events leave a session that goes on as it is. */
  lemma StepProjects(own: string, evs: seq<Event>, b: Board, e: Event)
    requires Enabled(b, e) && Projects(own, evs, b)
    ensures Projects(own, evs + [e], Step(own, b, e))
  {
    if e.Handshake? {
      HandshakeProjects(own, evs, b, e.e);
    } else if e.Decide? {
      DecideProjects(own, evs, b);
    } else {
      HandshakeOfNext(evs, e);
      var b' := Step(own, b, e);
      assert SessionOf(b'.proc).Some? ==> SessionOf(b'.proc) == SessionOf(b.proc) && b'.disk == b.disk;
    }
  }

  /** Whatever handshake a board is in, it went exactly as the handshake events since the
      board was switched on say: all that holds of every handshake run holds here. */
  lemma {:induction false} SessionIsARun(own: string, temp: Option<Content>, evs: seq<Event>, b: Board)
    requires Run(System(own), Factory(temp), evs) == Some(b)
    ensures Projects(own, evs, b)
  {
    if evs == [] {
    } else {
      var before := evs[..|evs| - 1];
      var a := Run(System(own), Factory(temp), before).value;
      SessionIsARun(own, temp, before, a);
      StepProjects(own, before, a, evs[|evs| - 1]);
      assert before + [evs[|evs| - 1]] == evs;
    }
  }

  // ----- Which claims the hand-over draws on ---------------------------------------------------------

  /** The claims saved since the board was switched on, in terms of the messages delivered and
      the file operations that succeeded. */
  function Saved(evs: seq<Event>): seq<ClaimResponse> {
    CW.SavedClaims(HandshakeOf(evs))
  }

  /** The first and the last saved claim of a session. */
  lemma SessionEnds(own: string, evs: seq<CW.Event>, s: Session, disk: Disk) returns (first: ClaimResponse, last: ClaimResponse)
    requires Run(CW.System(own), CW.Start(s.initial), evs) == Some(CW.State(s.w, disk)) && CW.SavedClaims(evs) != []
    ensures first == CW.SavedClaims(evs)[0] && last == CW.SavedClaims(evs)[|CW.SavedClaims(evs)| - 1]
    ensures Accepted(first, own) && Accepted(last, own) && disk.file == Some(Complete(ToActiveState(last)))
  {
    first, last := CW.SavedEnds(own, s.initial, evs, CW.State(s.w, disk));
  }

  lemma SavedAtReturn(own: string, temp: Option<Content>, evs: seq<Event>, b: Board)
    requires Run(System(own), Factory(temp), evs) == Some(b) && b.proc.Claimed?
    ensures Saved(evs) != [] && b.proc.st == ToActiveState(Saved(evs)[0])
  {
    RunKeepsInv(own, temp, evs, b);
    SessionIsARun(own, temp, evs, b);
    var s := b.proc.session;
    CW.ClaimsInOrder(own, s.initial, HandshakeOf(evs), CW.State(s.w, b.disk));
    ImagesAt(Saved(evs), 0);
  }

  lemma BootClaims(own: string, temp: Option<Content>, evs: seq<Event>, b: Board)
    returns (first: ClaimResponse, last: ClaimResponse)
    requires Run(System(own), Factory(temp), evs) == Some(b) && b.proc.Claimed?
    ensures Saved(evs) != [] && first == Saved(evs)[0] && last == Saved(evs)[|Saved(evs)| - 1]
    ensures Accepted(first, own) && Accepted(last, own)
    ensures ClaimsHeld(own, b, ToActiveState(last), ToActiveState(first))
  {
    SavedAtReturn(own, temp, evs, b);
    RunKeepsInv(own, temp, evs, b);
    SessionIsARun(own, temp, evs, b);
    first, last := SessionEnds(own, HandshakeOf(evs), b.proc.session, b.disk);
    var l, f := ClaimedHolds(own, b);
    assert l == ToActiveState(last) && f == ToActiveState(first);
  }

  /** The active flow runs with the configuration that the claim `last` orders and the broker
      fields of the claim `first`. */
  ghost predicate RunsUnder(p: Proc, yaml: ConfigData, first: ClaimResponse, last: ClaimResponse) {
    && p.Active? && p.yaml == yaml
    && p.cfg == Resolved(yaml, ToActiveState(last)) && ConfiguredBy(last, yaml, p.cfg)
    && p.creds == ToActiveState(first)
  }

  lemma HandOverGives(own: string, b: Board, yaml: ConfigData, first: ClaimResponse, last: ClaimResponse)
    requires ClaimsHeld(own, b, ToActiveState(last), ToActiveState(first))
    ensures AfterHandOver(b, Some(yaml)).disk == b.disk && RunsUnder(AfterHandOver(b, Some(yaml)).proc, yaml, first, last)
  {
    HandOverLoads(own, b, yaml, ToActiveState(last), ToActiveState(first));
    ClaimConfigures(last, yaml);
  }

  /** At the hand-over the configuration comes from the last claim saved in this boot and the
      broker fields from the first. */
  lemma HandOverSources(own: string, temp: Option<Content>, evs: seq<Event>, b: Board, yaml: ConfigData)
    returns (first: ClaimResponse, last: ClaimResponse)
    requires Run(System(own), Factory(temp), evs) == Some(b) && b.proc.Claimed?
    ensures Saved(evs) != [] && first == Saved(evs)[0] && last == Saved(evs)[|Saved(evs)| - 1]
    ensures Accepted(first, own) && Accepted(last, own)
    ensures AfterHandOver(b, Some(yaml)).disk == b.disk && RunsUnder(AfterHandOver(b, Some(yaml)).proc, yaml, first, last)
  {
    first, last := BootClaims(own, temp, evs, b);
    HandOverGives(own, b, yaml, first, last);
  }

  /** When no save failed and none is under way, the claims saved are all the acceptable
      messages of this boot. */
  lemma SavedAreTheAcceptable(own: string, temp: Option<Content>, evs: seq<Event>, b: Board)
    requires Run(System(own), Factory(temp), evs) == Some(b) && b.proc.Claimed?
    requires !b.proc.session.w.saveFailed && !b.proc.session.w.cb.Saving?
    ensures Saved(evs) == CW.AcceptedClaims(own, b.proc.session.w.handled)
  {
    SessionIsARun(own, temp, evs, b);
    var s := b.proc.session;
    CW.SavedAll(own, s.initial, HandshakeOf(evs), CW.State(s.w, b.disk));
  }

  /** The id a local sensor ends up with. */
  function SensorId(us: seq<Sensor>, y: SensorConfig): string {
    var key := YamlSensorKey(y);
    if key != "" && HasKey(SENSOR_SCHEME, us, key) then LastOf(SENSOR_SCHEME, us, key).id else y.id
  }

  function DeviceId(us: seq<Relay>, y: DeviceConfig): string {
    if HasKey(DEVICE_SCHEME, us, DeviceKey(y.typ, y.pin)) then LastOf(DEVICE_SCHEME, us, DeviceKey(y.typ, y.pin)).id
    else y.id
  }

  /** Each local entry gets the same id from both lists, and both add the same entries. */
  predicate SameSensors(us: seq<Sensor>, us': seq<Sensor>, ys: seq<SensorConfig>) {
    && (forall i :: 0 <= i < |ys| ==> SensorId(us, ys[i]) == SensorId(us', ys[i]))
    && SameExtras(SENSOR_SCHEME, us, us', ys)
  }

  predicate SameDevices(us: seq<Relay>, us': seq<Relay>, ys: seq<DeviceConfig>) {
    && (forall i :: 0 <= i < |ys| ==> DeviceId(us, ys[i]) == DeviceId(us', ys[i]))
    && SameExtras(DEVICE_SCHEME, us, us', ys)
  }

  lemma SameSensorsIff(us: seq<Sensor>, us': seq<Sensor>, ys: seq<SensorConfig>)
    ensures Overlay(SENSOR_SCHEME, us, ys) == Overlay(SENSOR_SCHEME, us', ys) <==> SameSensors(us, us', ys)
  {
    SameOverlayIff(SENSOR_SCHEME, us, us', ys);
    forall i | 0 <= i < |ys|
      ensures Adopted(SENSOR_SCHEME, us, ys[i]) == Adopted(SENSOR_SCHEME, us', ys[i])
         <==> SensorId(us, ys[i]) == SensorId(us', ys[i])
    {
      AdoptedSensor(us, ys[i]);
      AdoptedSensor(us', ys[i]);
    }
  }

  lemma AdoptedSensor(us: seq<Sensor>, y: SensorConfig)
    ensures Adopted(SENSOR_SCHEME, us, y) == y.(id := SensorId(us, y))
  {
  }

  lemma SameDevicesIff(us: seq<Relay>, us': seq<Relay>, ys: seq<DeviceConfig>)
    ensures Overlay(DEVICE_SCHEME, us, ys) == Overlay(DEVICE_SCHEME, us', ys) <==> SameDevices(us, us', ys)
  {
    SameOverlayIff(DEVICE_SCHEME, us, us', ys);
    forall i | 0 <= i < |ys|
      ensures Adopted(DEVICE_SCHEME, us, ys[i]) == Adopted(DEVICE_SCHEME, us', ys[i])
         <==> DeviceId(us, ys[i]) == DeviceId(us', ys[i])
    {
      AdoptedDevice(us, ys[i]);
      AdoptedDevice(us', ys[i]);
    }
  }

  lemma AdoptedDevice(us: seq<Relay>, y: DeviceConfig)
    ensures Adopted(DEVICE_SCHEME, us, y) == y.(id := DeviceId(us, y))
  {
  }

  /** The two claims ask for the same, given the local configuration: the same server, controller
      and broker fields, the same id for every local sensor and device, and the same further
      ones in the same order. */
  predicate SameConfiguration(yaml: ConfigData, r: ClaimResponse, r': ClaimResponse) {
    && r.serverHttpUrl == r'.serverHttpUrl && r.controllerId == r'.controllerId
    && Preferred(r.mqttBrokerUrl, yaml.mqtt.broker) == Preferred(r'.mqttBrokerUrl, yaml.mqtt.broker)
    && Preferred(r.mqttUsername, yaml.mqtt.username) == Preferred(r'.mqttUsername, yaml.mqtt.username)
    && Preferred(r.mqttPassword, yaml.mqtt.password) == Preferred(r'.mqttPassword, yaml.mqtt.password)
    && SameSensors(UsableSensors(Elements(r.sensors)), UsableSensors(Elements(r'.sensors)), yaml.sensors)
    && SameDevices(UsableDevices(Elements(r.devices)), UsableDevices(Elements(r'.devices)), yaml.devices)
  }

  lemma SameConfigurationIff(yaml: ConfigData, r: ClaimResponse, r': ClaimResponse)
    ensures Resolved(yaml, ToActiveState(r)) == Resolved(yaml, ToActiveState(r')) <==> SameConfiguration(yaml, r, r')
  {
    ClaimConfigures(r, yaml);
    ClaimConfigures(r', yaml);
    SameSensorsIff(UsableSensors(Elements(r.sensors)), UsableSensors(Elements(r'.sensors)), yaml.sensors);
    SameDevicesIff(UsableDevices(Elements(r.devices)), UsableDevices(Elements(r'.devices)), yaml.devices);
  }

  /** After a hand-over, configuration and broker fields belong to one claim exactly when the
      first and the last claim saved in this boot make the same of the local configuration. */
  lemma OneClaimIff(own: string, temp: Option<Content>, evs: seq<Event>, b: Board, yaml: ConfigData)
    returns (first: ClaimResponse, last: ClaimResponse)
    requires Run(System(own), Factory(temp), evs) == Some(b) && b.proc.Claimed?
    ensures Saved(evs) != [] && first == Saved(evs)[0] && last == Saved(evs)[|Saved(evs)| - 1]
    ensures var a := AfterHandOver(b, Some(yaml)).proc;
            && a.Active?
            && (a.cfg == Resolved(yaml, a.creds) <==> SameConfiguration(yaml, last, first))
  {
    first, last := HandOverSources(own, temp, evs, b, yaml);
    SameConfigurationIff(yaml, last, first);
  }

  // ----- The connection the active flow makes -------------------------------------------------------

  datatype Connection = Connection(broker: string, username: string, password: string)

  /** Each field on its own: the one handed over, or else the configured one. */
  function ConnectionOf(cfg: ConfigData, creds: ActiveState): Connection {
    Connection(Preferred(creds.mqttBrokerUrl, cfg.mqtt.broker),
               Preferred(creds.mqttUsername, cfg.mqtt.username),
               Preferred(creds.mqttPassword, cfg.mqtt.password))
  }

  /** What a single claim asks for. */
  function ClaimConnection(yaml: ConfigData, r: ClaimResponse): Connection {
    Connection(Preferred(r.mqttBrokerUrl, yaml.mqtt.broker),
               Preferred(r.mqttUsername, yaml.mqtt.username),
               Preferred(r.mqttPassword, yaml.mqtt.password))
  }

  lemma ConnectionFrom(yaml: ConfigData, first: ClaimResponse, last: ClaimResponse)
    ensures ConnectionOf(Resolved(yaml, ToActiveState(last)), ToActiveState(first)) ==
            var fallback := ClaimConnection(yaml, last);
            Connection(Preferred(first.mqttBrokerUrl, fallback.broker),
                       Preferred(first.mqttUsername, fallback.username),
                       Preferred(first.mqttPassword, fallback.password))
  {
  }

  /** The claim orders nothing about the field, or what `wanted` says. */
  predicate Yields(field: string, wanted: string) {
    field == "" || field == wanted
  }

  /** After a hand-over each broker field is the first saved claim's, or else the last's, or
      else the local one. So the connection is what the last claim asks for exactly when the
      first one differs in no field it fills. */
  lemma HandOverConnectsIff(own: string, temp: Option<Content>, evs: seq<Event>, b: Board, yaml: ConfigData)
    returns (first: ClaimResponse, last: ClaimResponse)
    requires Run(System(own), Factory(temp), evs) == Some(b) && b.proc.Claimed?
    ensures Saved(evs) != [] && first == Saved(evs)[0] && last == Saved(evs)[|Saved(evs)| - 1]
    ensures var a := AfterHandOver(b, Some(yaml)).proc;
            var wanted := ClaimConnection(yaml, last);
            && a.Active?
            && ConnectionOf(a.cfg, a.creds) ==
               Connection(Preferred(first.mqttBrokerUrl, wanted.broker),
                          Preferred(first.mqttUsername, wanted.username),
                          Preferred(first.mqttPassword, wanted.password))
            && (ConnectionOf(a.cfg, a.creds) == wanted <==>
                  && Yields(first.mqttBrokerUrl, wanted.broker)
                  && Yields(first.mqttUsername, wanted.username)
                  && Yields(first.mqttPassword, wanted.password))
  {
    first, last := HandOverSources(own, temp, evs, b, yaml);
    ConnectionFrom(yaml, first, last);
  }

  // ----- When the hand-over can happen ------------------------------------------------------------------

  /** Did the mDNS advertiser start since the board was switched on? */
  function Advertiser(evs: seq<Event>): Option<bool> {
    if evs == [] then None
    else
      var e := evs[|evs| - 1];
      if e.PowerOn? then None
      else if e.Around? && e.step.StartMdns? then Some(e.step.ok)
      else Advertiser(evs[..|evs| - 1])
  }

  predicate AroundOk(evs: seq<Event>, p: Proc) {
    match p
    case Unclaimed(_, td) =>
      && T.Inv(td) && !td.parentDone
      && (Advertiser(evs) == Some(true) <==> !td.mdns.NotRunning?)
      && (Advertiser(evs) == None <==> td.main.Dialing? || td.main.SocketOpen? || td.main.ContextMade?)
    case Claimed(_, _) => Advertiser(evs) == Some(false)
    case Active(_, _, _, late) => late.Some? ==> Advertiser(evs) == Some(false)
    case Off => true
    case _ => Advertiser(evs) == None
  }

  lemma AdvertiserNext(evs: seq<Event>, e: Event)
    ensures Advertiser(evs + [e]) ==
            if e.PowerOn? then None
            else if e.Around? && e.step.StartMdns? then Some(e.step.ok)
            else Advertiser(evs)
  {
    assert (evs + [e])[..|evs|] == evs;
  }

  lemma AroundStepOk(evs: seq<Event>, p: Proc, step: T.Event)
    requires AroundEnabled(p, step) && AroundOk(evs, p)
    ensures AroundOk(evs + [Around(step)], p.(td := T.Step(p.td, step)))
  {
    AdvertiserNext(evs, Around(step));
    T.StepKeepsInv(p.td, step);
  }

  lemma StepAroundOk(own: string, evs: seq<Event>, b: Board, e: Event)
    requires Enabled(b, e) && AroundOk(evs, b.proc)
    ensures AroundOk(evs + [e], Step(own, b, e).proc)
  {
    AdvertiserNext(evs, e);
    if e.Around? {
      AroundStepOk(evs, b.proc, e.step);
    } else if e.UnclaimedReturns? {
      assert b.proc.td.mdns.NotRunning?;
      assert Advertiser(evs).Some? && !Advertiser(evs).value;
    }
  }

  lemma {:induction false} RunAroundOk(own: string, temp: Option<Content>, evs: seq<Event>, b: Board)
    requires Run(System(own), Factory(temp), evs) == Some(b)
    ensures AroundOk(evs, b.proc)
  {
    if evs == [] {
    } else {
      var before := evs[..|evs| - 1];
      var a := Run(System(own), Factory(temp), before).value;
      RunAroundOk(own, temp, before, a);
      StepAroundOk(own, before, a, evs[|evs| - 1]);
      assert before + [evs[|evs| - 1]] == evs;
    }
  }

  /** A hand-over happens only in a boot whose advertiser failed to start. */
  lemma HandOverNeedsNoAdvertiser(own: string, temp: Option<Content>, evs: seq<Event>, b: Board)
    requires Run(System(own), Factory(temp), evs) == Some(b)
    ensures b.proc.Claimed? ==> Advertiser(evs) == Some(false)
    ensures b.proc.Active? && b.proc.late.Some? ==> Advertiser(evs) == Some(false)
  {
    RunAroundOk(own, temp, evs, b);
  }

  predicate NoStop(evs: seq<Event>) {
    forall i :: 0 <= i < |evs| ==> !evs[i].Stop?
  }

  predicate Advertising(p: Proc) {
    p.Unclaimed? && T.Inv(p.td) && !p.td.parentDone && !p.td.mdns.NotRunning?
  }

  lemma AdvertisingStays(own: string, b: Board, e: Event)
    requires Advertising(b.proc) && Enabled(b, e) && !e.Stop?
    ensures Advertising(Step(own, b, e).proc)
  {
    if e.Around? {
      T.StepKeepsInv(b.proc.td, e.step);
    }
  }

  lemma {:induction false} AdvertisingRun(own: string, b: Board, more: seq<Event>)
    requires Advertising(b.proc) && NoStop(more) && Run(System(own), b, more).Some?
    ensures Advertising(Run(System(own), b, more).value.proc)
  {
    if more == [] {
    } else {
      var n := |more| - 1;
      AdvertisingRun(own, b, more[..n]);
      AdvertisingStays(own, Run(System(own), b, more[..n]).value, more[n]);
    }
  }

  /** Once the advertiser runs, the board stays unclaimed, whatever claims come in, until the
      process stops. */
  lemma AdvertisingBoardStaysUnclaimed(own: string, temp: Option<Content>, evs: seq<Event>, b: Board, more: seq<Event>)
    requires Run(System(own), Factory(temp), evs) == Some(b)
    requires b.proc.Unclaimed? && Advertiser(evs) == Some(true)
    requires NoStop(more) && Run(System(own), b, more).Some?
    ensures Run(System(own), b, more).value.proc.Unclaimed?
  {
    RunAroundOk(own, temp, evs, b);
    AdvertisingRun(own, b, more);
  }

  // ----- A restart ------------------------------------------------------------------------------------------

  const PLAIN := Flags(false, false)

  lemma SavedOnDisk(own: string, temp: Option<Content>, evs: seq<Event>, b: Board) returns (last: ClaimResponse)
    requires Run(System(own), Factory(temp), evs) == Some(b) && SessionOf(b.proc).Some? && Saved(evs) != []
    ensures last == Saved(evs)[|Saved(evs)| - 1] && b.disk.file == Some(Complete(ToActiveState(last)))
  {
    SessionIsARun(own, temp, evs, b);
    var s := SessionOf(b.proc).value;
    assert SessionRuns(own, evs, s, b.disk);
    last := LastSaved(own, evs, s, b.disk);
  }

  lemma LastSaved(own: string, evs: seq<Event>, s: Session, disk: Disk) returns (last: ClaimResponse)
    requires SessionRuns(own, evs, s, disk) && Saved(evs) != []
    ensures last == Saved(evs)[|Saved(evs)| - 1] && disk.file == Some(Complete(ToActiveState(last)))
  {
    var wait, first := HandshakeOf(evs), Saved(evs)[0];
    assert CW.SavedClaims(wait) == Saved(evs);
    first, last := SessionEnds(own, wait, s, disk);
  }

  /** A board that stops after a claim was saved, in whatever state, and then boots plainly is
      active under the last saved claim alone: configuration, broker fields and connection. */
  lemma RestartFollowsLastClaim(own: string, temp: Option<Content>, evs: seq<Event>, b: Board, yaml: ConfigData)
    returns (last: ClaimResponse)
    requires Run(System(own), Factory(temp), evs) == Some(b) && SessionOf(b.proc).Some? && Saved(evs) != []
    ensures last == Saved(evs)[|Saved(evs)| - 1]
    ensures var after := Run(System(own), Step(own, b, Stop), BootEvents(PLAIN, yaml));
            && after.Some? && after.value.proc.Active?
            && after.value.proc.cfg == Resolved(yaml, ToActiveState(last))
            && after.value.proc.creds == Reload(ToActiveState(last))
            && ConnectionOf(after.value.proc.cfg, after.value.proc.creds) == ClaimConnection(yaml, last)
  {
    last := SavedOnDisk(own, temp, evs, b);
    RunOneMore(System(own), Factory(temp), evs, Stop);
    BootDecision(own, temp, evs + [Stop], Step(own, b, Stop), PLAIN, yaml);
  }

  // ----- A handshake on a fresh board, and what may follow it -----------------------------------------------

  function Lifted(evs: seq<CW.Event>): seq<Event> {
    seq(|evs|, i requires 0 <= i < |evs| => Handshake(evs[i]))
  }

  function InHandshake(s: CW.State, initial: Disk, td: T.State): Board {
    Board(s.disk, Unclaimed(Session(s.w, initial), td))
  }

  lemma HandshakeStep(own: string, t: CW.State, initial: Disk, td: T.State, e: CW.Event)
    requires CW.Enabled(t, e) && e != CW.Cancel && td.main.WaitingForClaim?
    ensures Enabled(InHandshake(t, initial, td), Handshake(e))
    ensures Step(own, InHandshake(t, initial, td), Handshake(e)) == InHandshake(CW.Step(own, t, e), initial, td)
  {
    assert CW.State(t.w, t.disk) == t;
  }

  /** Every run of the handshake without a cancel is a run of the board that waits for a
      claim. */
  lemma {:induction false} HandshakeRun(own: string, disk: Disk, td: T.State, evs: seq<CW.Event>, s: CW.State)
    requires Run(CW.System(own), CW.Start(disk), evs) == Some(s) && CW.Cancel !in evs && td.main.WaitingForClaim?
    ensures Run(System(own), InHandshake(CW.Start(disk), disk, td), Lifted(evs)) == Some(InHandshake(s, disk, td))
  {
    if evs == [] {
      assert Lifted(evs) == [];
    } else {
      var n := |evs| - 1;
      var t := Run(CW.System(own), CW.Start(disk), evs[..n]).value;
      HandshakeRun(own, disk, td, evs[..n], t);
      assert Lifted(evs) == Lifted(evs[..n]) + [Handshake(evs[n])];
      RunOneMore(System(own), InHandshake(CW.Start(disk), disk, td), Lifted(evs[..n]), Handshake(evs[n]));
      HandshakeStep(own, t, disk, td, evs[n]);
    }
  }

  // ----- A claim that comes late ----------------------------------------------------------------------------

  lemma WithSessionAgain(p: Proc, s: Session, s': Session)
    requires SessionOf(p).Some?
    ensures SessionOf(WithSession(p, s)) == Some(s)
    ensures WithSession(WithSession(p, s), s') == WithSession(p, s')
    ensures InWait(WithSession(p, s)) <==> InWait(p)
  {
  }

  function Going(p: Proc, initial: Disk, t: CW.State): Board
    requires SessionOf(p).Some?
  {
    Board(t.disk, WithSession(p, Session(t.w, initial)))
  }

  lemma GoingStep(own: string, p: Proc, initial: Disk, t: CW.State, e: CW.Event)
    requires SessionOf(p).Some? && InWait(p) && CW.Enabled(t, e) && e != CW.Cancel
    ensures Enabled(Going(p, initial, t), Handshake(e))
    ensures Step(own, Going(p, initial, t), Handshake(e)) == Going(p, initial, CW.Step(own, t, e))
  {
    var s := Session(t.w, initial);
    WithSessionAgain(p, s, s.(w := CW.Step(own, t, e).w));
    assert CW.State(t.w, t.disk) == t;
  }

  /** A handshake goes on in every later stage of the process. */
  lemma {:induction false} GoingOn(own: string, p: Proc, initial: Disk, start: CW.State, evs: seq<CW.Event>, t: CW.State)
    requires SessionOf(p).Some? && InWait(p) && CW.Cancel !in evs && Run(CW.System(own), start, evs) == Some(t)
    ensures Run(System(own), Going(p, initial, start), Lifted(evs)) == Some(Going(p, initial, t))
  {
    if evs == [] {
      assert Lifted(evs) == [];
    } else {
      var n := |evs| - 1;
      var mid := Run(CW.System(own), start, evs[..n]).value;
      GoingOn(own, p, initial, start, evs[..n], mid);
      assert Lifted(evs) == Lifted(evs[..n]) + [Handshake(evs[n])];
      RunOneMore(System(own), Going(p, initial, start), Lifted(evs[..n]), Handshake(evs[n]));
      GoingStep(own, p, initial, mid, evs[n]);
    }
  }

  lemma LateHandling(own: string, initial: Disk, wait: seq<CW.Event>, t: CW.State, r: ClaimResponse)
    requires Run(CW.System(own), CW.Start(initial), wait) == Some(t) && t.w.cb.Idle? && Accepted(r, own)
    ensures Run(CW.System(own), t, CW.Handling(r)) == Some(CW.AfterClaim(t, r)) && CW.Cancel !in CW.Handling(r)
  {
    var evs', t' := CW.ClaimHandled(own, initial, wait, t, r);
    RunConcat(CW.System(own), CW.Start(initial), wait, CW.Handling(r));
  }

  /** An accepted claim can still come in after Wait has returned, even in active mode: it then
      replaces state.json, and the running process takes no notice of it. */
  lemma LateClaimOverwrites(own: string, temp: Option<Content>, evs: seq<Event>, b: Board, r: ClaimResponse)
    returns (more: seq<Event>, b': Board)
    requires Run(System(own), Factory(temp), evs) == Some(b) && SessionOf(b.proc).Some? && InWait(b.proc)
    requires SessionOf(b.proc).value.w.cb.Idle? && Accepted(r, own)
    ensures NoStop(more) && Run(System(own), b, more) == Some(b')
    ensures b'.disk == Disk(Some(Complete(ToActiveState(r))), None)
    ensures b.proc.Active? ==> b'.proc.Active? && b'.proc.cfg == b.proc.cfg && b'.proc.creds == b.proc.creds
    ensures b.proc.Claimed? ==> b'.proc.Claimed? && b'.proc.st == b.proc.st
  {
    SessionIsARun(own, temp, evs, b);
    var s := SessionOf(b.proc).value;
    var t := CW.State(s.w, b.disk);
    LateHandling(own, s.initial, HandshakeOf(evs), t, r);
    more, b' := Lifted(CW.Handling(r)), Going(b.proc, s.initial, CW.AfterClaim(t, r));
    GoingOn(own, b.proc, s.initial, t, CW.Handling(r), CW.AfterClaim(t, r));
    SameSession(b.proc, s);
  }

  lemma SameSession(p: Proc, s: Session)
    requires SessionOf(p) == Some(s)
    ensures WithSession(p, s) == p
  {
  }

  /** One step of RunUnclaimed around Wait. */
  lemma OneAround(own: string, a: Board, evs: seq<Event>, disk: Disk, s: Session, td: T.State, step: T.Event)
    returns (evs': seq<Event>, td': T.State)
    requires Run(System(own), a, evs) == Some(Board(disk, Unclaimed(s, td))) && AroundEnabled(Unclaimed(s, td), step)
    ensures td' == T.Step(td, step) && evs' == evs + [Around(step)]
    ensures Run(System(own), a, evs') == Some(Board(disk, Unclaimed(s, td')))
  {
    td' := T.Step(td, step);
    var b';
    evs', b' := OneMore(System(own), a, evs, Board(disk, Unclaimed(s, td)), Around(step));
  }

  lemma FactoryUndecided(own: string, temp: Option<Content>, flags: Flags, yaml: ConfigData)
    ensures BeforeDecision(Factory(temp), flags, yaml).proc.StateLoaded?
    ensures var disk := Disk(None, temp);
            AfterDecide(BeforeDecision(Factory(temp), flags, yaml)) == InHandshake(CW.Start(disk), disk, T.START)
  {
  }

  /** A fresh board up to the wait for a claim, with or without an advertiser. */
  lemma FreshWait(own: string, temp: Option<Content>, flags: Flags, yaml: ConfigData, ok: bool)
    returns (evs: seq<Event>, td: T.State)
    ensures var disk := Disk(None, temp);
            Run(System(own), Factory(temp), evs) == Some(InHandshake(CW.Start(disk), disk, td))
    ensures T.Inv(td) && td.main.WaitingForClaim? && !td.parentDone
    ensures (td.mdns.NotRunning? <==> !ok) && Advertiser(evs) == Some(ok)
  {
    FactoryUndecided(own, temp, flags, yaml);
    BootRuns(own, Factory(temp), flags, yaml);
    evs := BootEvents(flags, yaml);
    var a, disk := Factory(temp), Disk(None, temp);
    var s := Session(CW.Start(disk).w, disk);
    evs, td := OneAround(own, a, evs, disk, s, T.START, T.Dial);
    evs, td := OneAround(own, a, evs, disk, s, td, T.MakeContext);
    AdvertiserNext(evs, Around(T.StartMdns(ok)));
    evs, td := OneAround(own, a, evs, disk, s, td, T.StartMdns(ok));
  }

  lemma {:induction false} AdvertiserThroughHandshake(evs: seq<Event>, wait: seq<CW.Event>)
    ensures Advertiser(evs + Lifted(wait)) == Advertiser(evs)
  {
    if wait == [] {
      assert evs + Lifted(wait) == evs;
    } else {
      var n := |wait| - 1;
      AdvertiserThroughHandshake(evs, wait[..n]);
      assert evs + Lifted(wait) == (evs + Lifted(wait[..n])) + [Handshake(wait[n])];
      AdvertiserNext(evs + Lifted(wait[..n]), Handshake(wait[n]));
    }
  }

  /** Any handshake of a fresh board, with or without an advertiser. */
  lemma FreshHandshake(own: string, temp: Option<Content>, flags: Flags, yaml: ConfigData, ok: bool,
                       wait: seq<CW.Event>, s: CW.State) returns (evs: seq<Event>, td: T.State)
    requires Run(CW.System(own), CW.Start(Disk(None, temp)), wait) == Some(s) && CW.Cancel !in wait
    ensures Run(System(own), Factory(temp), evs) == Some(InHandshake(s, Disk(None, temp), td))
    ensures T.Inv(td) && td.main.WaitingForClaim? && !td.parentDone
    ensures (td.mdns.NotRunning? <==> !ok) && Advertiser(evs) == Some(ok)
  {
    evs, td := FreshWait(own, temp, flags, yaml, ok);
    HandshakeRun(own, Disk(None, temp), td, wait, s);
    RunConcat(System(own), Factory(temp), evs, Lifted(wait));
    AdvertiserThroughHandshake(evs, wait);
    evs := evs + Lifted(wait);
  }

  function AfterReturn(b: Board): Board
    requires b.proc.Unclaimed? && b.proc.session.w.waiter.Returned?
  {
    b.(proc := Claimed(b.proc.session, b.proc.session.w.waiter.st))
  }

  function LiftedAround(steps: seq<T.Event>): seq<Event> {
    seq(|steps|, i requires 0 <= i < |steps| => Around(steps[i]))
  }

  predicate IsUnwinding(step: T.Event) {
    step.RunDeferred? || step.Return?
  }

  /** Every run of the deferred calls is a run of the board. */
  lemma {:induction false} DeferredRun(own: string, disk: Disk, s: Session, td: T.State, steps: seq<T.Event>, td': T.State)
    requires Run(T.SYSTEM, td, steps) == Some(td') && forall i :: 0 <= i < |steps| ==> IsUnwinding(steps[i])
    ensures Run(System(own), Board(disk, Unclaimed(s, td)), LiftedAround(steps)) == Some(Board(disk, Unclaimed(s, td')))
  {
    if steps == [] {
      assert LiftedAround(steps) == [];
    } else {
      var n := |steps| - 1;
      var mid := Run(T.SYSTEM, td, steps[..n]).value;
      DeferredRun(own, disk, s, td, steps[..n], mid);
      assert LiftedAround(steps) == LiftedAround(steps[..n]) + [Around(steps[n])];
      var evs, last := OneAround(own, Board(disk, Unclaimed(s, td)), LiftedAround(steps[..n]), disk, s, mid, steps[n]);
    }
  }

  lemma DeferredAfter(own: string, b: Board, first: seq<Event>, disk: Disk, s: Session, td: T.State,
                      steps: seq<T.Event>, td': T.State) returns (more: seq<Event>)
    requires NoStop(first) && Run(System(own), b, first) == Some(Board(disk, Unclaimed(s, td)))
    requires Run(T.SYSTEM, td, steps) == Some(td') && forall i :: 0 <= i < |steps| ==> IsUnwinding(steps[i])
    ensures NoStop(more) && Run(System(own), b, more) == Some(Board(disk, Unclaimed(s, td')))
  {
    DeferredRun(own, disk, s, td, steps, td');
    RunConcat(System(own), b, first, LiftedAround(steps));
    more := first + LiftedAround(steps);
  }

  /** Wait has ended: with a claim, or with an error. */
  predicate WaitOver(p: Proc, claimed: bool) {
    p.Unclaimed? && p.td.main.WaitingForClaim? &&
    if claimed then p.session.w.waiter.Returned? else p.session.w.waiter.Failed?
  }

  lemma WaitEnding(own: string, disk: Disk, s: Session, td: T.State, claimed: bool) returns (first: seq<Event>)
    requires WaitOver(Unclaimed(s, td), claimed)
    ensures NoStop(first)
    ensures Run(System(own), Board(disk, Unclaimed(s, td)), first)
         == Some(Board(disk, Unclaimed(s, T.Step(td, T.WaitEnds(claimed)))))
  {
    var after;
    first, after := OneAround(own, Board(disk, Unclaimed(s, td)), [], disk, s, td, T.WaitEnds(claimed));
  }

  /** Without an advertiser the deferred calls run through. */
  lemma Unwinds(own: string, disk: Disk, s: Session, td: T.State, claimed: bool) returns (more: seq<Event>, td': T.State)
    requires WaitOver(Unclaimed(s, td), claimed) && T.Inv(td) && td.mdns.NotRunning?
    ensures NoStop(more) && Run(System(own), Board(disk, Unclaimed(s, td)), more) == Some(Board(disk, Unclaimed(s, td')))
    ensures td'.main == T.Returned(claimed)
  {
    var steps;
    steps, td' := T.Unwound(td, claimed);
    var first := WaitEnding(own, disk, s, td, claimed);
    more := DeferredAfter(own, Board(disk, Unclaimed(s, td)), first, disk, s, T.Step(td, T.WaitEnds(claimed)), steps, td');
  }

  /** From a finished handshake without an advertiser to the active flow. */
  lemma FinishHandOver(own: string, b: Board, yaml: ConfigData) returns (more: seq<Event>)
    requires b.proc.Unclaimed? && b.proc.session.w.waiter.Returned?
    requires T.Inv(b.proc.td) && b.proc.td.main.WaitingForClaim? && b.proc.td.mdns.NotRunning?
    ensures NoStop(more) && Run(System(own), b, more) == Some(AfterHandOver(AfterReturn(b), Some(yaml)))
  {
    var td;
    assert b == Board(b.disk, Unclaimed(b.proc.session, b.proc.td));
    more, td := Unwinds(own, b.disk, b.proc.session, b.proc.td, true);
    var b';
    more, b' := OneMore(System(own), b, more, Board(b.disk, Unclaimed(b.proc.session, td)), UnclaimedReturns);
    more, b' := OneMore(System(own), b, more, b', HandOver(Some(yaml)));
  }

  ghost predicate CanHandOver(own: string, b: Board) {
    exists more :: NoStop(more) && Run(System(own), b, more).Some? && Run(System(own), b, more).value.proc.Active?
  }

  lemma HandOverFollows(own: string, temp: Option<Content>, evs: seq<Event>, b: Board, yaml: ConfigData)
    requires Run(System(own), Factory(temp), evs) == Some(b) && Advertiser(evs) == Some(false)
    requires b.proc.Unclaimed? && b.proc.td.main.WaitingForClaim? && b.proc.session.w.waiter.Returned?
    ensures CanHandOver(own, b)
  {
    RunAroundOk(own, temp, evs, b);
    var more := FinishHandOver(own, b, yaml);
    RunKeepsInv(own, temp, evs, b);
    ReturnedLoads(own, b, yaml);
  }

  lemma ReturnedLoads(own: string, b: Board, yaml: ConfigData)
    requires Inv(own, b) && b.proc.Unclaimed? && b.proc.session.w.waiter.Returned?
    ensures AfterHandOver(AfterReturn(b), Some(yaml)).proc.Active?
  {
    SessionFile(own, b.proc.session, b.disk);
    assert CW.ChannelInv(b.proc.session.w);
    LoadedResolves(own, b.disk, yaml);
  }

  /** Once Wait has returned a claim, the process can go on to the active flow exactly when the
      advertiser had failed to start. */
  lemma HandOverPossibleIff(own: string, temp: Option<Content>, evs: seq<Event>, b: Board, yaml: ConfigData)
    requires Run(System(own), Factory(temp), evs) == Some(b)
    requires b.proc.Unclaimed? && b.proc.td.main.WaitingForClaim? && b.proc.session.w.waiter.Returned?
    ensures CanHandOver(own, b) <==> Advertiser(evs) == Some(false)
  {
    RunAroundOk(own, temp, evs, b);
    if Advertiser(evs) == Some(false) {
      HandOverFollows(own, temp, evs, b, yaml);
    } else if CanHandOver(own, b) {
      var more :| NoStop(more) && Run(System(own), b, more).Some? && Run(System(own), b, more).value.proc.Active?;
      assert Advertiser(evs).Some? && Advertiser(evs).value;
      AdvertisingBoardStaysUnclaimed(own, temp, evs, b, more);
      assert false;
    }
  }

  // ----- A wait that failed ------------------------------------------------------------------------------

  lemma {:induction false} FailedStays(own: string, b: Board, more: seq<Event>)
    requires b.proc.Unclaimed? && b.proc.session.w.waiter.Failed?
    requires NoStop(more) && Run(System(own), b, more).Some?
    ensures var p := Run(System(own), b, more).value.proc; p.Unclaimed? && p.session.w.waiter.Failed?
  {
    if more == [] {
    } else {
      var n := |more| - 1;
      FailedStays(own, b, more[..n]);
      FailedStep(own, Run(System(own), b, more[..n]).value, more[n]);
    }
  }

  lemma FailedStep(own: string, b: Board, e: Event)
    requires Enabled(b, e) && !e.Stop? && b.proc.Unclaimed? && b.proc.session.w.waiter.Failed?
    ensures var p := Step(own, b, e).proc; p.Unclaimed? && p.session.w.waiter.Failed?
  {
  }

  /** RunUnclaimed returns the error, whereupon main ends the process. */
  ghost predicate CanReturnError(own: string, b: Board) {
    exists more :: NoStop(more) && Run(System(own), b, more).Some?
                && var p := Run(System(own), b, more).value.proc; p.Unclaimed? && p.td.main == T.Returned(false)
  }

  /** After a failed wait there is no hand-over. The process ends by itself exactly when the
      advertiser had failed to start, and hangs otherwise. */
  lemma FailedWaitEndsIff(own: string, temp: Option<Content>, evs: seq<Event>, b: Board)
    requires Run(System(own), Factory(temp), evs) == Some(b) && WaitOver(b.proc, false)
    ensures !CanHandOver(own, b)
    ensures CanReturnError(own, b) <==> Advertiser(evs) == Some(false)
  {
    RunAroundOk(own, temp, evs, b);
    if CanHandOver(own, b) {
      var more :| NoStop(more) && Run(System(own), b, more).Some? && Run(System(own), b, more).value.proc.Active?;
      FailedStays(own, b, more);
      assert false;
    }
    if Advertiser(evs) == Some(false) {
      assert b == Board(b.disk, Unclaimed(b.proc.session, b.proc.td));
      var more, td := Unwinds(own, b.disk, b.proc.session, b.proc.td, false);
    } else if CanReturnError(own, b) {
      var more :| NoStop(more) && Run(System(own), b, more).Some?
               && var p := Run(System(own), b, more).value.proc; p.Unclaimed? && p.td.main == T.Returned(false);
      assert Advertiser(evs).Some? && Advertiser(evs).value;
      AdvertisingRun(own, b, more);
      assert false;
    }
  }

  /** A malformed message and then an accepted claim, on a fresh board: Wait fails with the claim
      on disk. The board never gets to work in this boot, but the next plain one is active
      under the claim. */
  lemma ClaimLostUntilRestart(own: string, temp: Option<Content>, flags: Flags, yaml: ConfigData, ok: bool, r: ClaimResponse)
    returns (evs: seq<Event>, b: Board)
    requires Accepted(r, own)
    ensures Run(System(own), Factory(temp), evs) == Some(b) && Advertiser(evs) == Some(ok)
    ensures WaitOver(b.proc, false) && !CanHandOver(own, b)
    ensures var after := Run(System(own), Step(own, b, Stop), BootEvents(PLAIN, yaml));
            after.Some? && after.value.proc.Active? && after.value.proc.cfg == Resolved(yaml, ToActiveState(r))
  {
    var wait, s := CW.ClaimLostToError(own, Disk(None, temp), r);
    var td;
    evs, td := FreshHandshake(own, temp, flags, yaml, ok, wait, s);
    b := InHandshake(s, Disk(None, temp), td);
    FailedWaitEndsIff(own, temp, evs, b);
    RunOneMore(System(own), Factory(temp), evs, Stop);
    BootDecision(own, temp, evs + [Stop], Step(own, b, Stop), PLAIN, yaml);
  }

  // ----- A mixed hand-over, and a board that hangs ---------------------------------------------------------

  lemma MixedHandOver(own: string, b: Board, yaml: ConfigData, r: ClaimResponse, r': ClaimResponse)
    requires Accepted(r', own) && b.proc.Claimed? && b.proc.st == ToActiveState(r)
    requires b.disk.file == Some(Complete(ToActiveState(r')))
    ensures var next := AfterHandOver(b, Some(yaml)).proc;
            next.Active? && next.cfg == Resolved(yaml, ToActiveState(r')) && next.creds == ToActiveState(r)
  {
    assert CW.FromClaim(own, ToActiveState(r'));
    LoadedResolves(own, b.disk, yaml);
  }

  /** Two accepted claims with different contents, and an advertiser that failed to start, are
      enough: a fresh board can enter the active flow under the second while it is handed the
      broker credentials of the first. */
  lemma HandOverCanMixClaims(own: string, temp: Option<Content>, flags: Flags, yaml: ConfigData,
                             r: ClaimResponse, r': ClaimResponse)
    returns (evs: seq<Event>, b: Board)
    requires Accepted(r, own) && Accepted(r', own) && ToActiveState(r) != ToActiveState(r')
    ensures Run(System(own), Factory(temp), evs) == Some(b) && b.proc.Active?
    ensures b.proc.cfg == Resolved(yaml, ToActiveState(r')) && b.proc.creds == ToActiveState(r)
  {
    var wait, s := CW.SecondClaimOverwrites(own, Disk(None, temp), r, r');
    var td;
    evs, td := FreshHandshake(own, temp, flags, yaml, false, wait, s);
    var unclaimed := InHandshake(s, Disk(None, temp), td);
    var more := FinishHandOver(own, unclaimed, yaml);
    RunConcat(System(own), Factory(temp), evs, more);
    evs := evs + more;
    b := AfterHandOver(AfterReturn(unclaimed), Some(yaml));
    MixedHandOver(own, AfterReturn(unclaimed), yaml, r, r');
  }

  /** The same board with a running advertiser: Wait has returned the first claim, the second is
      on disk, and no hand-over follows. */
  lemma AdvertisingBoardHangs(own: string, temp: Option<Content>, flags: Flags, yaml: ConfigData,
                              r: ClaimResponse, r': ClaimResponse)
    returns (evs: seq<Event>, b: Board)
    requires Accepted(r, own) && Accepted(r', own) && ToActiveState(r) != ToActiveState(r')
    ensures Run(System(own), Factory(temp), evs) == Some(b)
    ensures b.proc.Unclaimed? && b.proc.session.w.waiter == CW.Returned(ToActiveState(r))
    ensures b.disk.file == Some(Complete(ToActiveState(r')))
    ensures forall more :: NoStop(more) && Run(System(own), b, more).Some? ==>
              Run(System(own), b, more).value.proc.Unclaimed?
  {
    var wait, s := CW.SecondClaimOverwrites(own, Disk(None, temp), r, r');
    var td;
    evs, td := FreshHandshake(own, temp, flags, yaml, true, wait, s);
    b := InHandshake(s, Disk(None, temp), td);
    forall more | NoStop(more) && Run(System(own), b, more).Some?
      ensures Run(System(own), b, more).value.proc.Unclaimed?
    {
      AdvertisingBoardStaysUnclaimed(own, temp, evs, b, more);
    }
  }

  /** Such a run exists, and in it the username comes from one claim and the password from the
      other. */
  lemma CredentialsCanMix(temp: Option<Content>, flags: Flags, yaml: ConfigData)
    returns (own: string, evs: seq<Event>, b: Board)
    ensures Run(System(own), Factory(temp), evs) == Some(b) && b.proc.Active?
    ensures ConnectionOf(b.proc.cfg, b.proc.creds) == Connection(yaml.mqtt.broker, "first", "second's password")
    ensures b.proc.cfg.server.controllerId == "second"
  {
    var r, r';
    own, r := ClaimExists("first", "http://a:4000", "first", "");
    own, r' := ClaimExists("second", "http://b:4000", "second", "second's password");
    evs, b := HandOverCanMixClaims(own, temp, flags, yaml, r, r');
    ConnectionFrom(yaml, r, r');
  }
}
