/** What the command handlers and the worker share: the device map, the command channel and
    the pin levels, as values and as the controller object that holds them. */
module Hub {
  import opened Prelude
  import opened Text
  import opened Gpio

  const CHANNEL_SIZE := 64

  datatype Job = Job(deviceId: string, action: string, pin: int, timestamp: int)

  /** The body of a command message. */
  datatype Command = Command(action: string, pin: int, timestamp: int)

  function JobOf(id: string, c: Command): Job {
    Job(id, c.action, c.pin, c.timestamp)
  }

  datatype Publication = Publication(deviceId: string, action: string, timestamp: int)

  datatype Outcome = DeviceGone | UnknownAction | ExecFailed(err: PinError) | Executed

  datatype Device = Device(id: string, pinCache: map<int, Line>)

  datatype Shared = Shared(devices: map<string, Device>, queue: seq<Job>, levels: Levels)

  // ----- Topics and actions ---------------------------------------------------------------

  function Split(s: string, sep: char): (parts: seq<string>)
    ensures parts != []
  {
    if s == "" then [""]
    else
      var rest := Split(s[1..], sep);
      if s[0] == sep then [""] + rest else [[s[0]] + rest[0]] + rest[1..]
  }

  /** The device named by a command topic; topics with fewer than three levels name none. */
  function TopicDevice(topic: string): Option<string> {
    var parts := Split(topic, '/');
    if |parts| < 3 then None else Some(parts[1])
  }

  function Upper(s: string): string {
    seq(|s|, i requires 0 <= i < |s| => if 'a' <= s[i] <= 'z' then s[i] - 'a' + 'A' else s[i])
  }

  /** The level an action asks for. */
  function ActionLevel(action: string): Option<bool> {
    if Upper(action) == "ON" then Some(HIGH)
    else if Upper(action) == "OFF" then Some(LOW)
    else None
  }

  predicate IsOn(action: string) {
    |action| == 2 && action[0] in {'o', 'O'} && action[1] in {'n', 'N'}
  }

  predicate IsOff(action: string) {
    |action| == 3 && action[0] in {'o', 'O'} && action[1] in {'f', 'F'} && action[2] in {'f', 'F'}
  }

  /** ON asks for high and OFF for low, in any mixture of cases, and nothing else asks for
      anything. */
  lemma ActionLevelIff(action: string)
    ensures ActionLevel(action) == Some(true) <==> IsOn(action)
    ensures ActionLevel(action) == Some(false) <==> IsOff(action)
  {
    var u := Upper(action);
    assert u == "ON" <==> |u| == 2 && u[0] == 'O' && u[1] == 'N';
    assert u == "OFF" <==> |u| == 3 && u[0] == 'O' && u[1] == 'F' && u[2] == 'F';
  }

  lemma {:induction false} SplitJoined(a: string, rest: string, sep: char)
    requires sep !in a
    ensures Split(a + [sep] + rest, sep) == [a] + Split(rest, sep)
  {
    var s := a + [sep] + rest;
    if a == "" {
      assert s[1..] == rest;
    } else {
      assert s[1..] == a[1..] + [sep] + rest;
      SplitJoined(a[1..], rest, sep);
      assert s[0] == a[0] && [a[0]] + a[1..] == a;
    }
  }

  lemma {:induction false} SplitWhole(s: string, sep: char)
    requires sep !in s
    ensures Split(s, sep) == [s]
  {
    if s == "" {
    } else {
      SplitWhole(s[1..], sep);
      assert [s[0]] + s[1..] == s;
    }
  }

  lemma {:induction false} FirstSep(s: string, sep: char) returns (a: string, rest: string)
    requires sep in s
    ensures s == a + [sep] + rest && sep !in a
  {
    if s[0] == sep {
      a, rest := "", s[1..];
    } else {
      a, rest := FirstSep(s[1..], sep);
      a := [s[0]] + a;
    }
  }

  /** The topic is a first level, the id and more levels behind it. */
  ghost predicate SecondLevel(topic: string, id: string) {
    '/' !in id && exists a: string, rest: string :: '/' !in a && topic == a + "/" + id + "/" + rest
  }

  lemma LevelsSplit(a: string, id: string, rest: string)
    requires '/' !in a && '/' !in id
    ensures TopicDevice(a + "/" + id + "/" + rest) == Some(id)
  {
    var tail := id + "/" + rest;
    assert a + "/" + id + "/" + rest == a + ['/'] + tail;
    SplitJoined(a, tail, '/');
    SplitJoined(id, rest, '/');
    assert |Split(rest, '/')| >= 1;
  }

  lemma DeviceIsSecondLevel(topic: string, id: string)
    requires TopicDevice(topic) == Some(id)
    ensures SecondLevel(topic, id)
  {
    if '/' !in topic {
      SplitWhole(topic, '/');
      assert false;
    } else {
      var a, tail := FirstSep(topic, '/');
      SplitJoined(a, tail, '/');
      if '/' !in tail {
        SplitWhole(tail, '/');
        assert false;
      } else {
        var b, rest := FirstSep(tail, '/');
        SplitJoined(b, rest, '/');
        assert topic == a + "/" + b + "/" + rest;
        assert '/' !in b;
      }
    }
  }

  /** The device is the second level of a topic that has at least three. */
  lemma TopicDeviceIff(topic: string, id: string)
    ensures TopicDevice(topic) == Some(id) <==> SecondLevel(topic, id)
  {
    if TopicDevice(topic) == Some(id) {
      DeviceIsSecondLevel(topic, id);
    } else if SecondLevel(topic, id) {
      var a: string, rest: string :| '/' !in a && topic == a + "/" + id + "/" + rest;
      LevelsSplit(a, id, rest);
      assert false;
    }
  }

  /** The topic the server uses for a device names that device. */
  lemma CommandTopicNamesDevice(id: string)
    requires '/' !in id
    ensures TopicDevice("devices/" + id + "/commands") == Some(id)
  {
    NoSlash("devices");
    LevelsSplit("devices", id, "commands");
    assert "devices" + "/" + id + "/" + "commands" == "devices/" + id + "/commands";
  }

  lemma NoSlash(s: string)
    requires s == "devices"
    ensures '/' !in s
  {
  }

  // ----- The shared state, one function per critical section -----------------------------------

  /** An existing device is kept, never replaced. */
  function WithDevice(h: Shared, id: string): Shared {
    if id in h.devices then h else h.(devices := h.devices[id := Device(id, map[])])
  }

  /** A send that never blocks: a full channel drops the job. */
  function Accepts(h: Shared): bool {
    |h.queue| < CHANNEL_SIZE
  }

  function Offered(h: Shared, job: Job): Shared {
    if Accepts(h) then h.(queue := h.queue + [job]) else h
  }

  function Taken(h: Shared): Shared
    requires h.queue != []
  {
    h.(queue := h.queue[1..])
  }

  /** What executing a job comes to. */
  function OutcomeOf(reg: Registry, h: Shared, job: Job, driven: bool): Outcome {
    if job.deviceId !in h.devices then DeviceGone
    else if ActionLevel(job.action).None? then UnknownAction
    else match DriveError(reg, job.pin, driven)
      case Some(err) => ExecFailed(err)
      case None => Executed
  }

  function DeviceSet(reg: Registry, h: Shared, id: string, pin: int, level: bool, driven: bool): Shared
    requires id in h.devices
  {
    var d := h.devices[id];
    h.(devices := h.devices[id := d.(pinCache := Cached(reg, d.pinCache, pin))],
       levels := Driven(reg, h.levels, pin, level, driven))
  }

  function AfterExecution(reg: Registry, h: Shared, job: Job, driven: bool): Shared {
    if job.deviceId !in h.devices || ActionLevel(job.action).None? then h
    else DeviceSet(reg, h, job.deviceId, job.pin, ActionLevel(job.action).value, driven)
  }

  /** How a job ends: the device must be known, the action be ON or OFF, a registered name
      spell the pin number, and the hardware accept the level. */
  ghost predicate EndsWith(reg: Registry, job: Job, known: bool, driven: bool, outcome: Outcome) {
    var action := IsOn(job.action) || IsOff(job.action);
    var named := exists name :: name in reg && Names(name, job.pin);
    match outcome
    case DeviceGone => !known
    case UnknownAction => known && !action
    case ExecFailed(PinNotFound) => known && action && !named
    case ExecFailed(PinNotDriven) => known && action && named && !driven
    case Executed => known && action && named && driven
  }

  lemma OutcomeEnds(reg: Registry, h: Shared, job: Job, driven: bool)
    ensures EndsWith(reg, job, job.deviceId in h.devices, driven, OutcomeOf(reg, h, job, driven))
  {
    ActionLevelIff(job.action);
    LineOfIff(reg, job.pin);
  }

  lemma LevelsAfterExecution(reg: Registry, h: Shared, job: Job, driven: bool)
    ensures var h' := AfterExecution(reg, h, job, driven);
            && (OutcomeOf(reg, h, job, driven) != Executed ==> h'.levels == h.levels)
            && (OutcomeOf(reg, h, job, driven) == Executed ==>
                  exists line: Line :: OnLine(reg, job.pin, line) && h'.levels == h.levels[line := IsOn(job.action)])
  {
    ActionLevelIff(job.action);
    LineOfIff(reg, job.pin);
    if OutcomeOf(reg, h, job, driven) == Executed {
      assert OnLine(reg, job.pin, LineOf(reg, job.pin).value);
    }
  }

  class Controller {
    const hardware: Hardware
    var deviceMap: map<string, RPIDevice>
    var cmdCh: seq<Job>

    ghost predicate Valid()
      reads this, deviceMap.Values
    {
      && (forall k :: k in deviceMap ==>
            deviceMap[k].hardware == hardware && deviceMap[k].id == k && deviceMap[k].Valid())
      && (forall k, k' :: k in deviceMap && k' in deviceMap && k != k' ==> deviceMap[k] != deviceMap[k'])
    }

    ghost function View(): Shared
      reads this, hardware, deviceMap.Values
    {
      Shared(map k | k in deviceMap :: Device(deviceMap[k].id, deviceMap[k].pinCache), cmdCh, hardware.levels)
    }

    constructor (hardware: Hardware)
      ensures Valid() && this.hardware == hardware
      ensures View() == Shared(map[], [], hardware.levels)
    {
      this.hardware := hardware;
      deviceMap := map[];
      cmdCh := [];
    }

    /** First critical section of a handler. */
    method EnsureDevice(id: string)
      requires Valid()
      modifies this`deviceMap
      ensures Valid() && View() == WithDevice(old(View()), id)
      ensures forall k :: k in old(deviceMap) ==> k in deviceMap && deviceMap[k] == old(deviceMap[k])
      ensures deviceMap.Keys == old(deviceMap.Keys) + {id}
      ensures id !in old(deviceMap) ==> deviceMap[id].id == id && deviceMap[id].pinCache == map[]
    {
      if id !in deviceMap {
        var d := new RPIDevice(id, hardware);
        deviceMap := deviceMap[id := d];
        assert View().devices == old(View()).devices[id := Device(id, map[])];
      }
    }

    /** The handler's non-blocking send. */
    method Send(job: Job) returns (accepted: bool)
      requires Valid()
      modifies this`cmdCh
      ensures Valid() && View() == Offered(old(View()), job)
      ensures accepted == (|old(cmdCh)| < 64)
      ensures cmdCh == if accepted then old(cmdCh) + [job] else old(cmdCh)
    {
      if |cmdCh| < CHANNEL_SIZE {
        cmdCh := cmdCh + [job];
        return true;
      }
      return false;
    }

    /** A whole handler, when nothing runs between its two critical sections. The device is
        created even if the body then does not parse. */
    method DeviceCommandHandler(topic: string, command: Option<Command>) returns (accepted: bool)
      requires Valid()
      modifies this`deviceMap, this`cmdCh
      ensures Valid()
      ensures TopicDevice(topic).None? ==> View() == old(View()) && !accepted
      ensures TopicDevice(topic).Some? ==>
                var h := WithDevice(old(View()), TopicDevice(topic).value);
                match command
                case None => View() == h && !accepted
                case Some(c) =>
                  && View() == Offered(h, Job(TopicDevice(topic).value, c.action, c.pin, c.timestamp))
                  && accepted == (|h.queue| < 64)
    {
      var id := TopicDevice(topic);
      if id.None? {
        return false;
      }
      EnsureDevice(id.value);
      if command.None? {
        return false;
      }
      accepted := Send(JobOf(id.value, command.value));
    }

    method Receive() returns (job: Job)
      requires Valid() && cmdCh != []
      modifies this`cmdCh
      ensures Valid() && View() == Taken(old(View()))
      ensures job == old(cmdCh)[0]
    {
      job := cmdCh[0];
      cmdCh := cmdCh[1..];
    }

    /** On or Off of one device; the other devices keep their caches. */
    method SwitchPin(id: string, pin: int, level: bool, driven: bool) returns (err: Option<PinError>)
      requires Valid() && id in deviceMap
      modifies deviceMap.Values, hardware
      ensures Valid()
      ensures View() == DeviceSet(hardware.registry, old(View()), id, pin, level, driven)
      ensures err == DriveError(hardware.registry, pin, driven)
    {
      var dev := deviceMap[id];
      ghost var before := View().devices;
      err := dev.SetPin(pin, level, driven);
      assert View().devices == before[id := Device(dev.id, dev.pinCache)];
    }

    /** Runs a job and returns the state publication it attempts, if any. */
    method ExecuteCommand(job: Job, driven: bool) returns (outcome: Outcome, publish: Option<Publication>)
      requires Valid()
      modifies deviceMap.Values, hardware
      ensures Valid() && View() == AfterExecution(hardware.registry, old(View()), job, driven)
      ensures outcome == OutcomeOf(hardware.registry, old(View()), job, driven)
      ensures EndsWith(hardware.registry, job, job.deviceId in old(deviceMap), driven, outcome)
      ensures outcome != Executed ==> hardware.levels == old(hardware.levels)
      ensures outcome == Executed ==>
                exists line: Line :: OnLine(hardware.registry, job.pin, line)
                            && hardware.levels == old(hardware.levels)[line := IsOn(job.action)]
      ensures publish == if outcome == Executed then Some(Publication(job.deviceId, job.action, job.timestamp)) else None
    {
      OutcomeEnds(hardware.registry, View(), job, driven);
      LevelsAfterExecution(hardware.registry, View(), job, driven);
      if job.deviceId !in deviceMap {
        return DeviceGone, None;
      }
      var level := ActionLevel(job.action);
      if level.None? {
        return UnknownAction, None;
      }
      var err := SwitchPin(job.deviceId, job.pin, level.value, driven);
      if err.Some? {
        return ExecFailed(err.value), None;
      }
      return Executed, Some(Publication(job.deviceId, job.action, job.timestamp));
    }
  }
}
