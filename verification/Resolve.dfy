/** The active-mode configuration: server-issued identities laid over the local hardware
    list, matched through formatted string keys. */
module Resolve {
  import opened Prelude
  import opened Text
  import opened GoDuration
  import opened ClientConfig
  import opened ProvisionTypes
  import opened Merge

  const BUS_PREFIX := "/dev/i2c-"
  const DEFAULT_INTERVAL := 30

  // ----- Matching keys --------------------------------------------------------------

  function I2cKey(typ: string, bus: int, addr: int): string {
    "i2c|" + typ + "|" + Itoa(bus) + "|" + Itoa(addr)
  }

  function PinKey(typ: string, pin: int): string {
    "pin|" + typ + "|" + Itoa(pin)
  }

  function SensorStateKey(s: Sensor): string {
    if s.i2cBus.Some? && s.i2cAddr.Some? then I2cKey(s.typ, s.i2cBus.value, s.i2cAddr.value)
    else if s.pin.Some? then PinKey(s.typ, s.pin.value)
    else ""
  }

  function YamlSensorKey(y: SensorConfig): string {
    match Atoi(TrimPrefix(y.i2cBus, BUS_PREFIX))
    case None => ""
    case Some(bus) => I2cKey(y.typ, bus, y.i2cAddress)
  }

  function DeviceKey(typ: string, pin: int): string {
    typ + "|" + Itoa(pin)
  }

  lemma I2cKeyInjective(t: string, b: int, a: int, t': string, b': int, a': int)
    ensures I2cKey(t, b, a) == I2cKey(t', b', a') <==> t == t' && b == b' && a == a'
  {
    if I2cKey(t, b, a) == I2cKey(t', b', a') {
      ItoaHasNoBar(a);
      ItoaHasNoBar(a');
      LastBarSplits("i2c|" + t + "|" + Itoa(b), Itoa(a), "i2c|" + t' + "|" + Itoa(b'), Itoa(a'));
      ItoaInjective(a, a');
      ItoaHasNoBar(b);
      ItoaHasNoBar(b');
      LastBarSplits("i2c|" + t, Itoa(b), "i2c|" + t', Itoa(b'));
      ItoaInjective(b, b');
      assert ("i2c|" + t)[4..] == t && ("i2c|" + t')[4..] == t';
    }
  }

  lemma PinKeyInjective(t: string, p: int, t': string, p': int)
    ensures PinKey(t, p) == PinKey(t', p') <==> t == t' && p == p'
  {
    if PinKey(t, p) == PinKey(t', p') {
      ItoaHasNoBar(p);
      ItoaHasNoBar(p');
      LastBarSplits("pin|" + t, Itoa(p), "pin|" + t', Itoa(p'));
      ItoaInjective(p, p');
      assert ("pin|" + t)[4..] == t && ("pin|" + t')[4..] == t';
    }
  }

  lemma DeviceKeyInjective(t: string, p: int, t': string, p': int)
    ensures DeviceKey(t, p) == DeviceKey(t', p') <==> t == t' && p == p'
  {
    if DeviceKey(t, p) == DeviceKey(t', p') {
      ItoaHasNoBar(p);
      ItoaHasNoBar(p');
      LastBarSplits(t, Itoa(p), t', Itoa(p'));
      ItoaInjective(p, p');
    }
  }

  lemma KeyKindsDiffer(t: string, b: int, a: int, t': string, p: int)
    ensures I2cKey(t, b, a) != PinKey(t', p) && I2cKey(t, b, a) != "" && PinKey(t', p) != ""
  {
    assert I2cKey(t, b, a)[0] == 'i' && PinKey(t', p)[0] == 'p';
  }

  /** How a server-issued sensor is wired, as far as matching is concerned. */
  datatype Wiring = I2cAt(typ: string, bus: int, addr: int) | PinAt(typ: string, pin: int) | Unwired

  function SensorWiring(s: Sensor): Wiring {
    if s.i2cBus.Some? && s.i2cAddr.Some? then I2cAt(s.typ, s.i2cBus.value, s.i2cAddr.value)
    else if s.pin.Some? then PinAt(s.typ, s.pin.value)
    else Unwired
  }

  /** Whatever characters the types contain, two server-issued sensors share a key exactly
      when they share type and wiring. */
  lemma SensorKeysMatchIff(s: Sensor, s': Sensor)
    ensures SensorStateKey(s) == SensorStateKey(s') <==> SensorWiring(s) == SensorWiring(s')
    ensures SensorStateKey(s) == "" <==> SensorWiring(s) == Unwired
  {
    var w, w' := SensorWiring(s), SensorWiring(s');
    if w.I2cAt? {
      KeyKindsDiffer(w.typ, w.bus, w.addr, if w'.PinAt? then w'.typ else "", if w'.PinAt? then w'.pin else 0);
      if w'.I2cAt? {
        I2cKeyInjective(w.typ, w.bus, w.addr, w'.typ, w'.bus, w'.addr);
      }
    } else if w.PinAt? {
      KeyKindsDiffer(if w'.I2cAt? then w'.typ else "", if w'.I2cAt? then w'.bus else 0,
                     if w'.I2cAt? then w'.addr else 0, w.typ, w.pin);
      if w'.PinAt? {
        PinKeyInjective(w.typ, w.pin, w'.typ, w'.pin);
      }
    } else if w'.I2cAt? {
      KeyKindsDiffer(w'.typ, w'.bus, w'.addr, "", 0);
    } else if w'.PinAt? {
      KeyKindsDiffer("", 0, 0, w'.typ, w'.pin);
    }
  }

  /** A local sensor matches a server-issued one exactly when the type and the address are
      equal and the bus path, after its prefix, reads as the bus number: "+1" and "01"
      match bus 1 as well. */
  lemma YamlMatchesStateIff(y: SensorConfig, s: Sensor)
    ensures YamlSensorKey(y) != "" && YamlSensorKey(y) == SensorStateKey(s) <==>
            && s.i2cBus.Some? && s.i2cAddr == Some(y.i2cAddress) && s.typ == y.typ
            && Atoi(TrimPrefix(y.i2cBus, "/dev/i2c-")) == s.i2cBus
  {
    var bus := Atoi(TrimPrefix(y.i2cBus, BUS_PREFIX));
    if bus.Some? {
      if s.i2cBus.Some? && s.i2cAddr.Some? {
        I2cKeyInjective(y.typ, bus.value, y.i2cAddress, s.typ, s.i2cBus.value, s.i2cAddr.value);
        KeyKindsDiffer(y.typ, bus.value, y.i2cAddress, "", 0);
      } else {
        KeyKindsDiffer(y.typ, bus.value, y.i2cAddress, s.typ, if s.pin.Some? then s.pin.value else 0);
      }
    }
  }

  // ----- Server entries as local entries ----------------------------------------------

  function IntervalSeconds(s: Sensor): nat {
    if s.interval.Some? && s.interval.value > 0 then s.interval.value else DEFAULT_INTERVAL
  }

  /** Go's conversion to uint16 keeps the low sixteen bits. */
  function LowWord(n: int): (w: Uint16)
    ensures w == n <==> 0 <= n < 0x1_0000
    ensures exists k :: n == w + k * 0x1_0000
  {
    assert n == n % 0x1_0000 + n / 0x1_0000 * 0x1_0000;
    n % 0x1_0000
  }

  /** The address is cut to 16 bits. */
  function ConvertSensor(s: Sensor): Option<SensorConfig> {
    if s.i2cBus.None? || s.i2cAddr.None? then None
    else Some(SensorConfig(s.id, s.typ, BUS_PREFIX + Itoa(s.i2cBus.value),
                           LowWord(s.i2cAddr.value), Itoa(IntervalSeconds(s)) + "s"))
  }

  function ConvertDevice(d: Relay): Option<DeviceConfig> {
    Some(DeviceConfig(d.id, d.typ, d.pin, d.name))
  }

  predicate AddressFits(s: Sensor) {
    s.i2cBus.Some? && s.i2cAddr.Some? ==> 0 <= s.i2cAddr.value < 0x1_0000
  }

  /** A synthesised device loses nothing: the server's entry can be read off it. */
  lemma ConvertedDevice(d: Relay)
    ensures ConvertDevice(d).Some?
    ensures var c := ConvertDevice(d).value; Relay(c.id, c.typ, c.pin, c.name) == d
  {
  }

  /** The synthesised entry has the server's identity and type and parses back to the wiring
      it came from, unless the address was cut. */
  lemma ConvertedKey(s: Sensor)
    requires ConvertSensor(s).Some?
    ensures ConvertSensor(s).value.id == s.id && ConvertSensor(s).value.typ == s.typ
    ensures YamlSensorKey(ConvertSensor(s).value) == SensorStateKey(s) <==> AddressFits(s)
  {
    var bus: int, addr: int := s.i2cBus.value, s.i2cAddr.value;
    AtoiItoa(bus);
    assert (BUS_PREFIX + Itoa(bus))[|BUS_PREFIX|..] == Itoa(bus);
    I2cKeyInjective(s.typ, bus, LowWord(addr), s.typ, bus, addr);
  }

  /** The synthesised interval parses back to the server's seconds, or to 30 when the
      server gave none or a non-positive one. */
  lemma ConvertedInterval(s: Sensor)
    requires ConvertSensor(s).Some?
    ensures ParseDuration(ConvertSensor(s).value.interval) ==
            if s.interval.None? || s.interval.value <= 0 then Some(30_000_000_000)
            else if s.interval.value * 1_000_000_000 <= 0x7FFF_FFFF_FFFF_FFFF then Some(s.interval.value * 1_000_000_000)
            else None
  {
    ParseSeconds(IntervalSeconds(s));
  }

  /** The local entry that a server-issued I2C sensor without a local counterpart becomes. */
  predicate AsOrdered(s: Sensor, y: SensorConfig) {
    && s.i2cBus.Some? && s.i2cAddr.Some?
    && y.id == s.id && y.typ == s.typ
    && Prints(y.i2cBus, "/dev/i2c-", s.i2cBus.value, "")
    && (s.i2cAddr.value - y.i2cAddress) % 0x1_0000 == 0
    && Prints(y.interval, "", if s.interval.Some? && s.interval.value > 0 then s.interval.value else 30, "s")
  }

  lemma ConvertedIff(s: Sensor, y: SensorConfig)
    ensures ConvertSensor(s) == Some(y) <==> AsOrdered(s, y)
  {
    if s.i2cBus.Some? && s.i2cAddr.Some? {
      ConvertedFieldsIff(s, y);
      BusPathIff(s.i2cBus.value, y.i2cBus);
      IntervalIff(s, y.interval);
      SameWordIff(s.i2cAddr.value, y.i2cAddress);
    }
  }

  lemma ConvertedFieldsIff(s: Sensor, y: SensorConfig)
    requires s.i2cBus.Some? && s.i2cAddr.Some?
    ensures ConvertSensor(s) == Some(y) <==>
            && y.id == s.id && y.typ == s.typ && y.i2cBus == BUS_PREFIX + Itoa(s.i2cBus.value)
            && y.i2cAddress == LowWord(s.i2cAddr.value) && y.interval == Itoa(IntervalSeconds(s)) + "s"
  {
  }

  lemma BusPathIff(bus: int, path: string)
    ensures Prints(path, "/dev/i2c-", bus, "") <==> path == BUS_PREFIX + Itoa(bus)
  {
    PrintsIff(path, "/dev/i2c-", bus, "");
    assert BUS_PREFIX + Itoa(bus) + "" == BUS_PREFIX + Itoa(bus);
  }

  lemma IntervalIff(s: Sensor, text: string)
    ensures Prints(text, "", if s.interval.Some? && s.interval.value > 0 then s.interval.value else 30, "s") <==>
            text == Itoa(IntervalSeconds(s)) + "s"
  {
    PrintsIff(text, "", IntervalSeconds(s), "s");
    assert "" + Itoa(IntervalSeconds(s)) == Itoa(IntervalSeconds(s));
  }

  lemma SameWordIff(n: int, w: Uint16)
    ensures (n - w) % 0x1_0000 == 0 <==> w == LowWord(n)
  {
  }

  // ----- The overlay --------------------------------------------------------------------

  const SENSOR_SCHEME: Scheme<Sensor, SensorConfig> :=
    Scheme(s => SensorStateKey(s), y => YamlSensorKey(y),
           (y: SensorConfig, s: Sensor) => y.(id := s.id), s => ConvertSensor(s))

  const DEVICE_SCHEME: Scheme<Relay, DeviceConfig> :=
    Scheme((d: Relay) => DeviceKey(d.typ, d.pin), (y: DeviceConfig) => DeviceKey(y.typ, y.pin),
           (y: DeviceConfig, d: Relay) => y.(id := d.id), d => ConvertDevice(d))

  /** Server-issued sensors that take part: they have an identity and a wiring. */
  function UsableSensors(ss: seq<Sensor>): seq<Sensor> {
    FilterMap(ss, (s: Sensor) => if s.id != "" && SensorStateKey(s) != "" then Some(s) else None)
  }

  function UsableDevices(ds: seq<Relay>): seq<Relay> {
    FilterMap(ds, (d: Relay) => if d.id != "" then Some(d) else None)
  }

  /** First pass: index the usable server entries by key, later ones replacing earlier. */
  method IndexSensors(state: seq<Sensor>) returns (stateIndex: map<string, Sensor>, stateOrder: seq<string>)
    ensures Indexes(SENSOR_SCHEME, UsableSensors(state), stateIndex, stateOrder)
    ensures "" !in stateIndex
  {
    stateIndex, stateOrder := map[], [];
    ghost var us := [];
    for i := 0 to |state|
      invariant us == UsableSensors(state[..i])
      invariant Indexes(SENSOR_SCHEME, us, stateIndex, stateOrder)
      invariant "" !in stateIndex
    {
      var s := state[i];
      UsableSensorsNext(state, i);
      var key := SensorStateKey(s);
      if s.id == "" || key == "" {
        continue;
      }
      IndexNext(SENSOR_SCHEME, us, stateIndex, stateOrder, s);
      us := us + [s];
      stateIndex := stateIndex[key := s];
      stateOrder := stateOrder + [key];
    }
    assert state[..|state|] == state;
  }

  lemma UsableSensorsNext(state: seq<Sensor>, i: nat)
    requires i < |state|
    ensures UsableSensors(state[..i + 1]) ==
            UsableSensors(state[..i]) + (if state[i].id != "" && SensorStateKey(state[i]) != "" then [state[i]] else [])
  {
    assert state[..i + 1][..i] == state[..i];
  }

  /** Second pass: local entries in order, renamed where a server entry has their key. */
  method RenameSensors(yaml: seq<SensorConfig>, stateIndex: map<string, Sensor>, stateOrder: seq<string>,
                       ghost us: seq<Sensor>)
    returns (out: seq<SensorConfig>, seen: set<string>)
    requires Indexes(SENSOR_SCHEME, us, stateIndex, stateOrder) && "" !in stateIndex
    ensures out == LocalPart(SENSOR_SCHEME, us, yaml)
    ensures SeenIs(SENSOR_SCHEME, us, yaml, 0, seen)
  {
    out, seen := [], {};
    ghost var done := [];
    for i := 0 to |yaml|
      invariant done == yaml[..i] && out == LocalPart(SENSOR_SCHEME, us, done)
      invariant SeenIs(SENSOR_SCHEME, us, done, 0, seen)
    {
      var y := yaml[i];
      var key := YamlSensorKey(y);
      RenameStep(SENSOR_SCHEME, us, done, y, seen, stateIndex, stateOrder);
      done := done + [y];
      if key == "" {
        out := out + [y];
        continue;
      }
      if key in stateIndex {
        y := y.(id := stateIndex[key].id);
        seen := seen + {key};
      }
      out := out + [y];
    }
    assert yaml[..|yaml|] == yaml;
  }

  lemma OneLonger<T>(out: seq<T>, a: seq<T>, b: seq<T>, x: T)
    requires out == a + b
    ensures out + [x] == a + (b + [x])
  {
  }

  method OverlaySensors(yaml: seq<SensorConfig>, state: seq<Sensor>) returns (out: seq<SensorConfig>)
    ensures out == Overlay(SENSOR_SCHEME, UsableSensors(state), yaml)
  {
    ghost var us := UsableSensors(state);
    if |state| == 0 {
      assert LocalPart(SENSOR_SCHEME, us, yaml) == yaml;
      return yaml;
    }
    var stateIndex, stateOrder := IndexSensors(state);
    var seen;
    out, seen := RenameSensors(yaml, stateIndex, stateOrder, us);
    for i := 0 to |stateOrder|
      invariant out == LocalPart(SENSOR_SCHEME, us, yaml) + Appended(SENSOR_SCHEME, us, yaml, i)
      invariant SeenIs(SENSOR_SCHEME, us, yaml, i, seen)
    {
      var key := stateOrder[i];
      AppendStep(SENSOR_SCHEME, us, yaml, i, seen, stateIndex, stateOrder);
      if key in seen {
        continue;
      }
      var converted := ConvertSensor(stateIndex[key]);
      if converted.None? {
        continue;
      }
      OneLonger(out, LocalPart(SENSOR_SCHEME, us, yaml), Appended(SENSOR_SCHEME, us, yaml, i), converted.value);
      seen := seen + {key};
      out := out + [converted.value];
    }
  }

  method IndexDevices(state: seq<Relay>) returns (stateIndex: map<string, Relay>, stateOrder: seq<string>)
    ensures Indexes(DEVICE_SCHEME, UsableDevices(state), stateIndex, stateOrder)
    ensures "" !in stateIndex
  {
    stateIndex, stateOrder := map[], [];
    ghost var us := [];
    for i := 0 to |state|
      invariant us == UsableDevices(state[..i])
      invariant Indexes(DEVICE_SCHEME, us, stateIndex, stateOrder)
      invariant "" !in stateIndex
    {
      var d := state[i];
      UsableDevicesNext(state, i);
      if d.id == "" {
        continue;
      }
      var key := DeviceKey(d.typ, d.pin);
      IndexNext(DEVICE_SCHEME, us, stateIndex, stateOrder, d);
      us := us + [d];
      stateIndex := stateIndex[key := d];
      stateOrder := stateOrder + [key];
    }
    assert state[..|state|] == state;
  }

  lemma UsableDevicesNext(state: seq<Relay>, i: nat)
    requires i < |state|
    ensures UsableDevices(state[..i + 1]) == UsableDevices(state[..i]) + (if state[i].id != "" then [state[i]] else [])
  {
    assert state[..i + 1][..i] == state[..i];
  }

  method RenameDevices(yaml: seq<DeviceConfig>, stateIndex: map<string, Relay>, stateOrder: seq<string>,
                       ghost us: seq<Relay>)
    returns (out: seq<DeviceConfig>, seen: set<string>)
    requires Indexes(DEVICE_SCHEME, us, stateIndex, stateOrder) && "" !in stateIndex
    ensures out == LocalPart(DEVICE_SCHEME, us, yaml)
    ensures SeenIs(DEVICE_SCHEME, us, yaml, 0, seen)
  {
    out, seen := [], {};
    ghost var done := [];
    for i := 0 to |yaml|
      invariant done == yaml[..i] && out == LocalPart(DEVICE_SCHEME, us, done)
      invariant SeenIs(DEVICE_SCHEME, us, done, 0, seen)
    {
      var y := yaml[i];
      var key := DeviceKey(y.typ, y.pin);
      RenameStep(DEVICE_SCHEME, us, done, y, seen, stateIndex, stateOrder);
      done := done + [y];
      if key in stateIndex {
        y := y.(id := stateIndex[key].id);
        seen := seen + {key};
      }
      out := out + [y];
    }
    assert yaml[..|yaml|] == yaml;
  }

  method OverlayDevices(yaml: seq<DeviceConfig>, state: seq<Relay>) returns (out: seq<DeviceConfig>)
    ensures out == Overlay(DEVICE_SCHEME, UsableDevices(state), yaml)
  {
    ghost var us := UsableDevices(state);
    if |state| == 0 {
      assert LocalPart(DEVICE_SCHEME, us, yaml) == yaml;
      return yaml;
    }
    var stateIndex, stateOrder := IndexDevices(state);
    var seen;
    out, seen := RenameDevices(yaml, stateIndex, stateOrder, us);
    for i := 0 to |stateOrder|
      invariant out == LocalPart(DEVICE_SCHEME, us, yaml) + Appended(DEVICE_SCHEME, us, yaml, i)
      invariant SeenIs(DEVICE_SCHEME, us, yaml, i, seen)
    {
      var key := stateOrder[i];
      AppendStep(DEVICE_SCHEME, us, yaml, i, seen, stateIndex, stateOrder);
      if key in seen {
        continue;
      }
      var converted := ConvertDevice(stateIndex[key]).value;
      OneLonger(out, LocalPart(DEVICE_SCHEME, us, yaml), Appended(DEVICE_SCHEME, us, yaml, i), converted);
      seen := seen + {key};
      out := out + [converted];
    }
  }
}
