/** What an overlay does, entry by entry and in terms of the wiring alone: no keys, no
    indexes, no merge specification. */
module Overlaid {
  import opened Prelude
  import opened Text
  import opened ClientConfig
  import opened ProvisionTypes
  import opened Merge
  import opened Resolve

  predicate OnI2c(s: Sensor) {
    s.i2cBus.Some? && s.i2cAddr.Some?
  }

  /** Server-issued sensors that take part have an identity and a wiring. */
  predicate Usable(s: Sensor) {
    s.id != "" && (OnI2c(s) || s.pin.Some?)
  }

  predicate SameWiring(s: Sensor, s': Sensor) {
    && s.typ == s'.typ && OnI2c(s) == OnI2c(s')
    && if OnI2c(s) then s.i2cBus == s'.i2cBus && s.i2cAddr == s'.i2cAddr else s.pin == s'.pin
  }

  /** The local sensor is the one the server means. */
  predicate Meant(y: SensorConfig, s: Sensor) {
    && s.typ == y.typ && s.i2cAddr == Some(y.i2cAddress)
    && s.i2cBus.Some? && Atoi(TrimPrefix(y.i2cBus, "/dev/i2c-")) == s.i2cBus
  }

  /** Entry j of the server's list counts: it is usable and no usable entry behind it has the
      same wiring. */
  ghost predicate Counts(state: seq<Sensor>, j: nat) {
    && j < |state| && Usable(state[j])
    && forall k :: j < k < |state| && Usable(state[k]) ==> !SameWiring(state[k], state[j])
  }

  /** Such an entry on the I2C bus that no local sensor answers to. */
  ghost predicate Missing(state: seq<Sensor>, yaml: seq<SensorConfig>, j: nat) {
    Counts(state, j) && OnI2c(state[j]) && forall i :: 0 <= i < |yaml| ==> !Meant(yaml[i], state[j])
  }

  const USABLE: Sensor -> Option<Sensor> := (s: Sensor) => if s.id != "" && SensorStateKey(s) != "" then Some(s) else None

  lemma UsableIff(s: Sensor)
    ensures USABLE(s).Some? <==> Usable(s)
    ensures USABLE(s).Some? ==> USABLE(s).value == s
  {
    SensorKeysMatchIff(s, s);
  }

  lemma UsableKeys(s: Sensor, s': Sensor)
    requires Usable(s) && Usable(s')
    ensures SensorStateKey(s) == SensorStateKey(s') <==> SameWiring(s, s')
  {
    SensorKeysMatchIff(s, s');
  }

  lemma CountsIff(state: seq<Sensor>, j: nat)
    ensures LastKept(SENSOR_SCHEME, state, USABLE, j) <==> Counts(state, j)
  {
    if j < |state| {
      UsableIff(state[j]);
      forall k | j < k < |state|
        ensures USABLE(state[k]).Some? <==> Usable(state[k])
        ensures Usable(state[j]) && Usable(state[k]) ==>
                  (SensorStateKey(state[k]) == SensorStateKey(state[j]) <==> SameWiring(state[k], state[j]))
      {
        UsableIff(state[k]);
        if Usable(state[j]) && Usable(state[k]) {
          UsableKeys(state[k], state[j]);
        }
      }
    }
  }

  lemma UsableKeeps(state: seq<Sensor>)
    ensures Keeps(state, USABLE) && FilterMap(state, USABLE) == UsableSensors(state)
  {
    forall i | 0 <= i < |state| ensures USABLE(state[i]).Some? ==> USABLE(state[i]).value == state[i] {
      UsableIff(state[i]);
    }
  }

  /** What counts is what the merge finds under its key. */
  lemma CountingIsFound(state: seq<Sensor>, j: nat)
    requires Counts(state, j)
    ensures var us, key := UsableSensors(state), SensorStateKey(state[j]);
            key != "" && HasKey(SENSOR_SCHEME, us, key) && LastOf(SENSOR_SCHEME, us, key) == state[j]
  {
    UsableKeeps(state);
    CountsIff(state, j);
    LastKeptIsFound(SENSOR_SCHEME, state, USABLE, j);
    UsableIff(state[j]);
  }

  lemma FoundCounts(state: seq<Sensor>, key: string) returns (j: nat)
    requires HasKey(SENSOR_SCHEME, UsableSensors(state), key)
    ensures Counts(state, j) && SensorStateKey(state[j]) == key
    ensures LastOf(SENSOR_SCHEME, UsableSensors(state), key) == state[j]
  {
    UsableKeeps(state);
    j := FoundIsLastKept(SENSOR_SCHEME, state, USABLE, key);
    CountsIff(state, j);
  }

  /** A local sensor keeps everything but its id, and takes that from the entry that counts. */
  ghost predicate Renamed(state: seq<Sensor>, y: SensorConfig, y': SensorConfig) {
    && (forall j: nat :: Counts(state, j) && Meant(y, state[j]) ==> y' == y.(id := state[j].id))
    && ((forall j: nat :: Counts(state, j) ==> !Meant(y, state[j])) ==> y' == y)
  }

  /** The entry is what some missing sensor becomes. */
  ghost predicate Owed(state: seq<Sensor>, yaml: seq<SensorConfig>, y: SensorConfig) {
    exists j: nat :: Missing(state, yaml, j) && AsOrdered(state[j], y)
  }

  lemma AdoptsMeant(state: seq<Sensor>, y: SensorConfig, j: nat)
    requires Counts(state, j) && Meant(y, state[j])
    ensures Adopted(SENSOR_SCHEME, UsableSensors(state), y) == y.(id := state[j].id)
  {
    CountingIsFound(state, j);
    YamlMatchesStateIff(y, state[j]);
  }

  lemma AdoptsNone(state: seq<Sensor>, y: SensorConfig)
    requires forall j: nat :: Counts(state, j) ==> !Meant(y, state[j])
    ensures Adopted(SENSOR_SCHEME, UsableSensors(state), y) == y
  {
    var key := YamlSensorKey(y);
    if key != "" && HasKey(SENSOR_SCHEME, UsableSensors(state), key) {
      var j := FoundCounts(state, key);
      YamlMatchesStateIff(y, state[j]);
      assert false;
    }
  }

  lemma LocalSensor(state: seq<Sensor>, y: SensorConfig)
    ensures Renamed(state, y, Adopted(SENSOR_SCHEME, UsableSensors(state), y))
  {
    var y' := Adopted(SENSOR_SCHEME, UsableSensors(state), y);
    forall j: nat | Counts(state, j) && Meant(y, state[j]) ensures y' == y.(id := state[j].id) {
      AdoptsMeant(state, y, j);
    }
    if forall j: nat :: Counts(state, j) ==> !Meant(y, state[j]) {
      AdoptsNone(state, y);
    }
  }

  lemma MatchedIff(yaml: seq<SensorConfig>, s: Sensor)
    requires Usable(s)
    ensures Matched(SENSOR_SCHEME, yaml, SensorStateKey(s)) <==> exists i :: 0 <= i < |yaml| && Meant(yaml[i], s)
  {
    SensorKeysMatchIff(s, s);
    forall i | 0 <= i < |yaml| ensures YamlSensorKey(yaml[i]) == SensorStateKey(s) <==> Meant(yaml[i], s) {
      YamlMatchesStateIff(yaml[i], s);
    }
  }

  lemma MissingIff(state: seq<Sensor>, yaml: seq<SensorConfig>, j: nat)
    requires Counts(state, j)
    ensures Missing(state, yaml, j) <==> Extra(SENSOR_SCHEME, UsableSensors(state), yaml, SensorStateKey(state[j]))
  {
    CountingIsFound(state, j);
    MatchedIff(yaml, state[j]);
  }

  lemma InAppended(us: seq<Sensor>, yaml: seq<SensorConfig>, key: string, y: SensorConfig)
    requires Extra(SENSOR_SCHEME, us, yaml, key) && ConvertSensor(LastOf(SENSOR_SCHEME, us, key)) == Some(y)
    ensures y in Appended(SENSOR_SCHEME, us, yaml, |us|)
  {
    assert us[..|us|] == us;
    assert key in ExtraKeys(SENSOR_SCHEME, us, yaml, |us|);
    AppendedContents(SENSOR_SCHEME, us, yaml, |us|, y);
  }

  lemma OfAppended(us: seq<Sensor>, yaml: seq<SensorConfig>, y: SensorConfig) returns (key: string)
    requires y in Appended(SENSOR_SCHEME, us, yaml, |us|)
    ensures Extra(SENSOR_SCHEME, us, yaml, key) && ConvertSensor(LastOf(SENSOR_SCHEME, us, key)) == Some(y)
  {
    AppendedContents(SENSOR_SCHEME, us, yaml, |us|, y);
    key :| key in ExtraKeys(SENSOR_SCHEME, us, yaml, |us|) && y == ConvertSensor(LastOf(SENSOR_SCHEME, us, key)).value;
  }

  lemma AddedSensor(state: seq<Sensor>, yaml: seq<SensorConfig>, y: SensorConfig)
    ensures y in Appended(SENSOR_SCHEME, UsableSensors(state), yaml, |UsableSensors(state)|) <==> Owed(state, yaml, y)
  {
    var us := UsableSensors(state);
    if y in Appended(SENSOR_SCHEME, us, yaml, |us|) {
      var key := OfAppended(us, yaml, y);
      var j := FoundCounts(state, key);
      MissingIff(state, yaml, j);
      ConvertedIff(state[j], y);
    }
    if Owed(state, yaml, y) {
      var j: nat :| Missing(state, yaml, j) && AsOrdered(state[j], y);
      MissingIff(state, yaml, j);
      CountingIsFound(state, j);
      ConvertedIff(state[j], y);
      InAppended(us, yaml, SensorStateKey(state[j]), y);
    }
  }

  /** The overlay: the local sensors in their order, renamed, and behind them the missing
      sensors as the server ordered them. */
  lemma SensorsOverlaid(state: seq<Sensor>, yaml: seq<SensorConfig>)
    ensures var out, n := Overlay(SENSOR_SCHEME, UsableSensors(state), yaml), |yaml|;
            && |out| >= n
            && (forall i :: 0 <= i < n ==> Renamed(state, yaml[i], out[i]))
            && (forall y :: y in out[n..] <==> Owed(state, yaml, y))
  {
    var us := UsableSensors(state);
    OverlayParts(SENSOR_SCHEME, us, yaml);
    forall i | 0 <= i < |yaml| ensures Renamed(state, yaml[i], Adopted(SENSOR_SCHEME, us, yaml[i])) {
      LocalSensor(state, yaml[i]);
    }
    forall y ensures y in Appended(SENSOR_SCHEME, us, yaml, |us|) <==> Owed(state, yaml, y) {
      AddedSensor(state, yaml, y);
    }
  }

  lemma OverlayParts<S, L>(m: Scheme<S, L>, us: seq<S>, ls: seq<L>)
    ensures var out := Overlay(m, us, ls);
            && |out| >= |ls| && out[|ls|..] == Appended(m, us, ls, |us|)
            && (forall i :: 0 <= i < |ls| ==> out[i] == Adopted(m, us, ls[i]))
  {
  }

  // ----- Devices -----------------------------------------------------------------------

  const NAMED: Relay -> Option<Relay> := (d: Relay) => if d.id != "" then Some(d) else None

  ghost predicate DeviceCounts(state: seq<Relay>, j: nat) {
    && j < |state| && state[j].id != ""
    && forall k :: j < k < |state| && state[k].id != "" ==> !(state[k].typ == state[j].typ && state[k].pin == state[j].pin)
  }

  ghost predicate DeviceMissing(state: seq<Relay>, yaml: seq<DeviceConfig>, j: nat) {
    && DeviceCounts(state, j)
    && forall i :: 0 <= i < |yaml| ==> !(yaml[i].typ == state[j].typ && yaml[i].pin == state[j].pin)
  }

  lemma DeviceCountsIff(state: seq<Relay>, j: nat)
    ensures LastKept(DEVICE_SCHEME, state, NAMED, j) <==> DeviceCounts(state, j)
  {
    if j < |state| {
      forall k | j < k < |state|
        ensures DeviceKey(state[k].typ, state[k].pin) == DeviceKey(state[j].typ, state[j].pin) <==>
                state[k].typ == state[j].typ && state[k].pin == state[j].pin
      {
        DeviceKeyInjective(state[k].typ, state[k].pin, state[j].typ, state[j].pin);
      }
    }
  }

  lemma DeviceCountingIsFound(state: seq<Relay>, j: nat)
    requires DeviceCounts(state, j)
    ensures var us, key := UsableDevices(state), DeviceKey(state[j].typ, state[j].pin);
            HasKey(DEVICE_SCHEME, us, key) && LastOf(DEVICE_SCHEME, us, key) == state[j]
  {
    DeviceCountsIff(state, j);
    LastKeptIsFound(DEVICE_SCHEME, state, NAMED, j);
    assert FilterMap(state, NAMED) == UsableDevices(state);
  }

  lemma FoundDeviceCounts(state: seq<Relay>, key: string) returns (j: nat)
    requires HasKey(DEVICE_SCHEME, UsableDevices(state), key)
    ensures DeviceCounts(state, j) && DeviceKey(state[j].typ, state[j].pin) == key
    ensures LastOf(DEVICE_SCHEME, UsableDevices(state), key) == state[j]
  {
    assert FilterMap(state, NAMED) == UsableDevices(state);
    j := FoundIsLastKept(DEVICE_SCHEME, state, NAMED, key);
    DeviceCountsIff(state, j);
  }

  predicate SameDevice(y: DeviceConfig, d: Relay) {
    y.typ == d.typ && y.pin == d.pin
  }

  ghost predicate DeviceRenamed(state: seq<Relay>, y: DeviceConfig, y': DeviceConfig) {
    && (forall j: nat :: DeviceCounts(state, j) && SameDevice(y, state[j]) ==> y' == y.(id := state[j].id))
    && ((forall j: nat :: DeviceCounts(state, j) ==> !SameDevice(y, state[j])) ==> y' == y)
  }

  ghost predicate DeviceOwed(state: seq<Relay>, yaml: seq<DeviceConfig>, y: DeviceConfig) {
    exists j: nat :: DeviceMissing(state, yaml, j)
                     && y == DeviceConfig(state[j].id, state[j].typ, state[j].pin, state[j].name)
  }

  lemma LocalDevice(state: seq<Relay>, y: DeviceConfig)
    ensures DeviceRenamed(state, y, Adopted(DEVICE_SCHEME, UsableDevices(state), y))
  {
    var us, key := UsableDevices(state), DeviceKey(y.typ, y.pin);
    var y' := Adopted(DEVICE_SCHEME, us, y);
    DeviceKeyNotEmpty(y.typ, y.pin);
    forall j: nat | DeviceCounts(state, j) && SameDevice(y, state[j]) ensures y' == y.(id := state[j].id) {
      DeviceCountingIsFound(state, j);
    }
    if HasKey(DEVICE_SCHEME, us, key) {
      var j := FoundDeviceCounts(state, key);
      DeviceKeyInjective(y.typ, y.pin, state[j].typ, state[j].pin);
    }
  }

  lemma DeviceKeyNotEmpty(typ: string, pin: int)
    ensures DeviceKey(typ, pin) != ""
  {
    assert '|' in DeviceKey(typ, pin);
  }

  lemma DeviceMatchedIff(yaml: seq<DeviceConfig>, d: Relay)
    ensures Matched(DEVICE_SCHEME, yaml, DeviceKey(d.typ, d.pin)) <==>
            exists i :: 0 <= i < |yaml| && yaml[i].typ == d.typ && yaml[i].pin == d.pin
  {
    forall i | 0 <= i < |yaml|
      ensures DeviceKey(yaml[i].typ, yaml[i].pin) == DeviceKey(d.typ, d.pin) <==>
              yaml[i].typ == d.typ && yaml[i].pin == d.pin
    {
      DeviceKeyInjective(yaml[i].typ, yaml[i].pin, d.typ, d.pin);
    }
  }

  lemma DeviceMissingIff(state: seq<Relay>, yaml: seq<DeviceConfig>, j: nat)
    requires DeviceCounts(state, j)
    ensures DeviceMissing(state, yaml, j) <==>
            Extra(DEVICE_SCHEME, UsableDevices(state), yaml, DeviceKey(state[j].typ, state[j].pin))
  {
    DeviceCountingIsFound(state, j);
    DeviceMatchedIff(yaml, state[j]);
  }

  lemma DeviceInAppended(us: seq<Relay>, yaml: seq<DeviceConfig>, key: string)
    requires Extra(DEVICE_SCHEME, us, yaml, key)
    ensures ConvertDevice(LastOf(DEVICE_SCHEME, us, key)).value in Appended(DEVICE_SCHEME, us, yaml, |us|)
  {
    assert us[..|us|] == us;
    assert key in ExtraKeys(DEVICE_SCHEME, us, yaml, |us|);
    AppendedContents(DEVICE_SCHEME, us, yaml, |us|, ConvertDevice(LastOf(DEVICE_SCHEME, us, key)).value);
  }

  lemma DeviceOfAppended(us: seq<Relay>, yaml: seq<DeviceConfig>, y: DeviceConfig) returns (key: string)
    requires y in Appended(DEVICE_SCHEME, us, yaml, |us|)
    ensures Extra(DEVICE_SCHEME, us, yaml, key) && y == ConvertDevice(LastOf(DEVICE_SCHEME, us, key)).value
  {
    AppendedContents(DEVICE_SCHEME, us, yaml, |us|, y);
    key :| key in ExtraKeys(DEVICE_SCHEME, us, yaml, |us|) && y == ConvertDevice(LastOf(DEVICE_SCHEME, us, key)).value;
  }

  lemma AddedDevice(state: seq<Relay>, yaml: seq<DeviceConfig>, y: DeviceConfig)
    ensures y in Appended(DEVICE_SCHEME, UsableDevices(state), yaml, |UsableDevices(state)|) <==> DeviceOwed(state, yaml, y)
  {
    var us := UsableDevices(state);
    if y in Appended(DEVICE_SCHEME, us, yaml, |us|) {
      var key := DeviceOfAppended(us, yaml, y);
      var j := FoundDeviceCounts(state, key);
      DeviceMissingIff(state, yaml, j);
    }
    if DeviceOwed(state, yaml, y) {
      var j: nat :| DeviceMissing(state, yaml, j)
                    && y == DeviceConfig(state[j].id, state[j].typ, state[j].pin, state[j].name);
      DeviceMissingIff(state, yaml, j);
      DeviceCountingIsFound(state, j);
      DeviceInAppended(us, yaml, DeviceKey(state[j].typ, state[j].pin));
    }
  }

  /** The same for the devices: type and pin decide what matches. */
  lemma DevicesOverlaid(state: seq<Relay>, yaml: seq<DeviceConfig>)
    ensures var out, n := Overlay(DEVICE_SCHEME, UsableDevices(state), yaml), |yaml|;
            && |out| >= n
            && (forall i :: 0 <= i < n ==> DeviceRenamed(state, yaml[i], out[i]))
            && (forall y :: y in out[n..] <==> DeviceOwed(state, yaml, y))
  {
    var us := UsableDevices(state);
    OverlayParts(DEVICE_SCHEME, us, yaml);
    forall i | 0 <= i < |yaml| ensures DeviceRenamed(state, yaml[i], Adopted(DEVICE_SCHEME, us, yaml[i])) {
      LocalDevice(state, yaml[i]);
    }
    forall y ensures y in Appended(DEVICE_SCHEME, us, yaml, |us|) <==> DeviceOwed(state, yaml, y) {
      AddedDevice(state, yaml, y);
    }
  }
}
