/** ResolveActiveConfig and what it promises: overlaying twice, reordering the server's
    lists, and keeping the configuration acceptable. */
module ActiveConfig {
  import opened Prelude
  import opened Text
  import opened GoDuration
  import opened ClientConfig
  import opened ProvisionTypes
  import opened Merge
  import opened Resolve
  import opened Overlaid

  function Preferred(fromServer: string, local: string): string {
    if fromServer != "" then fromServer else local
  }

  function ServerSensors(st: ActiveState): seq<Sensor> {
    UsableSensors(Elements(st.sensors))
  }

  function ServerDevices(st: ActiveState): seq<Relay> {
    UsableDevices(Elements(st.devices))
  }

  function Resolved(c: ConfigData, st: ActiveState): ConfigData {
    ConfigData(
      c.mqtt.(broker := Preferred(st.mqttBrokerUrl, c.mqtt.broker),
              username := Preferred(st.mqttUsername, c.mqtt.username),
              password := Preferred(st.mqttPassword, c.mqtt.password)),
      ServerConfig(st.serverHttpUrl, st.controllerId),
      Overlay(SENSOR_SCHEME, ServerSensors(st), c.sensors),
      Overlay(DEVICE_SCHEME, ServerDevices(st), c.devices))
  }

  /** A claimed state gives a fresh, resolved copy and leaves the loaded configuration
      alone; without one the loaded object itself is returned. */
  method ResolveActiveConfig(yamlCfg: Config?, st: Option<ActiveState>) returns (out: Config?)
    ensures yamlCfg == null ==> out == null
    ensures yamlCfg != null && !(st.Some? && st.value.provisionState == "ACTIVE" && st.value.controllerId != "") ==>
              out == yamlCfg
    ensures yamlCfg != null && st.Some? && st.value.provisionState == "ACTIVE" && st.value.controllerId != "" ==>
              out != null && fresh(out) && out.Data() == Resolved(yamlCfg.Data(), st.value)
  {
    if yamlCfg == null {
      return null;
    }
    if st.None? || !IsClaimed(st) {
      return yamlCfg;
    }
    var s := st.value;
    var copy := new Config(yamlCfg.Data());
    copy.server := copy.server.(httpUrl := s.serverHttpUrl);
    copy.server := copy.server.(controllerId := s.controllerId);
    if s.mqttBrokerUrl != "" {
      copy.mqtt := copy.mqtt.(broker := s.mqttBrokerUrl);
    }
    if s.mqttUsername != "" {
      copy.mqtt := copy.mqtt.(username := s.mqttUsername);
    }
    if s.mqttPassword != "" {
      copy.mqtt := copy.mqtt.(password := s.mqttPassword);
    }
    copy.sensors := OverlaySensors(copy.sensors, Elements(s.sensors));
    copy.devices := OverlayDevices(copy.devices, Elements(s.devices));
    return copy;
  }

  /** The state's server and, where it names them, its broker and credentials; everything
      else about the connection is local. */
  lemma ResolvedFields(c: ConfigData, st: ActiveState)
    ensures var r := Resolved(c, st);
            && r.server == ServerConfig(st.serverHttpUrl, st.controllerId)
            && (if st.mqttBrokerUrl == "" then r.mqtt.broker == c.mqtt.broker else r.mqtt.broker == st.mqttBrokerUrl)
            && (if st.mqttUsername == "" then r.mqtt.username == c.mqtt.username else r.mqtt.username == st.mqttUsername)
            && (if st.mqttPassword == "" then r.mqtt.password == c.mqtt.password else r.mqtt.password == st.mqttPassword)
            && r.mqtt.clientId == c.mqtt.clientId
            && r.mqtt.connectTimeout == c.mqtt.connectTimeout && r.mqtt.keepAlive == c.mqtt.keepAlive
  {
  }

  /** The lists are the overlays: local entries renamed, missing ones added as ordered. */
  lemma ResolvedLists(c: ConfigData, st: ActiveState)
    ensures var r, ss, ds := Resolved(c, st), Elements(st.sensors), Elements(st.devices);
            && |r.sensors| >= |c.sensors| && |r.devices| >= |c.devices|
            && (forall i :: 0 <= i < |c.sensors| ==> Renamed(ss, c.sensors[i], r.sensors[i]))
            && (forall y :: y in r.sensors[|c.sensors|..] <==> Owed(ss, c.sensors, y))
            && (forall i :: 0 <= i < |c.devices| ==> DeviceRenamed(ds, c.devices[i], r.devices[i]))
            && (forall y :: y in r.devices[|c.devices|..] <==> DeviceOwed(ds, c.devices, y))
  {
    SensorsOverlaid(Elements(st.sensors), c.sensors);
    DevicesOverlaid(Elements(st.devices), c.devices);
  }

  // ----- Overlaying twice --------------------------------------------------------------

  lemma SensorsAdoptOnce()
    ensures AdoptLaws(SENSOR_SCHEME)
  {
  }

  lemma DevicesAdoptOnce()
    ensures AdoptLaws(DEVICE_SCHEME)
  {
  }

  /** No YAML address exceeds sixteen bits, so a wider server address never matches. */
  lemma WideAddressNeverMatches(s: Sensor, y: SensorConfig)
    requires ConvertSensor(s).Some? && !AddressFits(s)
    ensures YamlSensorKey(y) != SensorStateKey(s)
  {
    YamlMatchesStateIff(y, s);
    SensorKeysMatchIff(s, s);
  }

  lemma SensorsTwiceIff(us: seq<Sensor>, ys: seq<SensorConfig>)
    ensures Overlay(SENSOR_SCHEME, us, Overlay(SENSOR_SCHEME, us, ys)) == Overlay(SENSOR_SCHEME, us, ys)
       <==> forall s :: s in us ==> AddressFits(s)
  {
    var m := SENSOR_SCHEME;
    if forall s :: s in us ==> AddressFits(s) {
      forall s | s in us ensures RoundTrips(m, s) {
        if ConvertSensor(s).Some? {
          ConvertedKey(s);
        }
      }
      SensorsAdoptOnce();
      OverlayTwice(m, us, ys);
    } else {
      var s :| s in us && !AddressFits(s);
      var key := SensorStateKey(s);
      var i :| 0 <= i < |us| && us[i] == s;
      assert HasKey(m, us, key) by {
        assert m.serverKey(us[i]) == key;
      }
      SensorKeysMatchIff(LastOf(m, us, key), s);
      forall y ensures m.localKey(y) != key {
        WideAddressNeverMatches(s, y);
      }
      OverlayKeepsGrowing(m, us, Overlay(m, us, ys), key);
    }
  }

  lemma DevicesTwice(us: seq<Relay>, ys: seq<DeviceConfig>)
    ensures Overlay(DEVICE_SCHEME, us, Overlay(DEVICE_SCHEME, us, ys)) == Overlay(DEVICE_SCHEME, us, ys)
  {
    DevicesAdoptOnce();
    OverlayTwice(DEVICE_SCHEME, us, ys);
  }

  /** Resolving a resolved configuration changes nothing exactly when every identified I2C
      sensor of the state has an address of at most sixteen bits. */
  lemma ResolveTwiceIff(c: ConfigData, st: ActiveState)
    ensures Resolved(Resolved(c, st), st) == Resolved(c, st)
       <==> forall s :: s in ServerSensors(st) ==> AddressFits(s)
  {
    SensorsTwiceIff(ServerSensors(st), c.sensors);
    DevicesTwice(ServerDevices(st), c.devices);
  }

  /** 0x10044 is such an address: the resolved list grows with every pass. */
  lemma ResolveTwiceFails(c: ConfigData)
    ensures var s := Sensor("id", "TEMP_HUMIDITY", "I2C", Some(1), Some(0x1_0044), None, None);
            var st := ActiveState("ACTIVE", "c", "", "", "", "", "http://s", 0, Some([s]), None);
            Resolved(Resolved(c, st), st) != Resolved(c, st)
  {
    var s := Sensor("id", "TEMP_HUMIDITY", "I2C", Some(1), Some(0x1_0044), None, None);
    var st := ActiveState("ACTIVE", "c", "", "", "", "", "http://s", 0, Some([s]), None);
    SensorKeysMatchIff(s, s);
    UsableSensorsNext([s], 0);
    assert [s][..1] == [s] && [s][..0] == [];
    assert s in ServerSensors(st);
    ResolveTwiceIff(c, st);
  }

  // ----- Reordered server lists ----------------------------------------------------------

  /** When the identified entries have pairwise distinct keys, the order in which the server
      lists them is immaterial to the local entries and only reorders the appended ones. */
  lemma ResolvePermuted(c: ConfigData, st: ActiveState, st': ActiveState)
    requires multiset(Elements(st.sensors)) == multiset(Elements(st'.sensors))
    requires multiset(Elements(st.devices)) == multiset(Elements(st'.devices))
    requires DistinctKeys(SENSOR_SCHEME, ServerSensors(st)) && DistinctKeys(SENSOR_SCHEME, ServerSensors(st'))
    requires DistinctKeys(DEVICE_SCHEME, ServerDevices(st)) && DistinctKeys(DEVICE_SCHEME, ServerDevices(st'))
    ensures Resolved(c, st).sensors[..|c.sensors|] == Resolved(c, st').sensors[..|c.sensors|]
    ensures Resolved(c, st).devices[..|c.devices|] == Resolved(c, st').devices[..|c.devices|]
    ensures multiset(Resolved(c, st).sensors) == multiset(Resolved(c, st').sensors)
    ensures multiset(Resolved(c, st).devices) == multiset(Resolved(c, st').devices)
  {
    SensorsPermuted(Elements(st.sensors), Elements(st'.sensors), c.sensors);
    DevicesPermuted(Elements(st.devices), Elements(st'.devices), c.devices);
  }

  lemma SensorsPermuted(ss: seq<Sensor>, ss': seq<Sensor>, ys: seq<SensorConfig>)
    requires multiset(ss) == multiset(ss')
    requires DistinctKeys(SENSOR_SCHEME, UsableSensors(ss)) && DistinctKeys(SENSOR_SCHEME, UsableSensors(ss'))
    ensures Overlay(SENSOR_SCHEME, UsableSensors(ss), ys)[..|ys|] == Overlay(SENSOR_SCHEME, UsableSensors(ss'), ys)[..|ys|]
    ensures multiset(Overlay(SENSOR_SCHEME, UsableSensors(ss), ys)) == multiset(Overlay(SENSOR_SCHEME, UsableSensors(ss'), ys))
  {
    FilterMapPermuted(ss, ss', (s: Sensor) => if s.id != "" && SensorStateKey(s) != "" then Some(s) else None);
    OverlayPermuted(SENSOR_SCHEME, UsableSensors(ss), UsableSensors(ss'), ys);
    OverlayPrefix(SENSOR_SCHEME, UsableSensors(ss), ys);
    OverlayPrefix(SENSOR_SCHEME, UsableSensors(ss'), ys);
  }

  lemma DevicesPermuted(ds: seq<Relay>, ds': seq<Relay>, ys: seq<DeviceConfig>)
    requires multiset(ds) == multiset(ds')
    requires DistinctKeys(DEVICE_SCHEME, UsableDevices(ds)) && DistinctKeys(DEVICE_SCHEME, UsableDevices(ds'))
    ensures Overlay(DEVICE_SCHEME, UsableDevices(ds), ys)[..|ys|] == Overlay(DEVICE_SCHEME, UsableDevices(ds'), ys)[..|ys|]
    ensures multiset(Overlay(DEVICE_SCHEME, UsableDevices(ds), ys)) == multiset(Overlay(DEVICE_SCHEME, UsableDevices(ds'), ys))
  {
    FilterMapPermuted(ds, ds', (d: Relay) => if d.id != "" then Some(d) else None);
    OverlayPermuted(DEVICE_SCHEME, UsableDevices(ds), UsableDevices(ds'), ys);
    OverlayPrefix(DEVICE_SCHEME, UsableDevices(ds), ys);
    OverlayPrefix(DEVICE_SCHEME, UsableDevices(ds'), ys);
  }

  lemma OverlayPrefix<S, L>(m: Scheme<S, L>, us: seq<S>, ls: seq<L>)
    ensures Overlay(m, us, ls)[..|ls|] == LocalPart(m, us, ls)
    ensures multiset(Overlay(m, us, ls)) == multiset(LocalPart(m, us, ls)) + multiset(Appended(m, us, ls, |us|))
  {
  }

  // ----- Validity --------------------------------------------------------------------------

  /** What a server-issued sensor that is appended must satisfy. */
  predicate ServerSensorOk(s: Sensor) {
    && s.typ != ""
    && (s.i2cAddr.Some? ==> 0x08 <= s.i2cAddr.value % 0x1_0000 <= 0x77)
    && (s.interval.Some? ==> s.interval.value <= 9_223_372_036)
  }

  predicate ServerDeviceOk(d: Relay) {
    d.typ != "" && d.pin > 0
  }

  lemma ConvertedSensorOkIff(s: Sensor)
    requires ConvertSensor(s).Some?
    ensures SensorOk(ConvertSensor(s).value) <==> ServerSensorOk(s)
  {
    ConvertedInterval(s);
    assert s.interval.Some? ==>
        (s.interval.value * 1_000_000_000 <= 0x7FFF_FFFF_FFFF_FFFF <==> s.interval.value <= 9_223_372_036);
  }

  /** Keys the resolved list takes from the state alone. */
  predicate ExtraSensor(c: ConfigData, st: ActiveState, key: string) {
    Extra(SENSOR_SCHEME, ServerSensors(st), c.sensors, key)
  }

  predicate ExtraDevice(c: ConfigData, st: ActiveState, key: string) {
    Extra(DEVICE_SCHEME, ServerDevices(st), c.devices, key)
  }

  lemma SensorsOkIff(us: seq<Sensor>, ys: seq<SensorConfig>)
    requires forall i :: 0 <= i < |ys| ==> SensorOk(ys[i])
    ensures var out := Overlay(SENSOR_SCHEME, us, ys);
            (forall i :: 0 <= i < |out| ==> SensorOk(out[i])) <==>
            forall key :: Extra(SENSOR_SCHEME, us, ys, key) ==> ServerSensorOk(LastOf(SENSOR_SCHEME, us, key))
  {
    OverlayOkIff(SENSOR_SCHEME, us, ys, y => SensorOk(y));
    forall key | Extra(SENSOR_SCHEME, us, ys, key)
      ensures SensorOk(ConvertSensor(LastOf(SENSOR_SCHEME, us, key)).value)
         <==> ServerSensorOk(LastOf(SENSOR_SCHEME, us, key))
    {
      ConvertedSensorOkIff(LastOf(SENSOR_SCHEME, us, key));
    }
  }

  lemma DevicesOkIff(us: seq<Relay>, ys: seq<DeviceConfig>)
    requires forall i :: 0 <= i < |ys| ==> DeviceOk(ys[i])
    ensures var out := Overlay(DEVICE_SCHEME, us, ys);
            (forall i :: 0 <= i < |out| ==> DeviceOk(out[i])) <==>
            forall key :: Extra(DEVICE_SCHEME, us, ys, key) ==> ServerDeviceOk(LastOf(DEVICE_SCHEME, us, key))
  {
    OverlayOkIff(DEVICE_SCHEME, us, ys, y => DeviceOk(y));
  }

  /** A configuration that passed validation still passes after resolution exactly when the
      state's broker is absent or has an accepted scheme and every entry the state adds on
      its own is well formed. */
  lemma ResolvedAcceptableIff(c: ConfigData, st: ActiveState)
    requires Acceptable(c)
    ensures Acceptable(Resolved(c, st)) <==>
            && (st.mqttBrokerUrl == "" || BrokerSchemeOk(st.mqttBrokerUrl))
            && (forall key :: ExtraSensor(c, st, key) ==>
                  ServerSensorOk(LastOf(SENSOR_SCHEME, ServerSensors(st), key)))
            && (forall key :: ExtraDevice(c, st, key) ==>
                  ServerDeviceOk(LastOf(DEVICE_SCHEME, ServerDevices(st), key)))
  {
    SensorsOkIff(ServerSensors(st), c.sensors);
    DevicesOkIff(ServerDevices(st), c.devices);
  }

  lemma MqttSchemeNotOk(broker: string)
    requires "mqtt://" <= broker
    ensures !BrokerSchemeOk(broker)
  {
    assert broker[0] == "mqtt://"[0] == 'm';
    assert "tcp://"[0] == 't' && "ssl://"[0] == 's' && "tls://"[0] == 't' && "ws://"[0] == 'w' && "wss://"[0] == 'w';
  }

  /** The state.json that the documentation shows, with its mqtt:// broker, is such a state: it
      makes every acceptable configuration unacceptable. */
  lemma MqttSchemeIsRejected(c: ConfigData, st: ActiveState)
    requires Acceptable(c) && "mqtt://" <= st.mqttBrokerUrl
    ensures !Acceptable(Resolved(c, st))
  {
    MqttSchemeNotOk(st.mqttBrokerUrl);
    ResolvedAcceptableIff(c, st);
  }

  lemma DocumentedStateIsRejected() returns (c: ConfigData, st: ActiveState)
    ensures Acceptable(c) && IsClaimed(Some(st)) && st.mqttBrokerUrl == "mqtt://192.168.1.10:1883"
    ensures !Acceptable(Resolved(c, st))
  {
    var mqtt := MqttConfig("tcp://192.168.1.10:1883", "pigrow-tent1", 10, 30, "", "");
    c := ConfigData(mqtt, ServerConfig("", ""), [], []);
    assert "tcp://" <= mqtt.broker;
    st := ActiveState("ACTIVE", "8e7c1f2a", "AA:BB:CC:DD:EE:FF", "mqtt://192.168.1.10:1883", "pigrow-8e7c1f2a", "",
                      "http://192.168.1.10:4000", 1737000000000, None, None);
    assert "mqtt://" <= st.mqttBrokerUrl;
    MqttSchemeIsRejected(c, st);
  }
}
