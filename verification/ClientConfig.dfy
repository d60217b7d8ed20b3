/** The configuration of the client and its validation at load time. */
module ClientConfig {
  import opened Prelude
  import opened GoDuration

  type Uint16 = n: int | 0 <= n < 0x1_0000

  datatype MqttConfig = MqttConfig(
    broker: string, clientId: string, connectTimeout: int, keepAlive: int,
    username: string, password: string)

  datatype ServerConfig = ServerConfig(httpUrl: string, controllerId: string)

  datatype SensorConfig = SensorConfig(
    id: string, typ: string, i2cBus: string, i2cAddress: Uint16, interval: string)

  datatype DeviceConfig = DeviceConfig(id: string, typ: string, pin: int, name: string)

  datatype ConfigData = ConfigData(
    mqtt: MqttConfig, server: ServerConfig, sensors: seq<SensorConfig>, devices: seq<DeviceConfig>)

  datatype ConfigError =
    | BrokerMissing
    | BrokerScheme
    | ClientIdMissing
    | SensorType(index: nat)
    | SensorInterval(index: nat)
    | SensorAddress(index: nat)
    | DeviceType(index: nat)
    | DevicePin(index: nat)

  const MIN_I2C_ADDRESS := 0x08
  const MAX_I2C_ADDRESS := 0x77

  predicate BrokerSchemeOk(broker: string) {
    || "tcp://" <= broker
    || "ssl://" <= broker
    || "tls://" <= broker
    || "ws://" <= broker
    || "wss://" <= broker
  }

  predicate MqttOk(m: MqttConfig) {
    BrokerSchemeOk(m.broker) && m.clientId != ""
  }

  predicate SensorOk(s: SensorConfig) {
    s.typ != "" && ParseDuration(s.interval).Some? && MIN_I2C_ADDRESS <= s.i2cAddress <= MAX_I2C_ADDRESS
  }

  predicate DeviceOk(d: DeviceConfig) {
    d.typ != "" && d.pin > 0
  }

  /** What a successful Load promises about the configuration. */
  predicate Acceptable(c: ConfigData) {
    && MqttOk(c.mqtt)
    && SensorsPass(c.sensors) && DevicesPass(c.devices)
  }

  predicate HasPrefix(s: string, prefix: string) {
    |s| >= |prefix| && s[..|prefix|] == prefix
  }

  /** The acceptable configurations, spelled out. */
  lemma AcceptableIff(c: ConfigData)
    ensures Acceptable(c) <==>
            && (|| HasPrefix(c.mqtt.broker, "tcp://") || HasPrefix(c.mqtt.broker, "ssl://")
                || HasPrefix(c.mqtt.broker, "tls://") || HasPrefix(c.mqtt.broker, "ws://")
                || HasPrefix(c.mqtt.broker, "wss://"))
            && c.mqtt.clientId != ""
            && (forall i :: 0 <= i < |c.sensors| ==>
                  && c.sensors[i].typ != "" && ParseDuration(c.sensors[i].interval).Some?
                  && 8 <= c.sensors[i].i2cAddress <= 119)
            && (forall i :: 0 <= i < |c.devices| ==> c.devices[i].typ != "" && c.devices[i].pin >= 1)
  {
    PrefixIff(c.mqtt.broker, "tcp://");
    PrefixIff(c.mqtt.broker, "ssl://");
    PrefixIff(c.mqtt.broker, "tls://");
    PrefixIff(c.mqtt.broker, "ws://");
    PrefixIff(c.mqtt.broker, "wss://");
  }

  lemma PrefixIff(s: string, p: string)
    ensures p <= s <==> HasPrefix(s, p)
  {
  }

  /** Ten and thirty seconds stand in for timeouts of zero, and nothing else changes. */
  lemma DefaultsAre(m: MqttConfig)
    ensures WithDefaults(m) ==
            MqttConfig(m.broker, m.clientId, if m.connectTimeout == 0 then 10 else m.connectTimeout,
                       if m.keepAlive == 0 then 30 else m.keepAlive, m.username, m.password)
  {
  }

  function WithDefaults(m: MqttConfig): MqttConfig {
    m.(connectTimeout := if m.connectTimeout == 0 then 10 else m.connectTimeout,
       keepAlive := if m.keepAlive == 0 then 30 else m.keepAlive)
  }

  class Config {
    var mqtt: MqttConfig
    var server: ServerConfig
    var sensors: seq<SensorConfig>
    var devices: seq<DeviceConfig>

    function Data(): ConfigData
      reads this
    {
      ConfigData(mqtt, server, sensors, devices)
    }

    constructor (data: ConfigData)
      ensures Data() == data
    {
      mqtt, server, sensors, devices := data.mqtt, data.server, data.sensors, data.devices;
    }

    /** Accepts exactly the acceptable configurations; otherwise names the first fault in
        checking order. The timeouts get their defaults once the broker and the client id
        have passed, even when a later entry is rejected. */
    method Validate() returns (err: Option<ConfigError>)
      modifies this`mqtt
      ensures Reports(old(Data()), err)
      ensures mqtt == if MqttOk(old(mqtt)) then WithDefaults(old(mqtt)) else old(mqtt)
    {
      ghost var c := Data();
      if mqtt.broker == "" {
        Faulty(c, BrokerMissing);
        return Some(BrokerMissing);
      }
      if !BrokerSchemeOk(mqtt.broker) {
        Faulty(c, BrokerScheme);
        return Some(BrokerScheme);
      }
      if mqtt.clientId == "" {
        Faulty(c, ClientIdMissing);
        return Some(ClientIdMissing);
      }
      if mqtt.connectTimeout == 0 {
        mqtt := mqtt.(connectTimeout := 10);
      }
      if mqtt.keepAlive == 0 {
        mqtt := mqtt.(keepAlive := 30);
      }
      ghost var m := WithDefaults(c.mqtt);
      assert mqtt == m && MqttOk(c.mqtt);
      err := ValidateSensors(c);
      if err.Some? {
        return;
      }
      err := ValidateDevices(c);
    }

    method ValidateSensors(ghost c: ConfigData) returns (err: Option<ConfigError>)
      requires MqttOk(c.mqtt) && c.sensors == sensors
      ensures err.None? ==> SensorsPass(c.sensors)
      ensures err.Some? ==> Reports(c, err)
    {
      for i := 0 to |sensors|
        invariant SensorsPass(c.sensors[..i])
      {
        var s := sensors[i];
        SensorChecked(c, i);
        if s.typ == "" {
          Faulty(c, SensorType(i));
          return Some(SensorType(i));
        }
        if ParseDuration(s.interval).None? {
          Faulty(c, SensorInterval(i));
          return Some(SensorInterval(i));
        }
        if s.i2cAddress < MIN_I2C_ADDRESS || s.i2cAddress > MAX_I2C_ADDRESS {
          Faulty(c, SensorAddress(i));
          return Some(SensorAddress(i));
        }
      }
      assert c.sensors[..|sensors|] == c.sensors;
      return None;
    }

    method ValidateDevices(ghost c: ConfigData) returns (err: Option<ConfigError>)
      requires MqttOk(c.mqtt) && SensorsPass(c.sensors) && c.devices == devices
      ensures Reports(c, err)
    {
      for i := 0 to |devices|
        invariant DevicesPass(c.devices[..i])
      {
        var d := devices[i];
        DeviceChecked(c, i);
        if d.typ == "" {
          Faulty(c, DeviceType(i));
          return Some(DeviceType(i));
        }
        if d.pin <= 0 {
          Faulty(c, DevicePin(i));
          return Some(DevicePin(i));
        }
      }
      assert c.devices[..|devices|] == c.devices;
      return None;
    }
  }

  predicate SensorsPass(ss: seq<SensorConfig>) {
    forall i :: 0 <= i < |ss| ==> SensorOk(ss[i])
  }

  predicate DevicesPass(ds: seq<DeviceConfig>) {
    forall i :: 0 <= i < |ds| ==> DeviceOk(ds[i])
  }

  lemma Faulty(c: ConfigData, e: ConfigError)
    requires FirstFault(c, e)
    ensures Reports(c, Some(e))
  {
  }

  lemma SensorChecked(c: ConfigData, i: nat)
    requires MqttOk(c.mqtt) && i < |c.sensors| && SensorsPass(c.sensors[..i])
    ensures SensorsPassBefore(c, i) && (SensorOk(c.sensors[i]) ==> SensorsPass(c.sensors[..i + 1]))
  {
    assert forall k :: 0 <= k < i ==> c.sensors[..i][k] == c.sensors[k];
  }

  lemma DeviceChecked(c: ConfigData, i: nat)
    requires MqttOk(c.mqtt) && SensorsPass(c.sensors) && i < |c.devices| && DevicesPass(c.devices[..i])
    ensures DevicesPassBefore(c, i) && (DeviceOk(c.devices[i]) ==> DevicesPass(c.devices[..i + 1]))
  {
    assert forall k :: 0 <= k < i ==> c.devices[..i][k] == c.devices[k];
  }

  /** No error exactly for the acceptable configurations, and otherwise the first fault. */
  predicate Reports(c: ConfigData, err: Option<ConfigError>) {
    && (err == None <==> Acceptable(c))
    && (err.Some? ==> FirstFault(c, err.value))
  }

  /** e is a fault of c and everything checked before it passes. */
  predicate FirstFault(c: ConfigData, e: ConfigError) {
    match e
    case BrokerMissing => c.mqtt.broker == ""
    case BrokerScheme => c.mqtt.broker != "" && !BrokerSchemeOk(c.mqtt.broker)
    case ClientIdMissing => BrokerSchemeOk(c.mqtt.broker) && c.mqtt.clientId == ""
    case SensorType(i) => SensorsPassBefore(c, i) && c.sensors[i].typ == ""
    case SensorInterval(i) =>
      SensorsPassBefore(c, i) && c.sensors[i].typ != "" && ParseDuration(c.sensors[i].interval).None?
    case SensorAddress(i) =>
      && SensorsPassBefore(c, i)
      && c.sensors[i].typ != "" && ParseDuration(c.sensors[i].interval).Some?
      && !(MIN_I2C_ADDRESS <= c.sensors[i].i2cAddress <= MAX_I2C_ADDRESS)
    case DeviceType(i) => DevicesPassBefore(c, i) && c.devices[i].typ == ""
    case DevicePin(i) => DevicesPassBefore(c, i) && c.devices[i].typ != "" && c.devices[i].pin <= 0
  }

  predicate SensorsPassBefore(c: ConfigData, i: nat) {
    MqttOk(c.mqtt) && i < |c.sensors| && forall k :: 0 <= k < i ==> SensorOk(c.sensors[k])
  }

  predicate DevicesPassBefore(c: ConfigData, i: nat) {
    && MqttOk(c.mqtt) && SensorsPass(c.sensors)
    && i < |c.devices| && forall k :: 0 <= k < i ==> DeviceOk(c.devices[k])
  }

  /** The fault reported is the only one it could be: checking order leaves no choice. */
  lemma FirstFaultIsUnique(c: ConfigData, e: ConfigError, f: ConfigError)
    requires FirstFault(c, e) && FirstFault(c, f)
    ensures e == f
  {
  }
}
