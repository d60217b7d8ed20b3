/** The wire and disk records of provisioning. An optional sequence is a Go slice: None is
    nil, which the program keeps apart from an empty slice. */
module ProvisionTypes {
  import opened Prelude
  import opened Text

  datatype Sensor = Sensor(
    id: string, typ: string, protocol: string,
    i2cBus: Option<Int64>, i2cAddr: Option<Int64>, pin: Option<Int64>, interval: Option<Int64>)

  datatype Relay = Relay(id: string, typ: string, pin: Int64, name: string)

  datatype ActiveState = ActiveState(
    provisionState: string, controllerId: string, controllerMac: string,
    mqttBrokerUrl: string, mqttUsername: string, mqttPassword: string,
    serverHttpUrl: string, pairedAt: int,
    sensors: Option<seq<Sensor>>, devices: Option<seq<Relay>>)

  datatype ClaimResponse = ClaimResponse(
    schema: int, controllerId: string, controllerMac: string,
    mqttBrokerUrl: string, mqttUsername: string, mqttPassword: string,
    serverHttpUrl: string, pairedAt: int,
    sensors: Option<seq<Sensor>>, devices: Option<seq<Relay>>)

  predicate IsClaimed(st: Option<ActiveState>) {
    st.Some? && st.value.provisionState == "ACTIVE" && st.value.controllerId != ""
  }

  function Elements<T>(slice: Option<seq<T>>): seq<T> {
    match slice case None => [] case Some(xs) => xs
  }
}
