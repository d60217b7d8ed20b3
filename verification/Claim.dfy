/** Checking a claim response and turning it into the state that is persisted. */
module Claim {
  import opened Prelude
  import opened ProvisionTypes
  import opened Mac

  datatype VerifyError =
    | NilResponse
    | UnsupportedSchema
    | MissingControllerMac
    | OwnMacUnparsable
    | ClaimedMacUnparsable
    | MacMismatch
    | MissingControllerId
    | MissingServerUrl

  /** The checks in order; None means accepted. */
  function Verify(r: Option<ClaimResponse>, ownMac: string): Option<VerifyError> {
    if r.None? then Some(NilResponse)
    else if r.value.schema != 1 then Some(UnsupportedSchema)
    else if r.value.controllerMac == "" then Some(MissingControllerMac)
    else if FormatMacString(ownMac).None? then Some(OwnMacUnparsable)
    else if FormatMacString(r.value.controllerMac).None? then Some(ClaimedMacUnparsable)
    else if FormatMacString(ownMac) != FormatMacString(r.value.controllerMac) then Some(MacMismatch)
    else if r.value.controllerId == "" then Some(MissingControllerId)
    else if r.value.serverHttpUrl == "" then Some(MissingServerUrl)
    else None
  }

  predicate Accepted(r: ClaimResponse, ownMac: string) {
    Verify(Some(r), ownMac) == None
  }

  /** A claim is accepted exactly when its schema is 1, it names this board's octets in any
      spelling, and it carries a controller id and a server address. */
  lemma AcceptedIff(r: ClaimResponse, ownMac: string)
    ensures Accepted(r, ownMac) <==>
            && r.schema == 1 && r.controllerId != "" && r.serverHttpUrl != ""
            && ParseMac(ownMac).Some? && ParseMac(r.controllerMac) == ParseMac(ownMac)
  {
    assert ParseMac("") == None;
    if ParseMac(ownMac).Some? && ParseMac(r.controllerMac).Some? {
      SameFormIff(ownMac, r.controllerMac);
    }
  }

  /** v is a fault of the claim and everything checked before it passes. */
  predicate FirstProblem(r: ClaimResponse, ownMac: string, v: VerifyError) {
    match v
    case NilResponse => false
    case UnsupportedSchema => r.schema != 1
    case MissingControllerMac => r.schema == 1 && r.controllerMac == ""
    case OwnMacUnparsable => r.schema == 1 && r.controllerMac != "" && ParseMac(ownMac).None?
    case ClaimedMacUnparsable =>
      r.schema == 1 && r.controllerMac != "" && ParseMac(ownMac).Some? && ParseMac(r.controllerMac).None?
    case MacMismatch =>
      && r.schema == 1 && ParseMac(ownMac).Some? && ParseMac(r.controllerMac).Some?
      && ParseMac(r.controllerMac) != ParseMac(ownMac)
    case MissingControllerId => r.schema == 1 && OwnOctets(r, ownMac) && r.controllerId == ""
    case MissingServerUrl =>
      r.schema == 1 && OwnOctets(r, ownMac) && r.controllerId != "" && r.serverHttpUrl == ""
  }

  predicate OwnOctets(r: ClaimResponse, ownMac: string) {
    ParseMac(ownMac).Some? && ParseMac(r.controllerMac) == ParseMac(ownMac)
  }

  /** A rejection names the first fault the claim has, in checking order, and no other. */
  lemma RejectedBecause(r: ClaimResponse, ownMac: string, v: VerifyError)
    ensures Verify(Some(r), ownMac) == Some(v) <==> FirstProblem(r, ownMac, v)
  {
    assert ParseMac("") == None;
    if ParseMac(ownMac).Some? && ParseMac(r.controllerMac).Some? {
      SameFormIff(ownMac, r.controllerMac);
    }
  }

  function FormatMacStringOr(s: string): string {
    match FormatMacString(s)
    case Some(c) => c
    case None => s
  }

  function ToActiveState(r: ClaimResponse): ActiveState {
    ActiveState("ACTIVE", r.controllerId, FormatMacStringOr(r.controllerMac),
                r.mqttBrokerUrl, r.mqttUsername, r.mqttPassword, r.serverHttpUrl, r.pairedAt,
                r.sensors, r.devices)
  }

  /** The image of an accepted claim counts as claimed, names this board canonically, however
      the server spelled the address, and carries everything else as it came. */
  lemma AcceptedImage(r: ClaimResponse, ownMac: string)
    requires Accepted(r, ownMac)
    ensures var st := ToActiveState(r);
            && st.provisionState == "ACTIVE" && st.controllerId == r.controllerId != ""
            && ParseMac(ownMac).Some? && st.controllerMac == Canonical(ParseMac(ownMac).value)
            && st.serverHttpUrl == r.serverHttpUrl && st.mqttBrokerUrl == r.mqttBrokerUrl
            && st.mqttUsername == r.mqttUsername && st.mqttPassword == r.mqttPassword
            && st.pairedAt == r.pairedAt && st.sensors == r.sensors && st.devices == r.devices
    ensures IsClaimed(Some(ToActiveState(r)))
  {
    AcceptedIff(r, ownMac);
  }

  /** The two claims differ at most in the schema and in how they spell the address. */
  predicate SameOrders(r: ClaimResponse, r': ClaimResponse) {
    && r.controllerId == r'.controllerId && r.serverHttpUrl == r'.serverHttpUrl
    && r.mqttBrokerUrl == r'.mqttBrokerUrl
    && r.mqttUsername == r'.mqttUsername && r.mqttPassword == r'.mqttPassword
    && r.pairedAt == r'.pairedAt && r.sensors == r'.sensors && r.devices == r'.devices
  }

  /** Two accepted claims are persisted alike exactly when they say the same. */
  lemma SameImageIff(r: ClaimResponse, r': ClaimResponse, ownMac: string)
    requires Accepted(r, ownMac) && Accepted(r', ownMac)
    ensures ToActiveState(r) == ToActiveState(r') <==> SameOrders(r, r')
  {
    AcceptedImage(r, ownMac);
    AcceptedImage(r', ownMac);
  }

  function Images(rs: seq<ClaimResponse>): (sts: seq<ActiveState>)
    ensures |sts| == |rs|
  {
    seq(|rs|, i requires 0 <= i < |rs| => ToActiveState(rs[i]))
  }

  lemma ImagesNext(rs: seq<ClaimResponse>, r: ClaimResponse)
    ensures Images(rs + [r]) == Images(rs) + [ToActiveState(r)]
  {
  }

  lemma ImagesAt(rs: seq<ClaimResponse>, i: nat)
    requires i < |rs|
    ensures Images(rs)[i] == ToActiveState(rs[i])
  {
  }

  /** Some board and a claim it accepts, for any contents that name a controller and a
      server. */
  lemma ClaimExists(controllerId: string, server: string, username: string, password: string)
    returns (ownMac: string, r: ClaimResponse)
    requires controllerId != "" && server != ""
    ensures ownMac == EXAMPLE_MAC && Accepted(r, ownMac)
    ensures r == ClaimResponse(1, controllerId, ownMac, "", username, password, server, 0, None, None)
  {
    ownMac := EXAMPLE_MAC;
    ParseCanonical([2, 0, 0, 0, 0, 1]);
    r := ClaimResponse(1, controllerId, ownMac, "", username, password, server, 0, None, None);
    AcceptedIff(r, ownMac);
  }

  const EXAMPLE_MAC := Canonical([2, 0, 0, 0, 0, 1])

  function ClaimTopic(mac: string): string {
    "provision/" + FormatMacStringOr(mac) + "/claim"
  }

  lemma ClaimTopicIs(mac: string)
    ensures ClaimTopic(mac) ==
            "provision/" + (if ParseMac(mac).Some? then Canonical(ParseMac(mac).value) else mac) + "/claim"
  {
  }

  /** Server and board meet on one topic exactly when they mean the same octets. */
  lemma TopicsMeetIff(a: string, b: string)
    requires ParseMac(a).Some? && ParseMac(b).Some?
    ensures ClaimTopic(a) == ClaimTopic(b) <==> ParseMac(a) == ParseMac(b)
  {
    SameFormIff(a, b);
    var x, y := FormatMacStringOr(a), FormatMacStringOr(b);
    assert ClaimTopic(a)[|"provision/"|..|ClaimTopic(a)| - |"/claim"|] == x;
    assert ClaimTopic(b)[|"provision/"|..|ClaimTopic(b)| - |"/claim"|] == y;
  }
}
