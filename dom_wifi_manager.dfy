// The content-side Wi-Fi manager: the synchronous state it keeps (enabled
// flag, connection status, current network, last connection information,
// internet reachability) and how each message from the parent process
// updates it.

module DomWifiManager {
  import opened Wrappers

  // ---------------------------------------------------------------------
  // Script values

  /** The script values a network object's properties hold. */
  datatype JsValue = Undefined | Null | Bool(b: bool) | Num(n: int) | Str(s: string) | Obj

  /** `value != undefined`: loose inequality, so null counts as undefined. */
  predicate Defined(v: JsValue) {
    !v.Undefined? && !v.Null?
  }

  /** `value || false` as a boolean. */
  predicate Truthy(v: JsValue) {
    match v
    case Undefined => false
    case Null => false
    case Bool(b) => b
    case Num(n) => n != 0
    case Str(s) => s != []
    case Obj => true
  }

  /** An object as the list of its own enumerable properties, in order. */
  type JsObject = seq<(string, JsValue)>

  predicate KeysDistinct(obj: JsObject) {
    forall i, j | 0 <= i < j < |obj| :: obj[i].0 != obj[j].0
  }

  /** `obj[key]`: the property's value, undefined when there is none. */
  function Lookup(obj: JsObject, key: string): (r: JsValue)
    ensures r != Undefined ==> exists i | 0 <= i < |obj| :: obj[i] == (key, r)
    ensures (forall i | 0 <= i < |obj| :: obj[i].0 != key) ==> r == Undefined
  {
    if obj == [] then Undefined
    else if obj[0].0 == key then obj[0].1
    else Lookup(obj[1..], key)
  }

  /** The property listed at i is what a lookup of its key finds, when keys are distinct. */
  lemma {:induction false} LookupFindsListed(obj: JsObject, i: int)
    requires KeysDistinct(obj) && 0 <= i < |obj|
    ensures Lookup(obj, obj[i].0) == obj[i].1
    decreases |obj|
  {
    if i > 0 {
      assert obj[0].0 != obj[i].0;
      assert obj[1..][i - 1] == obj[i];
      LookupFindsListed(obj[1..], i - 1);
    }
  }

  /** _convertWifiNetworkToJSON: copies every property whose value is
      neither undefined nor null, and only those. */
  method ConvertWifiNetworkToJson(network: JsObject) returns (json: map<string, JsValue>)
    requires KeysDistinct(network)
    ensures forall key :: key in json <==> Defined(Lookup(network, key))
    ensures forall key | key in json :: json[key] == Lookup(network, key)
  {
    json := map[];
    var i := 0;
    while i < |network|
      invariant 0 <= i <= |network|
      invariant forall key | key in json :: exists j | 0 <= j < i :: network[j].0 == key
      invariant forall j | 0 <= j < i :: (network[j].0 in json <==> Defined(network[j].1))
      invariant forall j | 0 <= j < i && network[j].0 in json :: json[network[j].0] == network[j].1
    {
      var (key, value) := network[i];
      if Defined(value) {
        json := json[key := value];
      }
      i := i + 1;
    }
    forall key
      ensures key in json <==> Defined(Lookup(network, key))
      ensures key in json ==> json[key] == Lookup(network, key)
    {
      if exists j | 0 <= j < |network| :: network[j].0 == key {
        var j :| 0 <= j < |network| && network[j].0 == key;
        LookupFindsListed(network, j);
      }
    }
  }

  // ---------------------------------------------------------------------
  // State and messages

  /** The fields the manager maintains for its synchronous getters. */
  datatype WifiState = WifiState(
    enabled: bool,
    connectionStatus: string,
    currentNetwork: Option<JsObject>,
    lastConnectionInfo: Option<JsObject>,
    hasInternet: bool,
    notification: bool,
    loginSuccess: bool,
    scanResult: Option<seq<Option<JsObject>>>,
    stationNumber: int,
    macAddress: string)

  /** The messages that update the state; the request replies
      (…:Return:OK / …:Return:NO) only settle their DOM request. A null or
      undefined network is None. */
  datatype WifiEvent =
    | RequestReply(ok: bool)
    | WifiDown
    | WifiUp(macAddress: string)
    | OnConnecting(network: Option<JsObject>)
    | OnAssociate(network: Option<JsObject>)
    | OnConnect(network: Option<JsObject>)
    | OnAuthenticating(network: Option<JsObject>)
    | OnDisconnect
    | OnWpsTimeout
    | OnWpsFail
    | OnWpsOverlap
    | OnDhcpFailed
    | OnAuthenticationFailed
    | OnAssociationReject
    | ConnectionInfoUpdate(info: JsObject)
    | StationInfoUpdate(station: int)
    | OpenNetwork(availability: bool)
    | ScanResult(networks: seq<Option<JsObject>>)
    | WifiHasInternet(hasInternet: bool, network: Option<JsObject>)
    | CaptivePortalLogin(loginSuccess: bool, network: Option<JsObject>)

  /** A message as received: its manager id and request id ("" when absent). */
  datatype Message = Message(mid: string, rid: string, event: WifiEvent)

  /** The status string a failure event reports. */
  function FailureStatus(e: WifiEvent): string
    requires IsFailure(e)
  {
    match e
    case OnWpsTimeout => "wps-timedout"
    case OnWpsFail => "wps-failed"
    case OnWpsOverlap => "wps-overlapped"
    case OnDhcpFailed => "dhcpfailed"
    case OnAuthenticationFailed => "authenticationfailed"
    case OnAssociationReject => "associationreject"
  }

  predicate IsFailure(e: WifiEvent) {
    e.OnWpsTimeout? || e.OnWpsFail? || e.OnWpsOverlap? || e.OnDhcpFailed?
    || e.OnAuthenticationFailed? || e.OnAssociationReject?
  }

  /** The status string a connection-progress event reports. */
  function ProgressStatus(e: WifiEvent): string
    requires IsProgress(e)
  {
    match e
    case OnConnecting(_) => "connecting"
    case OnAssociate(_) => "associated"
    case OnConnect(_) => "connected"
    case OnAuthenticating(_) => "authenticating"
  }

  predicate IsProgress(e: WifiEvent) {
    e.OnConnecting? || e.OnAssociate? || e.OnConnect? || e.OnAuthenticating?
  }

  /** The state after receiveMessage handled an accepted message. */
  function Next(s: WifiState, e: WifiEvent): WifiState {
    match e
    case RequestReply(_) => s
    case WifiDown => s.(enabled := false, currentNetwork := None)
    case WifiUp(mac) => s.(enabled := true, macAddress := mac)
    case OnDisconnect =>
      s.(currentNetwork := None, connectionStatus := "disconnected", lastConnectionInfo := None, hasInternet := false)
    case ConnectionInfoUpdate(info) => s.(lastConnectionInfo := Some(info))
    case StationInfoUpdate(station) => s.(stationNumber := station)
    case OpenNetwork(availability) => s.(notification := availability)
    case ScanResult(networks) => s.(scanResult := Some(networks))
    case WifiHasInternet(h, network) => s.(hasInternet := h, currentNetwork := network)
    case CaptivePortalLogin(l, network) => s.(loginSuccess := l, currentNetwork := network)
    case OnConnecting(network) => s.(currentNetwork := network, connectionStatus := "connecting")
    case OnAssociate(network) => s.(currentNetwork := network, connectionStatus := "associated")
    case OnConnect(network) => s.(currentNetwork := network, connectionStatus := "connected")
    case OnAuthenticating(network) => s.(currentNetwork := network, connectionStatus := "authenticating")
    case OnWpsTimeout => Failed(s, "wps-timedout")
    case OnWpsFail => Failed(s, "wps-failed")
    case OnWpsOverlap => Failed(s, "wps-overlapped")
    case OnDhcpFailed => Failed(s, "dhcpfailed")
    case OnAuthenticationFailed => Failed(s, "authenticationfailed")
    case OnAssociationReject => Failed(s, "associationreject")
  }

  function Failed(s: WifiState, status: string): WifiState {
    s.(currentNetwork := None, connectionStatus := status, lastConnectionInfo := None)
  }

  /** wifiDown disables and drops the network; wifiUp enables and records the
      MAC address; nothing else moves. */
  lemma WifiDownAndUp(s: WifiState, mac: string)
    ensures var d := Next(s, WifiDown);
      !d.enabled && d.currentNetwork == None
      && d.(enabled := s.enabled, currentNetwork := s.currentNetwork) == s
    ensures var u := Next(s, WifiUp(mac));
      u.enabled && u.macAddress == mac && u.(enabled := s.enabled, macAddress := s.macAddress) == s
  {
  }

  /** Each connection-progress event sets the network it carries and its
      status, and leaves the connection information and reachability alone. */
  lemma ProgressEventsSetNetworkAndStatus(s: WifiState, e: WifiEvent)
    requires IsProgress(e)
    ensures Next(s, e).currentNetwork == e.network
    ensures Next(s, e).connectionStatus == ProgressStatus(e)
    ensures Next(s, e).lastConnectionInfo == s.lastConnectionInfo && Next(s, e).hasInternet == s.hasInternet
    ensures e.OnConnecting? ==> Next(s, e).connectionStatus == "connecting"
    ensures e.OnAssociate? ==> Next(s, e).connectionStatus == "associated"
    ensures e.OnConnect? ==> Next(s, e).connectionStatus == "connected"
    ensures e.OnAuthenticating? ==> Next(s, e).connectionStatus == "authenticating"
  {
  }

  /** ondisconnect clears network, connection information and reachability. */
  lemma DisconnectClears(s: WifiState)
    ensures var d := Next(s, OnDisconnect);
      d.connectionStatus == "disconnected" && d.currentNetwork == None
      && d.lastConnectionInfo == None && !d.hasInternet && d.enabled == s.enabled
  {
  }

  /** Failure events clear network and connection information and report
      their status, but keep the reachability flag unlike ondisconnect. */
  lemma FailureEventsKeepReachability(s: WifiState, e: WifiEvent)
    requires IsFailure(e)
    ensures Next(s, e).currentNetwork == None && Next(s, e).lastConnectionInfo == None
    ensures Next(s, e).connectionStatus == FailureStatus(e)
    ensures Next(s, e).connectionStatus != "disconnected"
    ensures Next(s, e).hasInternet == s.hasInternet && Next(s, e).enabled == s.enabled
  {
  }

  /** Request replies leave the state as it is. */
  lemma RequestRepliesKeepState(s: WifiState, ok: bool)
    ensures Next(s, RequestReply(ok)) == s
  {
  }

  /** What WifiManager:getState returned at initialisation. */
  datatype InitialState = InitialState(
    network: Option<JsObject>,
    connectionInfo: Option<JsObject>,
    enabled: bool,
    status: string,
    macAddress: string)

  /** The state init sets up: defaults, overridden by the parent's state
      when there is one. */
  function InitialWifiState(state: Option<InitialState>): (r: WifiState)
    ensures state.None? ==>
      r.currentNetwork == None && r.lastConnectionInfo == None && !r.enabled
      && r.connectionStatus == "disconnected" && r.macAddress == []
    ensures state.Some? ==>
      r.currentNetwork == state.value.network && r.enabled == state.value.enabled
      && r.connectionStatus == state.value.status && r.macAddress == state.value.macAddress
    ensures state.Some? ==>
      (r.hasInternet <==> state.value.network.Some? && Truthy(Lookup(state.value.network.value, "hasInternet")))
    ensures !r.notification && !r.loginSuccess && r.scanResult == None && r.stationNumber == 0
  {
    var defaults := WifiState(false, "disconnected", None, None, false, false, false, None, 0, []);
    match state
    case None => defaults
    case Some(st) =>
      defaults.(
        currentNetwork := st.network,
        hasInternet := st.network.Some? && Truthy(Lookup(st.network.value, "hasInternet")),
        lastConnectionInfo := st.connectionInfo,
        enabled := st.enabled,
        connectionStatus := st.status,
        macAddress := st.macAddress)
  }

  /** A message is handled only when its manager id, if any, is this
      manager's and its request id, if any, is pending. */
  predicate Accepted(m: Message, id: string, pending: set<string>) {
    (m.mid == [] || m.mid == id) && (m.rid == [] || m.rid in pending)
  }

  // ---------------------------------------------------------------------
  // The manager

  class WifiManager {
    /** this._id */
    const id: string
    /** The request ids awaiting a reply. */
    var pendingRequests: set<string>

    var enabled: bool
    var connectionStatus: string
    var currentNetwork: Option<JsObject>
    var lastConnectionInfo: Option<JsObject>
    var hasInternet: bool
    var notification: bool
    var loginSuccess: bool
    var scanResult: Option<seq<Option<JsObject>>>
    var stationNumber: int
    var macAddress: string

    function State(): WifiState
      reads this
    {
      WifiState(enabled, connectionStatus, currentNetwork, lastConnectionInfo, hasInternet,
                notification, loginSuccess, scanResult, stationNumber, macAddress)
    }

    /** init(aWindow), with the reply to WifiManager:getState as `state`. */
    constructor (id: string, state: Option<InitialState>)
      ensures this.id == id && pendingRequests == {}
      ensures State() == InitialWifiState(state)
    {
      this.id := id;
      pendingRequests := {};
      new;
      Store(InitialWifiState(state));
    }

    /** Writes every field of the state. */
    method Store(s: WifiState)
      modifies this
      ensures State() == s && pendingRequests == old(pendingRequests)
    {
      enabled := s.enabled;
      connectionStatus := s.connectionStatus;
      currentNetwork := s.currentNetwork;
      lastConnectionInfo := s.lastConnectionInfo;
      hasInternet := s.hasInternet;
      notification := s.notification;
      loginSuccess := s.loginSuccess;
      scanResult := s.scanResult;
      stationNumber := s.stationNumber;
      macAddress := s.macAddress;
    }

    /** getRequestId: a request now waits for its reply under `rid`. */
    method AddRequest(rid: string)
      requires rid != []
      modifies this`pendingRequests
      ensures pendingRequests == old(pendingRequests) + {rid}
    {
      pendingRequests := pendingRequests + {rid};
    }

    /** receiveMessage: a message for another manager, or replying to a
        request that is not pending, changes nothing; otherwise its request,
        if any, is taken and the state moves by Next. */
    method ReceiveMessage(m: Message)
      modifies this
      ensures !Accepted(m, id, old(pendingRequests)) ==>
        State() == old(State()) && pendingRequests == old(pendingRequests)
      ensures Accepted(m, id, old(pendingRequests)) ==>
        State() == Next(old(State()), m.event)
        && pendingRequests == if m.rid == [] then old(pendingRequests) else old(pendingRequests) - {m.rid}
    {
      if m.mid != [] && m.mid != id {
        return;
      }
      if m.rid != [] {
        if m.rid !in pendingRequests {
          return;
        }
        pendingRequests := pendingRequests - {m.rid};
      }
      Store(Next(State(), m.event));
    }
  }
}
