// The configuration bookkeeping of the Wi-Fi supplicant station manager:
// WPS config-method parsing, configuration equality, the per-interface
// configuration cache, argument checks and the death-notice filter.

module SupplicantSta {

  // ---------------------------------------------------------------------
  // Results

  /** The nsIWifiResult codes the modelled operations return. */
  datatype WifiResult =
    | Success
    | ErrorInvalidInterface
    | ErrorInvalidArgs
    | ErrorCommandFailed
    | ErrorUnknown

  // ---------------------------------------------------------------------
  // WPS config methods

  /** The WpsConfigMethods flags of the supplicant interface. */
  const Usba: bv16 := 0x0001
  const Ethernet: bv16 := 0x0002
  const Label: bv16 := 0x0004
  const Display: bv16 := 0x0008
  const ExtNfcToken: bv16 := 0x0010
  const IntNfcToken: bv16 := 0x0020
  const NfcInterface: bv16 := 0x0040
  const PushButton: bv16 := 0x0080
  const Keypad: bv16 := 0x0100
  const VirtPushButton: bv16 := 0x0280
  const PhyPushButton: bv16 := 0x0480
  const P2ps: bv16 := 0x1000
  const VirtDisplay: bv16 := 0x2008
  const PhyDisplay: bv16 := 0x4008

  /** The config-method names the manager recognises. */
  const KnownMethods: set<string> := {
    "usba", "ethernet", "label", "display", "int_nfc_token", "ext_nfc_token",
    "nfc_interface", "push_button", "keypad", "virtual_push_button",
    "physical_push_button", "p2ps", "virtual_display", "physical_display"}

  /** The flag one config-method token contributes; an unknown token adds none. */
  function MethodFlag(token: string): (r: bv16)
    ensures r == 0 <==> token !in KnownMethods
  {
    if token == "usba" then Usba
    else if token == "ethernet" then Ethernet
    else if token == "label" then Label
    else if token == "display" then Display
    else if token == "int_nfc_token" then IntNfcToken
    else if token == "ext_nfc_token" then ExtNfcToken
    else if token == "nfc_interface" then NfcInterface
    else if token == "push_button" then PushButton
    else if token == "keypad" then Keypad
    else if token == "virtual_push_button" then VirtPushButton
    else if token == "physical_push_button" then PhyPushButton
    else if token == "p2ps" then P2ps
    else if token == "virtual_display" then VirtDisplay
    else if token == "physical_display" then PhyDisplay
    else 0
  }

  /** The index of the first space in s, |s| without one. */
  function SpaceIndex(s: string): (k: nat)
    ensures k <= |s|
    ensures k < |s| ==> s[k] == ' '
    ensures forall i | 0 <= i < k :: s[i] != ' '
  {
    if s == [] || s[0] == ' ' then 0 else 1 + SpaceIndex(s[1..])
  }

  /** The tokens std::getline(stream, method, ' ') reads from s: the pieces
      between spaces, where a space at the very end opens no further token. */
  function Tokens(s: string): (r: seq<string>)
    ensures forall t | t in r :: ' ' !in t
    ensures s == [] <==> r == []
    decreases |s|
  {
    if s == [] then []
    else
      var k := SpaceIndex(s);
      if k == |s| then [s] else [s[..k]] + Tokens(s[k + 1..])
  }

  /** Joining tokens with single spaces, the inverse of Tokens. */
  function Join(ts: seq<string>): string {
    if ts == [] then [] else if |ts| == 1 then ts[0] else ts[0] + " " + Join(ts[1..])
  }

  /** Tokens gives back the pieces that were joined, when none holds a space
      and the last is not empty. */
  lemma {:induction false} TokensOfJoin(ts: seq<string>)
    requires forall t | t in ts :: ' ' !in t
    requires ts != [] ==> ts[|ts| - 1] != []
    ensures Tokens(Join(ts)) == ts
    decreases |ts|
  {
    if |ts| == 1 {
      SpaceIndexOfSpaceFree(ts[0], []);
    } else if |ts| > 1 {
      var rest := Join(ts[1..]);
      SpaceIndexOfSpaceFree(ts[0], " " + rest);
      assert Join(ts) == ts[0] + (" " + rest);
      var s := Join(ts);
      assert s[|ts[0]| + 1..] == rest;
      assert s[..|ts[0]|] == ts[0];
      TokensOfJoin(ts[1..]);
    }
  }

  /** The first space after a space-free prefix is right after it. */
  lemma {:induction false} SpaceIndexOfSpaceFree(t: string, rest: string)
    requires ' ' !in t
    requires rest == [] || rest[0] == ' '
    ensures SpaceIndex(t + rest) == |t|
    decreases |t|
  {
    if t != [] {
      assert (t + rest)[1..] == t[1..] + rest;
      SpaceIndexOfSpaceFree(t[1..], rest);
    } else {
      assert t + rest == rest;
    }
  }

  /** The mask made of the flags of a token list, OR-ed from the left. */
  function MaskOf(tokens: seq<string>): bv16 {
    if tokens == [] then 0
    else MaskOf(tokens[..|tokens| - 1]) | MethodFlag(tokens[|tokens| - 1])
  }

  /** ConvertToWpsConfigMethod: OR-s the flag of every token into the mask. */
  method ConvertToWpsConfigMethod(configMethod: string) returns (mask: bv16)
    ensures mask == MaskOf(Tokens(configMethod))
  {
    var tokens := Tokens(configMethod);
    mask := 0;
    var i := 0;
    while i < |tokens|
      invariant 0 <= i <= |tokens|
      invariant mask == MaskOf(tokens[..i])
    {
      assert tokens[..i + 1][..i] == tokens[..i];
      mask := mask | MethodFlag(tokens[i]);
      i := i + 1;
    }
    assert tokens[..i] == tokens;
  }

  /** The mask of a concatenation is the OR of the masks. */
  lemma {:induction false} MaskOfAppend(a: seq<string>, b: seq<string>)
    ensures MaskOf(a + b) == MaskOf(a) | MaskOf(b)
    decreases |b|
  {
    if b == [] {
      assert a + b == a;
    } else {
      var b' := b[..|b| - 1];
      assert (a + b)[..|a + b| - 1] == a + b';
      assert (a + b)[|a + b| - 1] == b[|b| - 1];
      MaskOfAppend(a, b');
    }
  }

  /** Every token's flag is inside the mask of a list holding it. */
  lemma {:induction false} MaskHoldsEachFlag(tokens: seq<string>, t: string)
    requires t in tokens
    ensures MaskOf(tokens) | MethodFlag(t) == MaskOf(tokens)
    decreases |tokens|
  {
    var last := tokens[|tokens| - 1];
    var init := tokens[..|tokens| - 1];
    if t != last {
      assert t in init by {
        assert tokens == init + [last];
      }
      MaskHoldsEachFlag(init, t);
    }
  }

  /** The mask of a list is inside the mask of any list holding all its tokens. */
  lemma {:induction false} MaskOfSubset(a: seq<string>, b: seq<string>)
    requires forall t | t in a :: t in b
    ensures MaskOf(a) | MaskOf(b) == MaskOf(b)
    decreases |a|
  {
    if a != [] {
      var init := a[..|a| - 1];
      assert forall t | t in init :: t in a;
      MaskOfSubset(init, b);
      MaskHoldsEachFlag(b, a[|a| - 1]);
    }
  }

  /** The mask depends only on which tokens occur, not on their order or
      how often each one is repeated. */
  lemma WpsMaskIgnoresOrderAndRepeats(a: seq<string>, b: seq<string>)
    requires forall t :: t in a <==> t in b
    ensures MaskOf(a) == MaskOf(b)
  {
    MaskOfSubset(a, b);
    MaskOfSubset(b, a);
  }

  /** An unrecognised token leaves the mask as it is. */
  lemma UnknownMethodAddsNothing(a: seq<string>, t: string)
    requires t !in KnownMethods
    ensures MaskOf(a + [t]) == MaskOf(a)
  {
    assert (a + [t])[..|a + [t]| - 1] == a;
  }

  // ---------------------------------------------------------------------
  // Network configurations

  /** INVALID_NETWORK_ID. */
  const InvalidNetworkId := -1

  /** The fields of a NetworkConfiguration the modelled operations read;
      `networkKey` is the value of its GetNetworkKey(). */
  datatype NetworkConfiguration = NetworkConfiguration(
    networkId: int, ssid: string, bssid: string, keyMgmt: string, psk: string,
    networkKey: string)

  /** CompareCredential: the key management and the pre-shared key agree. */
  function CompareCredential(a: NetworkConfiguration, b: NetworkConfiguration): (r: bool)
    ensures r <==> a.keyMgmt == b.keyMgmt && a.psk == b.psk
  {
    if a.keyMgmt != b.keyMgmt then false
    else if a.psk != b.psk then false
    else true
  }

  /** CompareConfiguration: network id, SSID and credentials agree. */
  function CompareConfiguration(a: NetworkConfiguration, b: NetworkConfiguration): (r: bool)
    ensures r <==> a.networkId == b.networkId && a.ssid == b.ssid && a.keyMgmt == b.keyMgmt && a.psk == b.psk
  {
    if a.networkId != b.networkId then false
    else if a.ssid != b.ssid then false
    else if !CompareCredential(a, b) then false
    else true
  }

  /** CompareConfiguration is an equivalence relation. */
  lemma CompareConfigurationIsEquivalence(a: NetworkConfiguration, b: NetworkConfiguration, c: NetworkConfiguration)
    ensures CompareConfiguration(a, a)
    ensures CompareConfiguration(a, b) == CompareConfiguration(b, a)
    ensures CompareConfiguration(a, b) && CompareConfiguration(b, c) ==> CompareConfiguration(a, c)
  {
  }

  /** The three edits ModifyConfigurationHash performs. */
  datatype HashAction = CleanAll | EraseConfig | AddConfig

  /** The configuration map after an edit for interface `name`. */
  function ModifiedHash(m: map<string, NetworkConfiguration>, name: string, action: HashAction, config: NetworkConfiguration): map<string, NetworkConfiguration> {
    match action
    case CleanAll => map[]
    case EraseConfig => m - {name}
    case AddConfig => if name in m then m else m[name := config]
  }

  /** CLEAN_ALL empties the map; ERASE_CONFIG removes the interface's entry
      and keeps every other one; ADD_CONFIG inserts only when there is no
      entry, so an existing configuration is never overwritten. */
  lemma ModifiedHashEffect(m: map<string, NetworkConfiguration>, name: string, action: HashAction, config: NetworkConfiguration)
    ensures action == CleanAll ==> ModifiedHash(m, name, action, config) == map[]
    ensures action == EraseConfig ==>
      name !in ModifiedHash(m, name, action, config)
      && forall n | n != name :: (n in ModifiedHash(m, name, action, config) <==> n in m)
    ensures action == AddConfig ==>
      name in ModifiedHash(m, name, action, config)
      && ModifiedHash(m, name, action, config)[name] == (if name in m then m[name] else config)
    ensures action != CleanAll ==> forall n | n != name && n in m ::
      n in ModifiedHash(m, name, action, config) && ModifiedHash(m, name, action, config)[n] == m[n]
  {
  }

  /** ERASE_CONFIG followed by ADD_CONFIG, as ConnectToNetwork does, makes the
      new configuration the interface's, whatever was there. */
  lemma EraseThenAddReplaces(m: map<string, NetworkConfiguration>, name: string, dummy: NetworkConfiguration, config: NetworkConfiguration)
    ensures var m' := ModifiedHash(ModifiedHash(m, name, EraseConfig, dummy), name, AddConfig, config);
      name in m' && m'[name] == config && m'.Keys == m.Keys + {name}
  {
    var m' := ModifiedHash(ModifiedHash(m, name, EraseConfig, dummy), name, AddConfig, config);
    assert m'.Keys == m.Keys + {name};
  }

  /** What RoamToNetwork does with a requested configuration. */
  datatype RoamAction = RejectInvalidId | Connect | Roam

  // ---------------------------------------------------------------------
  // The manager

  class StaManager {
    /** mInterfaceName */
    var interfaceName: string
    /** mCurrentConfiguration: interface name to its configuration. */
    var currentConfiguration: map<string, NetworkConfiguration>
    /** mDummyNetworkConfiguration */
    const dummyConfiguration: NetworkConfiguration
    /** mSupplicantStaIface is set. */
    var hasStaInterface: bool
    /** mDeathRecipientCookie */
    var deathRecipientCookie: int
    /** mDeathEventHandler is set. */
    var hasDeathHandler: bool
    /** How many times the death handler's OnDeath has been called. */
    var deathNotices: nat

    constructor (dummy: NetworkConfiguration)
      ensures dummyConfiguration == dummy
      ensures currentConfiguration == map[] && !hasStaInterface && !hasDeathHandler
      ensures deathRecipientCookie == 0 && deathNotices == 0 && interfaceName == []
    {
      dummyConfiguration := dummy;
      interfaceName := [];
      currentConfiguration := map[];
      hasStaInterface := false;
      deathRecipientCookie := 0;
      hasDeathHandler := false;
      deathNotices := 0;
    }

    /** GetCurrentConfiguration: the current interface's configuration, else the dummy one. */
    function GetCurrentConfiguration(): (r: NetworkConfiguration)
      reads this
      ensures interfaceName in currentConfiguration ==> r == currentConfiguration[interfaceName]
      ensures interfaceName !in currentConfiguration ==> r == dummyConfiguration
    {
      if interfaceName in currentConfiguration then currentConfiguration[interfaceName]
      else dummyConfiguration
    }

    /** ModifyConfigurationHash */
    method ModifyConfigurationHash(action: HashAction, config: NetworkConfiguration)
      modifies this`currentConfiguration
      ensures currentConfiguration == ModifiedHash(old(currentConfiguration), interfaceName, action, config)
    {
      match action {
        case CleanAll =>
          currentConfiguration := map[];
        case EraseConfig =>
          currentConfiguration := currentConfiguration - {interfaceName};
        case AddConfig =>
          if interfaceName !in currentConfiguration {
            currentConfiguration := currentConfiguration[interfaceName := config];
          }
      }
    }

    /** After ERASE_CONFIG the current configuration is the dummy one. */
    method EraseCurrentConfiguration()
      modifies this`currentConfiguration
      ensures GetCurrentConfiguration() == dummyConfiguration
      ensures currentConfiguration == old(currentConfiguration) - {interfaceName}
    {
      ModifyConfigurationHash(EraseConfig, dummyConfiguration);
    }

    /** SetCountryCode: without a station interface the call fails with
        ERROR_INVALID_INTERFACE, a code that is not two characters long
        with ERROR_INVALID_ARGS; otherwise the two characters go to the HAL,
        whose outcome is `halResult`. */
    function SetCountryCode(countryCode: string, halResult: WifiResult): (r: (WifiResult, seq<char>))
      reads this
      ensures !hasStaInterface ==> r == (ErrorInvalidInterface, [])
      ensures hasStaInterface && |countryCode| != 2 ==> r == (ErrorInvalidArgs, [])
      ensures hasStaInterface && |countryCode| == 2 ==> r.0 == halResult && r.1 == countryCode
      ensures r.1 != [] ==> |r.1| == 2
    {
      if !hasStaInterface then (ErrorInvalidInterface, [])
      else if |countryCode| != 2 then (ErrorInvalidArgs, [])
      else (halResult, [countryCode[0], countryCode[1]])
    }

    /** RoamToNetwork: an invalid requested id is rejected; a different
        network, or no current one, goes to ConnectToNetwork; otherwise the
        manager roams within the current network. */
    function RoamToNetwork(config: NetworkConfiguration): (r: RoamAction)
      reads this
      ensures r == RejectInvalidId <==> config.networkId == InvalidNetworkId
      ensures r == Roam <==>
        config.networkId != InvalidNetworkId
        && GetCurrentConfiguration().networkId == config.networkId
        && GetCurrentConfiguration().networkKey == config.networkKey
    {
      var current := GetCurrentConfiguration();
      if config.networkId == InvalidNetworkId then RejectInvalidId
      else if current.networkId == InvalidNetworkId
           || config.networkId != current.networkId
           || config.networkKey != current.networkKey then Connect
      else Roam
    }

    method RegisterDeathHandler()
      modifies this`hasDeathHandler
      ensures hasDeathHandler
    {
      hasDeathHandler := true;
    }

    method UnregisterDeathHandler()
      modifies this`hasDeathHandler
      ensures !hasDeathHandler
    {
      hasDeathHandler := false;
    }

    /** SupplicantServiceDiedHandler: a stale cookie is ignored; otherwise the
        death handler, when one is registered, is told once. */
    method SupplicantServiceDiedHandler(cookie: int)
      modifies this`deathNotices
      ensures cookie != deathRecipientCookie ==> deathNotices == old(deathNotices)
      ensures cookie == deathRecipientCookie ==>
        deathNotices == old(deathNotices) + (if hasDeathHandler then 1 else 0)
    {
      if deathRecipientCookie != cookie {
        return;
      }
      if hasDeathHandler {
        deathNotices := deathNotices + 1;
      }
    }
  }
}
