// Volume bookkeeping of the Gonk audio manager:
// - the per-stream maximum, default and alias tables;
// - volume index validation;
// - the choice of one output device from a device bitmask;
// - the per-stream, per-device volume cache and its alias propagation;
// - the connected-device map;
// - parsing of the volume setting names.
//
// Android's AUDIO_* constants of system/audio.h are not part of this
// model; the values below are Android's. Device masks are 32-bit
// (`audio_devices_t`): ids are `uint32`, bit tests go through `bv32`.

module AudioManager {

  import opened Wrappers

  // Stream types (audio_stream_type_t).
  const StreamDefault: int := -1
  const VoiceCall: int := 0
  const System: int := 1
  const Ring: int := 2
  const Music: int := 3
  const Alarm: int := 4
  const Notification: int := 5
  const BluetoothSco: int := 6
  const EnforcedAudible: int := 7
  const Dtmf: int := 8
  const Tts: int := 9
  const StreamCount: int := 10

  /** An unsigned 32-bit value; audio devices are 32-bit masks (`audio_devices_t`). */
  newtype uint32 = x: int | 0 <= x < 0x1_0000_0000

  // Output devices (audio_devices_t).
  const DeviceNone: uint32 := 0
  const Earpiece: uint32 := 0x1
  const Speaker: uint32 := 0x2
  const WiredHeadset: uint32 := 0x4
  const WiredHeadphone: uint32 := 0x8
  const BluetoothScoHeadset: uint32 := 0x20
  const BluetoothA2dp: uint32 := 0x80
  const AllA2dp: uint32 := 0x380
  const HdmiArc: uint32 := 0x40000
  const Spdif: uint32 := 0x80000
  const AuxLine: uint32 := 0x200000
  const DeviceOutDefault: uint32 := 0x4000_0000
  const Line: uint32 := 0x20000
  /** An input device: AUDIO_DEVICE_BIT_IN with the wired-headset bit. */
  const InWiredHeadset: uint32 := 0x8000_0010

  /** sMaxStreamVolumeTbl */
  const MaxStreamVolume: seq<int> := [5, 15, 15, 15, 15, 15, 15, 15, 15, 15]

  /** sDefaultStreamVolumeTbl */
  const DefaultStreamVolume: seq<int> := [3, 8, 8, 8, 8, 8, 8, 15, 8, 8]

  /** sStreamVolumeAliasTbl: the stream whose volume a stream shares. */
  const StreamVolumeAlias: seq<int> :=
    [VoiceCall, Notification, Notification, Music, Alarm, Notification,
     BluetoothSco, EnforcedAudible, Dtmf, Tts]

  /** sChannelStreamTbl: the stream of each audio channel. */
  const ChannelStream: seq<int> :=
    [Music, Music, Notification, Alarm, VoiceCall, Ring, EnforcedAudible, System]

  // ---------------------------------------------------------------------
  // Tables

  /** Streams sharing a volume have the same default, so initialising them
      in stream order leaves each with its own default. */
  lemma DefaultsAgreeWithAlias()
    ensures |StreamVolumeAlias| == |DefaultStreamVolume| == StreamCount
    ensures forall s | 0 <= s < StreamCount ::
      0 <= StreamVolumeAlias[s] < StreamCount && DefaultStreamVolume[StreamVolumeAlias[s]] == DefaultStreamVolume[s]
  {
  }

  /** Every default volume is within its stream's range. */
  lemma DefaultVolumesWithinMaximum()
    ensures |DefaultStreamVolume| == |MaxStreamVolume| == StreamCount
    ensures forall s | 0 <= s < StreamCount :: 0 <= DefaultStreamVolume[s] <= MaxStreamVolume[s]
  {
  }

  /** The alias table maps streams to streams, aliases alias themselves, and
      aliased streams share the maximum, so an index needs no rescaling. */
  lemma AliasTableProperties()
    ensures |StreamVolumeAlias| == StreamCount
    ensures forall s | 0 <= s < StreamCount :: 0 <= StreamVolumeAlias[s] < StreamCount
    ensures forall s | 0 <= s < StreamCount :: StreamVolumeAlias[StreamVolumeAlias[s]] == StreamVolumeAlias[s]
    ensures forall s | 0 <= s < StreamCount :: MaxStreamVolume[StreamVolumeAlias[s]] == MaxStreamVolume[s]
  {
  }

  /** Streams other than `stream` whose alias is `stream`. */
  function AliasedBy(stream: int): (r: set<int>)
    ensures forall t | t in r :: 0 <= t < StreamCount && t != stream && StreamVolumeAlias[t] == stream
  {
    set t | 0 <= t < StreamCount && t != stream && StreamVolumeAlias[t] == stream
  }

  /** A stream that aliases another is aliased by none, so the alias
      propagation stops after one level. */
  lemma AliasedStreamsAliasNothing(stream: int, t: int)
    requires 0 <= stream < StreamCount && t in AliasedBy(stream)
    ensures AliasedBy(t) == {}
    ensures StreamVolumeAlias[stream] == stream
  {
    AliasTableProperties();
  }

  // ---------------------------------------------------------------------
  // Validation and device selection

  datatype Status = Ok | InvalidArg | Failure

  /** ValidateVolumeIndex */
  function ValidateVolumeIndex(stream: int, index: int): (r: Status)
    requires 0 <= index < 0x1_0000_0000
    ensures r == InvalidArg <==> stream <= StreamDefault || stream >= StreamCount
    ensures r == Ok <==> StreamDefault < stream < StreamCount && index <= MaxStreamVolume[stream]
    ensures r != Failure || index > MaxStreamVolume[stream]
  {
    if stream <= StreamDefault || stream >= StreamCount then InvalidArg
    else if index > MaxStreamVolume[stream] then Failure
    else Ok
  }

  /** Every stream accepts its default volume, which is what initialisation sets. */
  lemma DefaultVolumesValidate(stream: int)
    requires 0 <= stream < StreamCount
    ensures ValidateVolumeIndex(stream, DefaultStreamVolume[stream]) == Ok
  {
    DefaultVolumesWithinMaximum();
  }

  function Bits(d: uint32): bv32 {
    d as bv32
  }

  /** `d & (d - 1) != 0`: the mask holds more than one device. */
  predicate Multiple(d: uint32) {
    Bits(d) & (Bits(d) - 1) != 0
  }

  predicate Has(d: uint32, device: uint32) {
    Bits(d) & Bits(device) != 0
  }

  /** The choice among several selected devices: speaker first, then HDMI ARC,
      S/PDIF and the auxiliary line, else the A2DP devices of the mask. */
  function ChooseAmongDevices(device: uint32): (r: uint32)
    ensures Has(device, Speaker) ==> r == Speaker
    ensures !Has(device, Speaker) && Has(device, HdmiArc) ==> r == HdmiArc
  {
    if Has(device, Speaker) then Speaker
    else if Has(device, HdmiArc) then HdmiArc
    else if Has(device, Spdif) then Spdif
    else if Has(device, AuxLine) then AuxLine
    else (Bits(device) & Bits(AllA2dp)) as uint32
  }

  /** SelectDeviceFromDevices, with the forced-use setting of media given as `forceSpeaker`. */
  function SelectDeviceFromDevices(outDevices: uint32, forceSpeaker: bool): (r: uint32)
    ensures r != DeviceNone
    ensures forceSpeaker ==> r == Speaker
    ensures !forceSpeaker && outDevices == DeviceNone ==> r == Speaker
    ensures !forceSpeaker && outDevices != DeviceNone && !Multiple(outDevices) ==> r == outDevices
    ensures !forceSpeaker && Multiple(outDevices) ==> r == if ChooseAmongDevices(outDevices) == DeviceNone then Speaker else ChooseAmongDevices(outDevices)
  {
    var device := if forceSpeaker then Speaker else outDevices;
    var device := if Multiple(device) then ChooseAmongDevices(device) else device;
    if device == DeviceNone then Speaker else device
  }

  /** GetDevicesForStream is a stub returning no device, so every stream's
      device is the speaker. */
  lemma DeviceForStreamIsSpeaker(forceSpeaker: bool)
    ensures SelectDeviceFromDevices(DeviceNone, forceSpeaker) == Speaker
  {
  }

  // ---------------------------------------------------------------------
  // The volume cache of one stream

  /** mVolumeIndexes and mDevicesWithVolumeChange of a stream. */
  datatype VolumeCache = VolumeCache(indexes: map<uint32, int>, changed: bv32)

  /** GetVolumeIndex(aDevice): the device's index, else the default device's, else 0. */
  function CachedIndex(indexes: map<uint32, int>, device: uint32): (r: int)
    ensures device in indexes ==> r == indexes[device]
    ensures r in indexes.Values || r == 0
  {
    if device in indexes then indexes[device]
    else if DeviceOutDefault in indexes then indexes[DeviceOutDefault]
    else 0
  }

  /** A device without its own entry reads the default device's volume. */
  lemma CachedIndexFallsBack(indexes: map<uint32, int>, device: uint32)
    requires device !in indexes
    ensures CachedIndex(indexes, device) == CachedIndex(indexes, DeviceOutDefault)
  {
  }

  /** SetVolumeIndex(aIndex, aDevice) with the cache updated. */
  function Store(c: VolumeCache, index: int, device: uint32): VolumeCache {
    VolumeCache(c.indexes[device := index], c.changed | Bits(device))
  }

  /** A stored index is read back, and every other device with its own entry keeps it. */
  lemma StoreThenRead(c: VolumeCache, index: int, device: uint32, other: uint32)
    ensures CachedIndex(Store(c, index, device).indexes, device) == index
    ensures Store(c, index, device).changed & Bits(device) == Bits(device)
    ensures other != device && other in c.indexes ==>
      CachedIndex(Store(c, index, device).indexes, other) == CachedIndex(c.indexes, other)
  {
  }

  /** The devices SetVolumeIndexToConsistentDeviceIfNeeded writes. */
  function ConsistentDevices(deviceSpecific: bool, device: uint32): (r: seq<uint32>)
    ensures 1 <= |r| <= 2
    ensures !deviceSpecific ==> r == [DeviceOutDefault]
    ensures deviceSpecific ==> device in r
    ensures Speaker in r <==> Earpiece in r
    ensures forall d | d in r :: d == device || d == DeviceOutDefault || d == Speaker || d == Earpiece
  {
    if !deviceSpecific then [DeviceOutDefault]
    else if device == Speaker || device == Earpiece then [Speaker, Earpiece]
    else [device]
  }

  function StoreAll(c: VolumeCache, devices: seq<uint32>, index: int): (r: VolumeCache)
    decreases |devices|
  {
    if devices == [] then c else StoreAll(Store(c, index, devices[0]), devices[1..], index)
  }

  /** Storing to a list of devices gives each of them the index and leaves every other entry. */
  lemma {:induction false} StoreAllEffect(c: VolumeCache, devices: seq<uint32>, index: int)
    ensures forall d | d in devices :: d in StoreAll(c, devices, index).indexes && StoreAll(c, devices, index).indexes[d] == index
    ensures forall d | d !in devices :: (d in StoreAll(c, devices, index).indexes <==> d in c.indexes)
    ensures forall d | d !in devices && d in c.indexes :: StoreAll(c, devices, index).indexes[d] == c.indexes[d]
    decreases |devices|
  {
    if devices != [] {
      StoreAllEffect(Store(c, index, devices[0]), devices[1..], index);
      forall d | d in devices && d != devices[0]
        ensures d in devices[1..]
      {
      }
    }
  }

  /** What SetVolumeIndexToConsistentDeviceIfNeeded does to a cache. */
  function StoreConsistent(c: VolumeCache, deviceSpecific: bool, index: int, device: uint32): VolumeCache {
    StoreAll(c, ConsistentDevices(deviceSpecific, device), index)
  }

  /** A shared-volume stream stores under the default device only; a
      device-specific stream gives speaker and earpiece the same index. */
  lemma StoreConsistentEffect(c: VolumeCache, deviceSpecific: bool, index: int, device: uint32)
    ensures var r := StoreConsistent(c, deviceSpecific, index, device).indexes;
      (!deviceSpecific ==> r == c.indexes[DeviceOutDefault := index])
      && (deviceSpecific ==> device in r && r[device] == index)
      && (deviceSpecific && (device == Speaker || device == Earpiece) ==>
            Speaker in r && Earpiece in r && r[Speaker] == r[Earpiece] == index)
  {
    var devices := ConsistentDevices(deviceSpecific, device);
    StoreAllEffect(c, devices, index);
    if !deviceSpecific {
      var r := StoreConsistent(c, deviceSpecific, index, device).indexes;
      assert r.Keys == c.indexes[DeviceOutDefault := index].Keys;
    }
  }

  /** With the default device, both kinds of stream store under it alone. */
  lemma StoreConsistentAtDefault(c: VolumeCache, deviceSpecific: bool, index: int)
    ensures StoreConsistent(c, deviceSpecific, index, DeviceOutDefault).indexes == c.indexes[DeviceOutDefault := index]
  {
    assert ConsistentDevices(deviceSpecific, DeviceOutDefault) == [DeviceOutDefault];
    assert [DeviceOutDefault][1..] == [];
    assert StoreAll(c, [DeviceOutDefault], index) == StoreAll(Store(c, index, DeviceOutDefault), [], index);
  }

  /** The device already holds the index, so there is nothing to update. */
  predicate Holds(c: VolumeCache, index: int, device: uint32) {
    device in c.indexes && c.indexes[device] == index
  }

  /** The cache after SetVolumeIndexToAliasStreams reached a stream: unchanged
      when the device already holds the index, else the consistent update. */
  function AliasUpdate(c: VolumeCache, deviceSpecific: bool, index: int, device: uint32): VolumeCache {
    if Holds(c, index, device) then c
    else StoreConsistent(c, deviceSpecific, index, device)
  }

  /** The cache of stream `t` after the index reached stream `stream` (with
      the device not yet holding it): the stream itself stores it
      consistently, a stream aliased to it takes AliasUpdate, and any other
      stream is untouched. */
  function AliasResult(stream: int, t: int, c: VolumeCache, deviceSpecific: bool, index: int, device: uint32): VolumeCache
    requires 0 <= t < StreamCount
  {
    if t == stream then StoreConsistent(c, deviceSpecific, index, device)
    else if StreamVolumeAlias[t] == stream then AliasUpdate(c, deviceSpecific, index, device)
    else c
  }

  /** Reaching a stream that aliases another changes no other stream. */
  lemma LeafAliasResultIsUnchanged(t: int, u: int, c: VolumeCache, deviceSpecific: bool, index: int, device: uint32)
    requires 0 <= t < StreamCount && 0 <= u < StreamCount && u != t && StreamVolumeAlias[t] != t
    ensures AliasResult(t, u, c, deviceSpecific, index, device) == c
  {
    AliasTableProperties();
  }

  /** A stream's volumes while Init sets the defaults: nothing yet, or its
      default under the default device. */
  predicate InitShape(indexes: map<uint32, int>, t: int)
    requires 0 <= t < StreamCount
  {
    indexes == map[] || indexes == map[DeviceOutDefault := DefaultStreamVolume[t]]
  }

  /** When Init sets stream s's default under the default device, every
      stream sharing s's alias ends with its own default there. */
  lemma AliasResultOfInit(s: int, t: int, c: VolumeCache, deviceSpecific: bool)
    requires 0 <= s < StreamCount && 0 <= t < StreamCount
    requires InitShape(c.indexes, t) && StreamVolumeAlias[t] == StreamVolumeAlias[s]
    ensures AliasResult(StreamVolumeAlias[s], t, c, deviceSpecific, DefaultStreamVolume[s], DeviceOutDefault).indexes
      == map[DeviceOutDefault := DefaultStreamVolume[t]]
  {
    DefaultsAgreeWithAlias();
    StoreConsistentAtDefault(c, deviceSpecific, DefaultStreamVolume[s]);
  }

  /** The volume indexes of all streams after Init's loop has set the first
      s streams: each is empty or its default under the default device, the
      first s hold their default, and a stream is empty exactly when its
      alias is. */
  ghost predicate InitProgressOn(idx: seq<map<uint32, int>>, s: int)
    requires |idx| == StreamCount
  {
    && (forall t | 0 <= t < StreamCount :: InitShape(idx[t], t))
    && (forall t | 0 <= t < StreamCount && t < s :: idx[t] == map[DeviceOutDefault := DefaultStreamVolume[t]])
    && (forall t | 0 <= t < StreamCount :: (idx[t] == map[] <==> idx[StreamVolumeAlias[t]] == map[]))
  }

  /** A round that stores stream s's default into its alias group keeps the progress. */
  lemma InitStepStores(pre: seq<map<uint32, int>>, post: seq<map<uint32, int>>, s: int)
    requires |pre| == |post| == StreamCount && 0 <= s < StreamCount && InitProgressOn(pre, s)
    requires forall t | 0 <= t < StreamCount ::
      post[t] == if StreamVolumeAlias[t] == StreamVolumeAlias[s] then map[DeviceOutDefault := DefaultStreamVolume[t]] else pre[t]
    ensures InitProgressOn(post, s + 1)
  {
    AliasTableProperties();
    forall t | 0 <= t < StreamCount
      ensures post[t] == map[] <==> post[StreamVolumeAlias[t]] == map[]
    {
      assert StreamVolumeAlias[StreamVolumeAlias[t]] == StreamVolumeAlias[t];
    }
  }

  /** A round whose alias already holds a value under the default device
      changes nothing and finds stream s already set. */
  lemma InitStepHolds(idx: seq<map<uint32, int>>, s: int)
    requires |idx| == StreamCount && 0 <= s < StreamCount && InitProgressOn(idx, s)
    requires DeviceOutDefault in idx[StreamVolumeAlias[s]]
    ensures InitProgressOn(idx, s + 1)
  {
    AliasTableProperties();
    assert idx[StreamVolumeAlias[s]] != map[];
  }

  // ---------------------------------------------------------------------
  // Headset switches

  /** The values of hal::SwitchState that UpdateHeadsetConnectionState
      distinguishes; every other value is SwitchOther. */
  datatype SwitchState = SwitchOff | SwitchHeadset | SwitchHeadphone | SwitchLineout | SwitchOther

  /** UpdateDeviceConnectionState(true, device) with the empty address: a
      device already connected keeps its address. */
  function Connect(m: map<uint32, string>, device: uint32): (r: map<uint32, string>)
    ensures r.Keys == m.Keys + {device}
    ensures forall d | d in m :: r[d] == m[d]
  {
    if device in m then m else m[device := ""]
  }

  /** The connected devices after UpdateHeadsetConnectionState(state): a
      headset connects its output and input, headphones and line-out their
      output; "off" disconnects them, the headset input only together with
      the headset output. */
  function HeadsetConnections(m: map<uint32, string>, state: SwitchState): (r: map<uint32, string>)
    ensures state == SwitchHeadset ==> WiredHeadset in r && InWiredHeadset in r
    ensures state == SwitchHeadphone ==> WiredHeadphone in r
    ensures state == SwitchLineout ==> Line in r
    ensures state == SwitchOff ==> WiredHeadset !in r && WiredHeadphone !in r && Line !in r
    ensures state == SwitchOff ==> r.Keys <= m.Keys && (InWiredHeadset in r <==> InWiredHeadset in m && WiredHeadset !in m)
    ensures state != SwitchOff ==> m.Keys <= r.Keys && forall d | d in m :: r[d] == m[d]
    ensures state == SwitchOther ==> r == m
  {
    match state
    case SwitchHeadset => Connect(Connect(m, WiredHeadset), InWiredHeadset)
    case SwitchHeadphone => Connect(m, WiredHeadphone)
    case SwitchLineout => Connect(m, Line)
    case SwitchOff =>
      var kept := if WiredHeadset in m then m - {WiredHeadset, InWiredHeadset} else m;
      kept - {WiredHeadphone, Line}
    case SwitchOther => m
  }

  // ---------------------------------------------------------------------
  // VolumeStreamState

  /** The streams whose volume is the same on every device; each takes its
      volume from the notification, alarm or enforced-audible stream. */
  function IsSharedVolumeStream(streamType: int): (r: bool)
    ensures r ==> 0 <= streamType < StreamCount
    ensures r ==> StreamVolumeAlias[streamType] in {Notification, Alarm, EnforcedAudible}
  {
    streamType == System || streamType == Ring || streamType == Notification
    || streamType == Alarm || streamType == EnforcedAudible
  }

  class VolumeStreamState {
    const streamType: int
    const isDeviceSpecificVolume: bool
    var volumeIndexes: map<uint32, int>
    var devicesWithVolumeChange: bv32

    function Cache(): VolumeCache
      reads this
    {
      VolumeCache(volumeIndexes, devicesWithVolumeChange)
    }

    /** System, ring, notification, alarm and enforced-audible streams share
        one volume among all devices; the others keep one per device. */
    constructor (streamType: int)
      requires 0 <= streamType < StreamCount
      ensures this.streamType == streamType
      ensures isDeviceSpecificVolume <==> !IsSharedVolumeStream(streamType)
      ensures volumeIndexes == map[] && devicesWithVolumeChange == 0
    {
      this.streamType := streamType;
      isDeviceSpecificVolume := !IsSharedVolumeStream(streamType);
      volumeIndexes := map[];
      devicesWithVolumeChange := 0;
    }

    function GetMaxIndex(): (r: int)
      requires 0 <= streamType < StreamCount
      ensures 0 < r <= 15
    {
      MaxStreamVolume[streamType]
    }

    function GetVolumeIndex(device: uint32): int
      reads this
    {
      CachedIndex(volumeIndexes, device)
    }

    /** SetVolumeIndex: with the cache, the index is stored for the device and
        the device is marked as changed; without it, the cache stays. */
    method SetVolumeIndex(index: int, device: uint32, updateCache: bool)
      modifies this
      ensures Cache() == if updateCache then Store(old(Cache()), index, device) else old(Cache())
    {
      if updateCache {
        volumeIndexes := volumeIndexes[device := index];
        devicesWithVolumeChange := devicesWithVolumeChange | Bits(device);
      }
    }

    method SetVolumeIndexToConsistentDeviceIfNeeded(index: int, device: uint32)
      modifies this
      ensures Cache() == StoreConsistent(old(Cache()), isDeviceSpecificVolume, index, device)
    {
      if !isDeviceSpecificVolume {
        ghost var c0 := Cache();
        SetVolumeIndex(index, DeviceOutDefault, true);
        assert ConsistentDevices(isDeviceSpecificVolume, device) == [DeviceOutDefault];
        assert [DeviceOutDefault][1..] == [];
        assert StoreAll(c0, [DeviceOutDefault], index) == StoreAll(Store(c0, index, DeviceOutDefault), [], index);
      } else if device == Speaker || device == Earpiece {
        ghost var c0 := Cache();
        SetVolumeIndex(index, Speaker, true);
        SetVolumeIndex(index, Earpiece, true);
        assert ConsistentDevices(isDeviceSpecificVolume, device) == [Speaker, Earpiece];
        assert [Speaker, Earpiece][1..] == [Earpiece] && [Earpiece][1..] == [];
        calc {
          StoreAll(c0, [Speaker, Earpiece], index);
          StoreAll(Store(c0, index, Speaker), [Earpiece], index);
          StoreAll(Store(Store(c0, index, Speaker), index, Earpiece), [], index);
        }
      } else {
        ghost var c0 := Cache();
        SetVolumeIndex(index, device, true);
        assert ConsistentDevices(isDeviceSpecificVolume, device) == [device];
        assert [device][1..] == [];
        assert StoreAll(c0, [device], index) == StoreAll(Store(c0, index, device), [], index);
      }
    }
  }

  // ---------------------------------------------------------------------
  // AudioManager

  class Manager {
    /** mStreamStates: one state per stream type, in stream order. */
    const streamStates: seq<VolumeStreamState>
    /** mConnectedDevices: connected device to its address. */
    var connectedDevices: map<uint32, string>

    ghost predicate Valid() {
      |streamStates| == StreamCount
      && forall s | 0 <= s < StreamCount :: streamStates[s].streamType == s
    }

    /** The manager creates one stream state per stream type and runs
        Init: every stream gets its default volume under the default device,
        and the headphone and line-out switch states, read from the HAL, are
        applied in that order. */
    constructor (headphoneSwitch: SwitchState, lineoutSwitch: SwitchState)
      ensures Valid()
      ensures forall s | 0 <= s < StreamCount :: fresh(streamStates[s])
      ensures forall s | 0 <= s < StreamCount ::
        streamStates[s].volumeIndexes == map[DeviceOutDefault := DefaultStreamVolume[s]]
      ensures connectedDevices == HeadsetConnections(HeadsetConnections(map[], headphoneSwitch), lineoutSwitch)
    {
      var states: seq<VolumeStreamState> := [];
      for s := 0 to StreamCount
        invariant |states| == s
        invariant forall t | 0 <= t < s :: states[t].streamType == t && fresh(states[t]) && states[t].volumeIndexes == map[]
      {
        var state := new VolumeStreamState(s);
        states := states + [state];
      }
      streamStates := states;
      connectedDevices := map[];
      new;
      InitDefaultVolumes();
      UpdateHeadsetConnectionState(headphoneSwitch);
      UpdateHeadsetConnectionState(lineoutSwitch);
    }

    /** Init's loop over the streams: SetStreamVolumeForDevice with each
        stream's default under the default device, on the empty caches of a
        new manager. */
    method InitDefaultVolumes()
      requires Valid()
      requires forall s | 0 <= s < StreamCount :: streamStates[s].volumeIndexes == map[]
      modifies streamStates
      ensures forall s | 0 <= s < StreamCount ::
        streamStates[s].volumeIndexes == map[DeviceOutDefault := DefaultStreamVolume[s]]
    {
      AliasTableProperties();
      for s := 0 to StreamCount
        invariant InitProgress(s)
      {
        InitStreamVolume(s);
      }
    }

    /** The volume indexes of all streams, in stream order. */
    ghost function Indexes(): (r: seq<map<uint32, int>>)
      requires Valid()
      reads streamStates
      ensures |r| == StreamCount
      ensures forall t | 0 <= t < StreamCount :: r[t] == streamStates[t].volumeIndexes
    {
      seq(StreamCount, t requires 0 <= t < StreamCount reads streamStates => streamStates[t].volumeIndexes)
    }

    /** The caches after Init's loop has set the first s streams. */
    ghost predicate InitProgress(s: int)
      requires Valid()
      reads streamStates
    {
      InitProgressOn(Indexes(), s)
    }

    /** One round of Init's loop. */
    method InitStreamVolume(s: int)
      requires Valid() && 0 <= s < StreamCount && InitProgress(s)
      modifies streamStates
      ensures InitProgress(s + 1)
    {
      DefaultsAgreeWithAlias();
      AliasTableProperties();
      DefaultVolumesValidate(s);
      var a := StreamVolumeAlias[s];
      ghost var pre := Indexes();
      label before:
      var r := SetStreamVolumeForDevice(s, DefaultStreamVolume[s], DeviceOutDefault);
      if Holds(old@before(streamStates[a].Cache()), DefaultStreamVolume[s], DeviceOutDefault) {
        forall t | 0 <= t < StreamCount
          ensures Indexes()[t] == pre[t]
        {
          assert streamStates[t].Cache() == old@before(streamStates[t].Cache());
        }
        assert Indexes() == pre;
        InitStepHolds(pre, s);
      } else {
        forall t | 0 <= t < StreamCount
          ensures Indexes()[t] ==
            if StreamVolumeAlias[t] == a then map[DeviceOutDefault := DefaultStreamVolume[t]] else pre[t]
        {
          if StreamVolumeAlias[t] == a {
            AliasResultOfInit(s, t, old@before(streamStates[t].Cache()), streamStates[t].isDeviceSpecificVolume);
          }
        }
        InitStepStores(pre, Indexes(), s);
      }
    }

    /** UpdateHeadsetConnectionState */
    method UpdateHeadsetConnectionState(state: SwitchState)
      modifies this`connectedDevices
      ensures connectedDevices == HeadsetConnections(old(connectedDevices), state)
    {
      var headphoneConnected := WiredHeadphone in connectedDevices;
      var headsetConnected := WiredHeadset in connectedDevices;
      var lineoutConnected := Line in connectedDevices;
      match state {
        case SwitchHeadset =>
          UpdateDeviceConnectionState(true, WiredHeadset, "");
          UpdateDeviceConnectionState(true, InWiredHeadset, "");
        case SwitchHeadphone =>
          UpdateDeviceConnectionState(true, WiredHeadphone, "");
        case SwitchLineout =>
          UpdateDeviceConnectionState(true, Line, "");
        case SwitchOff =>
          if headsetConnected {
            UpdateDeviceConnectionState(false, WiredHeadset, "");
            UpdateDeviceConnectionState(false, InWiredHeadset, "");
          }
          if headphoneConnected {
            UpdateDeviceConnectionState(false, WiredHeadphone, "");
          }
          if lineoutConnected {
            UpdateDeviceConnectionState(false, Line, "");
          }
        case SwitchOther =>
      }
    }

    /** VolumeStreamState::SetVolumeIndexToAliasStreams of stream `stream`:
        nothing changes when the device already holds the index; otherwise
        the stream stores it consistently and passes it on to every stream
        aliased to it, and all other streams keep their caches. */
    method SetVolumeIndexToAliasStreams(stream: int, index: int, device: uint32)
      requires Valid() && 0 <= stream < StreamCount
      modifies streamStates
      ensures Holds(old(streamStates[stream].Cache()), index, device) ==>
        forall t | 0 <= t < StreamCount :: streamStates[t].Cache() == old(streamStates[t].Cache())
      ensures !Holds(old(streamStates[stream].Cache()), index, device) ==>
        forall t | 0 <= t < StreamCount ::
          streamStates[t].Cache() == AliasResult(stream, t, old(streamStates[t].Cache()), streamStates[t].isDeviceSpecificVolume, index, device)
      decreases if StreamVolumeAlias[stream] == stream then 1 else 0
    {
      var state := streamStates[stream];
      if device in state.volumeIndexes && state.volumeIndexes[device] == index {
        return;
      }
      state.SetVolumeIndexToConsistentDeviceIfNeeded(index, device);
      for t := 0 to StreamCount
        invariant forall u | 0 <= u < StreamCount ::
          streamStates[u].Cache() ==
            if u == stream || u < t then AliasResult(stream, u, old(streamStates[u].Cache()), streamStates[u].isDeviceSpecificVolume, index, device)
            else old(streamStates[u].Cache())
      {
        if t != stream && StreamVolumeAlias[t] == stream {
          assert t in AliasedBy(stream);
          AliasedStreamsAliasNothing(stream, t);
          label call:
          SetVolumeIndexToAliasStreams(t, index, device);
          forall u | 0 <= u < StreamCount && u != t
            ensures streamStates[u].Cache() == old@call(streamStates[u].Cache())
          {
            LeafAliasResultIsUnchanged(t, u, old@call(streamStates[u].Cache()), streamStates[u].isDeviceSpecificVolume, index, device);
          }
        }
      }
    }

    /** SetStreamVolumeForDevice: a valid index goes to the stream's alias and
        the streams sharing it, for the device. */
    method SetStreamVolumeForDevice(stream: int, index: int, device: uint32) returns (r: Status)
      requires Valid() && 0 <= index < 0x1_0000_0000
      modifies streamStates
      ensures r == Ok <==> ValidateVolumeIndex(stream, index) == Ok
      ensures r != Ok ==> r == InvalidArg
      ensures r != Ok ==> forall t | 0 <= t < StreamCount :: streamStates[t].Cache() == old(streamStates[t].Cache())
      ensures r == Ok ==>
        var a := StreamVolumeAlias[stream];
        !Holds(old(streamStates[a].Cache()), index, device) ==>
          forall t | 0 <= t < StreamCount ::
            streamStates[t].Cache() == AliasResult(a, t, old(streamStates[t].Cache()), streamStates[t].isDeviceSpecificVolume, index, device)
      ensures r == Ok ==>
        var a := StreamVolumeAlias[stream];
        Holds(old(streamStates[a].Cache()), index, device) ==>
          forall t | 0 <= t < StreamCount :: streamStates[t].Cache() == old(streamStates[t].Cache())
    {
      if ValidateVolumeIndex(stream, index) != Ok {
        return InvalidArg;
      }
      var alias := StreamVolumeAlias[stream];
      AliasTableProperties();
      SetVolumeIndexToAliasStreams(alias, index, device);
      return Ok;
    }

    /** SetStreamVolumeIndex: only validates, since the active-device update is a stub. */
    method SetStreamVolumeIndex(stream: int, index: int) returns (r: Status)
      requires 0 <= index < 0x1_0000_0000
      ensures r == Ok <==> ValidateVolumeIndex(stream, index) == Ok
      ensures r != Ok ==> r == InvalidArg
    {
      if ValidateVolumeIndex(stream, index) != Ok {
        return InvalidArg;
      }
      return Ok;
    }

    /** GetStreamVolumeIndex: the volume of a valid stream on its selected device. */
    function GetStreamVolumeIndex(stream: int, forceSpeaker: bool): (r: Option<int>)
      requires Valid()
      reads streamStates
      ensures r == None <==> stream <= StreamDefault || stream >= StreamCount
      ensures r.Some? ==> r.value == CachedIndex(streamStates[stream].volumeIndexes, Speaker)
    {
      if stream <= StreamDefault || stream >= StreamCount then None
      else Some(streamStates[stream].GetVolumeIndex(SelectDeviceFromDevices(DeviceNone, forceSpeaker)))
    }

    /** UpdateDeviceConnectionState: nothing changes when the state is the
        same; otherwise the device is added with its address or removed. */
    method UpdateDeviceConnectionState(isConnected: bool, device: uint32, address: string)
      modifies this`connectedDevices
      ensures device in connectedDevices <==> isConnected
      ensures isConnected == (device in old(connectedDevices)) ==> connectedDevices == old(connectedDevices)
      ensures isConnected && device !in old(connectedDevices) ==> connectedDevices == old(connectedDevices)[device := address]
      ensures !isConnected ==> connectedDevices == old(connectedDevices) - {device}
    {
      if isConnected == (device in connectedDevices) {
        return;
      }
      if isConnected {
        connectedDevices := connectedDevices[device := address];
      } else {
        connectedDevices := connectedDevices - {device};
      }
    }
  }

  // ---------------------------------------------------------------------
  // Volume setting names

  /** gVolumeData: setting name prefix and its stream. */
  const VolumeChannels: seq<(string, int)> := [
    ("audio.volume.content", Music),
    ("audio.volume.notification", Notification),
    ("audio.volume.alarm", Alarm),
    ("audio.volume.telephony", VoiceCall),
    ("audio.volume.bt_sco", BluetoothSco)]

  /** kAudioDeviceInfos: setting name suffix and its device. */
  const DeviceTags: seq<(string, uint32)> := [
    ("earpiece", Earpiece),
    ("speaker", Speaker),
    ("wired_headset", WiredHeadset),
    ("wired_headphone", WiredHeadphone),
    ("bt_scoheadset", BluetoothScoHeadset),
    ("bt_a2dp", BluetoothA2dp)]

  predicate BeginsWith(s: string, prefix: string) {
    |prefix| <= |s| && s[..|prefix|] == prefix
  }

  predicate EndsWith(s: string, suffix: string) {
    |suffix| <= |s| && s[|s| - |suffix|..] == suffix
  }

  datatype ParsedSetting = ParsedSetting(stream: int, device: uint32, volIndex: int)

  datatype ParseResult = NotANumber | UnknownSetting | Parsed(setting: ParsedSetting)

  /** The conversion of a signed 32-bit value to uint32_t: the one value in
      range that agrees with it modulo 2^32. */
  function Int32AsUint32(v: int): (r: int)
    requires -0x8000_0000 <= v < 0x8000_0000
    ensures 0 <= r < 0x1_0000_0000
    ensures (r - v) % 0x1_0000_0000 == 0
    ensures 0 <= v ==> r == v
  {
    if v < 0 then v + 0x1_0000_0000 else v
  }

  /** ParseVolumeSetting. `value` is what ToInteger made of the setting's
      value, None when it is not a number. The first channel name that
      begins `name` gives the stream, and the first device tag that ends it
      gives the device. */
  method ParseVolumeSetting(name: string, value: Option<int>) returns (r: ParseResult)
    requires value.Some? ==> -0x8000_0000 <= value.value < 0x8000_0000
    ensures r == NotANumber <==> value.None?
    ensures r == UnknownSetting <==> value.Some? && forall j | 0 <= j < |VolumeChannels| :: !BeginsWith(name, VolumeChannels[j].0)
    ensures r.Parsed? ==> exists j | 0 <= j < |VolumeChannels| ::
      BeginsWith(name, VolumeChannels[j].0) && r.setting.stream == VolumeChannels[j].1
    ensures r.Parsed? ==> (r.setting.device == DeviceNone <==> forall j | 0 <= j < |DeviceTags| :: !EndsWith(name, DeviceTags[j].0))
    ensures r.Parsed? && r.setting.device != DeviceNone ==> exists j | 0 <= j < |DeviceTags| ::
      (EndsWith(name, DeviceTags[j].0) && DeviceTags[j].1 == r.setting.device
       && forall k | 0 <= k < j :: !EndsWith(name, DeviceTags[k].0))
    ensures r.Parsed? ==> r.setting.volIndex == Int32AsUint32(value.value)
  {
    if value.None? {
      return NotANumber;
    }
    var volIndex := Int32AsUint32(value.value);
    for k := 0 to |VolumeChannels|
      invariant forall j | 0 <= j < k :: !BeginsWith(name, VolumeChannels[j].0)
    {
      if BeginsWith(name, VolumeChannels[k].0) {
        var device := DeviceNone;
        var t := 0;
        while t < |DeviceTags|
          invariant 0 <= t <= |DeviceTags|
          invariant forall j | 0 <= j < t :: !EndsWith(name, DeviceTags[j].0)
        {
          if EndsWith(name, DeviceTags[t].0) {
            device := DeviceTags[t].1;
            break;
          }
          t := t + 1;
        }
        return Parsed(ParsedSetting(VolumeChannels[k].1, device, volIndex));
      }
    }
    return UnknownSetting;
  }

  /** The channel names differ at their fourteenth character, so at most one
      of them begins a setting name. */
  lemma ChannelNamesArePrefixFree(name: string, j: int, k: int)
    requires 0 <= j < |VolumeChannels| && 0 <= k < |VolumeChannels|
    requires BeginsWith(name, VolumeChannels[j].0) && BeginsWith(name, VolumeChannels[k].0)
    ensures j == k
  {
    var a, b := VolumeChannels[j].0, VolumeChannels[k].0;
    assert |a| > 13 && |b| > 13;
    assert a[13] == name[..|a|][13] == name[13] == name[..|b|][13] == b[13];
    assert [VolumeChannels[0].0[13], VolumeChannels[1].0[13], VolumeChannels[2].0[13],
            VolumeChannels[3].0[13], VolumeChannels[4].0[13]] == ['c', 'n', 'a', 't', 'b'];
  }
}
