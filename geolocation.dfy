// The network geolocation provider: the cached request, the rules that
// decide whether the cached position beats a new server request, the
// request data and the mobile signal conversion.

module Geolocation {
  import opened Wrappers

  // ---------------------------------------------------------------------
  // Request data

  /** A cell tower as getMobileInfo reports it. The radio type and signal
      are undefined (None) for radio technologies without a case. */
  datatype CellTower = CellTower(
    radioType: Option<string>, mobileCountryCode: int, mobileNetworkCode: int,
    locationAreaCode: int, cellId: int, signalStrength: Option<int>)

  /** A Wi-Fi access point of the request. */
  datatype AccessPoint = AccessPoint(macAddress: string, signalStrength: int)

  /** The fields a cell key is made of, joined with ':' in the source. The
      decimal numbers hold no ':', so the joined string and this tuple
      determine each other. */
  datatype CellKey = CellKey(
    radio: Option<string>, mobileCountryCode: int, mobileNetworkCode: int,
    locationAreaCode: int, cellId: int)

  /** makeCellKey as written: it reads `cell.radio`, a property the towers
      of getMobileInfo do not have (they carry `radioType`), so this part of
      the key is always undefined. */
  function CellKeyAsWritten(cell: CellTower): (k: CellKey)
    ensures k.radio == None
    ensures k.cellId == cell.cellId && k.locationAreaCode == cell.locationAreaCode
  {
    CellKey(None, cell.mobileCountryCode, cell.mobileNetworkCode, cell.locationAreaCode, cell.cellId)
  }

  /** Two towers that differ only in their radio technology get the same
      key as written, so a GSM cache entry matches an LTE request. */
  lemma AsWrittenKeyIgnoresRadio()
    ensures var gsm := CellTower(Some("gsm"), 208, 1, 100, 42, Some(-80));
      var lte := CellTower(Some("lte"), 208, 1, 100, 42, Some(-80));
      gsm != lte && CellKeyAsWritten(gsm) == CellKeyAsWritten(lte)
  {
  }

  /** makeCellKey with the radio type the tower carries. */
  function MakeCellKey(cell: CellTower): (k: CellKey)
    ensures k.radio == cell.radioType
    ensures k == CellKeyAsWritten(cell) <==> cell.radioType.None?
  {
    CellKey(cell.radioType, cell.mobileCountryCode, cell.mobileNetworkCode, cell.locationAreaCode, cell.cellId)
  }

  /** Two towers have the same key exactly when they agree in everything but
      the signal strength. */
  lemma MakeCellKeyIdentifiesCell(a: CellTower, b: CellTower)
    ensures MakeCellKey(a) == MakeCellKey(b) <==> a.(signalStrength := b.signalStrength) == b
  {
  }

  // ---------------------------------------------------------------------
  // The cached request

  /** A CachedRequest: the accuracy of its location and the key sets of the
      cells and access points it was made from. */
  datatype CachedRequest = CachedRequest(accuracy: real, cells: set<CellKey>, wifis: set<string>)

  function CellKeys(cellInfo: seq<CellTower>): set<CellKey> {
    set c | c in cellInfo :: MakeCellKey(c)
  }

  function MacAddresses(wifiList: seq<AccessPoint>): set<string> {
    set w | w in wifiList :: w.macAddress
  }

  /** CachedRequest(loc, cellInfo, wifiList): the set loops over a missing
      list give an empty set. */
  method NewCachedRequest(accuracy: real, cellInfo: Option<seq<CellTower>>, wifiList: Option<seq<AccessPoint>>)
    returns (r: CachedRequest)
    ensures r.accuracy == accuracy
    ensures r.wifis == if wifiList.Some? then MacAddresses(wifiList.value) else {}
    ensures r.cells == if cellInfo.Some? then CellKeys(cellInfo.value) else {}
  {
    var wifis: set<string> := {};
    if wifiList.Some? {
      var list := wifiList.value;
      for i := 0 to |list|
        invariant wifis == MacAddresses(list[..i])
      {
        assert list[..i + 1] == list[..i] + [list[i]];
        wifis := wifis + {list[i].macAddress};
      }
      assert list[..|list|] == list;
    }
    var cells: set<CellKey> := {};
    if cellInfo.Some? {
      var info := cellInfo.value;
      for i := 0 to |info|
        invariant cells == CellKeys(info[..i])
      {
        assert info[..i + 1] == info[..i] + [info[i]];
        cells := cells + {MakeCellKey(info[i])};
      }
      assert info[..|info|] == info;
    }
    r := CachedRequest(accuracy, cells, wifis);
  }

  predicate HasCells(c: CachedRequest) { |c.cells| > 0 }
  predicate HasWifis(c: CachedRequest) { |c.wifis| > 0 }
  function IsGeoip(c: CachedRequest): (r: bool)
    ensures r <==> c.cells == {} && c.wifis == {}
  { !HasCells(c) && !HasWifis(c) }
  function IsCellAndWifi(c: CachedRequest): (r: bool)
    ensures r <==> c.cells != {} && c.wifis != {}
  { HasCells(c) && HasWifis(c) }
  function IsCellOnly(c: CachedRequest): (r: bool)
    ensures r <==> c.cells != {} && c.wifis == {}
  { HasCells(c) && !HasWifis(c) }
  function IsWifiOnly(c: CachedRequest): (r: bool)
    ensures r <==> c.wifis != {} && c.cells == {}
  { HasWifis(c) && !HasCells(c) }

  /** Every cached request has exactly one of the four classes. */
  lemma ExactlyOneClass(c: CachedRequest)
    ensures (if IsGeoip(c) then 1 else 0) + (if IsCellAndWifi(c) then 1 else 0)
      + (if IsCellOnly(c) then 1 else 0) + (if IsWifiOnly(c) then 1 else 0) == 1
  {
  }

  /** The loop of isCellEqual from index i on: every key is cached. The
      keys are the corrected MakeCellKey keys, not CellKeyAsWritten. */
  function AllCellsCached(cells: set<CellKey>, cellInfo: seq<CellTower>, i: nat): (r: bool)
    requires i <= |cellInfo|
    ensures r <==> forall j | i <= j < |cellInfo| :: MakeCellKey(cellInfo[j]) in cells
    decreases |cellInfo| - i
  {
    if i == |cellInfo| then true
    else if MakeCellKey(cellInfo[i]) !in cells then false
    else AllCellsCached(cells, cellInfo, i + 1)
  }

  /** isCellEqual: false without cached cells; otherwise the sizes agree and
      every new cell is cached, compared by the corrected MakeCellKey. */
  function IsCellEqual(c: CachedRequest, cellInfo: seq<CellTower>): (r: bool)
    ensures r <==> HasCells(c) && |c.cells| == |cellInfo| && forall t | t in cellInfo :: MakeCellKey(t) in c.cells
  {
    if !HasCells(c) then false
    else if |c.cells| != |cellInfo| then false
    else AllCellsCached(c.cells, cellInfo, 0)
  }

  predicate DistinctCells(cellInfo: seq<CellTower>) {
    forall i, j | 0 <= i < j < |cellInfo| :: MakeCellKey(cellInfo[i]) != MakeCellKey(cellInfo[j])
  }

  /** Towers with distinct keys have as many keys as towers. */
  lemma {:induction false} DistinctCellKeysCount(cellInfo: seq<CellTower>)
    requires DistinctCells(cellInfo)
    ensures |CellKeys(cellInfo)| == |cellInfo|
    decreases |cellInfo|
  {
    if cellInfo != [] {
      var init := cellInfo[..|cellInfo| - 1];
      var last := cellInfo[|cellInfo| - 1];
      assert cellInfo == init + [last];
      assert CellKeys(cellInfo) == CellKeys(init) + {MakeCellKey(last)};
      assert MakeCellKey(last) !in CellKeys(init) by {
        forall t | t in init
          ensures MakeCellKey(t) != MakeCellKey(last)
        {
          var i :| 0 <= i < |init| && init[i] == t;
          assert cellInfo[i] == t;
        }
      }
      assert DistinctCells(init) by {
        forall i, j | 0 <= i < j < |init|
          ensures MakeCellKey(init[i]) != MakeCellKey(init[j])
        {
          assert init[i] == cellInfo[i] && init[j] == cellInfo[j];
        }
      }
      DistinctCellKeysCount(init);
    }
  }

  /** A subset as large as its superset is the whole set. */
  lemma SubsetOfSameSize<T>(a: set<T>, b: set<T>)
    requires a <= b && |a| == |b|
    ensures a == b
  {
    assert |b - a| == |b| - |a|;
  }

  /** For towers with distinct keys, isCellEqual holds exactly when the
      new key set is the cached one (and not empty). */
  lemma CellEqualIsSetEquality(c: CachedRequest, cellInfo: seq<CellTower>)
    requires DistinctCells(cellInfo)
    ensures IsCellEqual(c, cellInfo) <==> c.cells != {} && CellKeys(cellInfo) == c.cells
  {
    DistinctCellKeysCount(cellInfo);
    if IsCellEqual(c, cellInfo) {
      assert CellKeys(cellInfo) <= c.cells;
      SubsetOfSameSize(CellKeys(cellInfo), c.cells);
    }
    if c.cells != {} && CellKeys(cellInfo) == c.cells {
      forall t | t in cellInfo
        ensures MakeCellKey(t) in c.cells
      {
      }
    }
  }

  /** The common counter of isWifiApproxEqual over the new list. */
  function CommonCount(wifis: set<string>, wifiList: seq<AccessPoint>): (n: nat)
    ensures n <= |wifiList|
  {
    if wifiList == [] then 0
    else (if wifiList[0].macAddress in wifis then 1 else 0) + CommonCount(wifis, wifiList[1..])
  }

  function Max(a: int, b: int): int { if a < b then b else a }

  /** isWifiApproxEqual: false without cached access points; otherwise the
      common count is at least half of the larger list, with 0.5 times an
      integer compared exactly as twice the count. */
  function IsWifiApproxEqual(c: CachedRequest, wifiList: seq<AccessPoint>): (r: bool)
    ensures r <==> HasWifis(c) && 2 * CommonCount(c.wifis, wifiList) >= Max(|c.wifis|, |wifiList|)
  {
    HasWifis(c) && 2 * CommonCount(c.wifis, wifiList) >= Max(|c.wifis|, |wifiList|)
  }

  predicate DistinctMacs(wifiList: seq<AccessPoint>) {
    forall i, j | 0 <= i < j < |wifiList| :: wifiList[i].macAddress != wifiList[j].macAddress
  }

  lemma MacAddressesCons(wifiList: seq<AccessPoint>)
    requires wifiList != []
    ensures MacAddresses(wifiList) == {wifiList[0].macAddress} + MacAddresses(wifiList[1..])
  {
    assert wifiList == [wifiList[0]] + wifiList[1..];
  }

  /** The tail of a list with distinct addresses has distinct addresses
      without the head's. */
  lemma DistinctMacsTail(wifiList: seq<AccessPoint>)
    requires wifiList != [] && DistinctMacs(wifiList)
    ensures DistinctMacs(wifiList[1..])
    ensures wifiList[0].macAddress !in MacAddresses(wifiList[1..])
  {
    var rest := wifiList[1..];
    forall i, j | 0 <= i < j < |rest|
      ensures rest[i].macAddress != rest[j].macAddress
    {
      assert rest[i] == wifiList[i + 1] && rest[j] == wifiList[j + 1];
    }
    forall w | w in rest
      ensures w.macAddress != wifiList[0].macAddress
    {
      var i :| 0 <= i < |rest| && rest[i] == w;
      assert wifiList[i + 1] == w;
    }
  }

  /** With distinct addresses, the common count is the size of the
      intersection of the two address sets. */
  lemma {:induction false} CommonCountIsIntersection(wifis: set<string>, wifiList: seq<AccessPoint>)
    requires DistinctMacs(wifiList)
    ensures CommonCount(wifis, wifiList) == |wifis * MacAddresses(wifiList)|
    decreases |wifiList|
  {
    if wifiList == [] {
      assert MacAddresses(wifiList) == {};
    } else {
      var rest := wifiList[1..];
      var m := wifiList[0].macAddress;
      DistinctMacsTail(wifiList);
      MacAddressesCons(wifiList);
      CommonCountIsIntersection(wifis, rest);
      var common := wifis * MacAddresses(rest);
      assert m !in common;
      if m in wifis {
        assert wifis * MacAddresses(wifiList) == {m} + common;
        assert |{m} + common| == |common| + 1;
      } else {
        assert wifis * MacAddresses(wifiList) == common;
      }
    }
  }

  /** A request whose distinct access points are exactly the cached ones
      is approximately equal to the cache. */
  lemma SameAccessPointsAreApproxEqual(c: CachedRequest, wifiList: seq<AccessPoint>)
    requires DistinctMacs(wifiList) && c.wifis == MacAddresses(wifiList) && c.wifis != {}
    ensures IsWifiApproxEqual(c, wifiList)
  {
    CommonCountIsIntersection(c.wifis, wifiList);
    assert c.wifis * MacAddresses(wifiList) == c.wifis;
    assert |wifiList| <= |c.wifis| by {
      assert CommonCount(c.wifis, wifiList) == |c.wifis|;
      DistinctMacsCount(wifiList);
    }
  }

  lemma {:induction false} DistinctMacsCount(wifiList: seq<AccessPoint>)
    requires DistinctMacs(wifiList)
    ensures |MacAddresses(wifiList)| == |wifiList|
    decreases |wifiList|
  {
    CommonCountIsIntersection(MacAddresses(wifiList), wifiList);
    AllCounted(MacAddresses(wifiList), wifiList);
    assert MacAddresses(wifiList) * MacAddresses(wifiList) == MacAddresses(wifiList);
  }

  /** When every address is known, every entry counts. */
  lemma {:induction false} AllCounted(wifis: set<string>, wifiList: seq<AccessPoint>)
    requires forall w | w in wifiList :: w.macAddress in wifis
    ensures CommonCount(wifis, wifiList) == |wifiList|
    decreases |wifiList|
  {
    if wifiList != [] {
      assert forall w | w in wifiList[1..] :: w in wifiList;
      AllCounted(wifis, wifiList[1..]);
    }
  }

  // ---------------------------------------------------------------------
  // The decision

  /** The accuracy, in metres, below which a Wi-Fi-only cache beats a
      cell-only request. */
  const HighAccuracyLimit: real := 5000.0

  /** isCachedRequestMoreAccurateThanServerRequest, with the request-cache
      preference as `cacheEnabled`. */
  function IsCachedRequestMoreAccurate(cache: Option<CachedRequest>, cacheEnabled: bool,
                                       newCell: Option<seq<CellTower>>, newWifiList: Option<seq<AccessPoint>>): (r: bool)
    ensures r ==> cache.Some? && cacheEnabled
    ensures r && (newCell.Some? || newWifiList.Some?) ==> !IsGeoip(cache.value)
  {
    if cache.None? || !cacheEnabled then false
    else
      var c := cache.value;
      if newCell.None? && newWifiList.None? then true
      else if newCell.Some? && newWifiList.Some? && (IsCellOnly(c) || IsWifiOnly(c)) then false
      else if newCell.Some? && IsWifiOnly(c) then c.accuracy < HighAccuracyLimit
      else
        var hasEqualCells := newCell.Some? && IsCellEqual(c, newCell.value);
        var hasEqualWifis := newWifiList.Some? && IsWifiApproxEqual(c, newWifiList.value);
        if IsCellOnly(c) then hasEqualCells
        else if IsWifiOnly(c) then hasEqualWifis
        else if IsCellAndWifi(c) then
          (hasEqualCells && hasEqualWifis) || (newWifiList.None? && hasEqualCells) || (newCell.None? && hasEqualWifis)
        else false
  }

  /** No cache, or the cache disabled, never wins; a request with neither
      cells nor access points always takes the cache; a request with both
      never takes a single-source cache. */
  lemma CacheDecisionBasics(cache: Option<CachedRequest>, cacheEnabled: bool,
                            newCell: Option<seq<CellTower>>, newWifiList: Option<seq<AccessPoint>>)
    ensures cache.None? || !cacheEnabled ==> !IsCachedRequestMoreAccurate(cache, cacheEnabled, newCell, newWifiList)
    ensures cache.Some? && cacheEnabled && newCell.None? && newWifiList.None? ==>
      IsCachedRequestMoreAccurate(cache, cacheEnabled, newCell, newWifiList)
    ensures cache.Some? && (IsCellOnly(cache.value) || IsWifiOnly(cache.value)) && newCell.Some? && newWifiList.Some? ==>
      !IsCachedRequestMoreAccurate(cache, cacheEnabled, newCell, newWifiList)
  {
  }

  /** A cell-only cache serves a request with sources only when its cells
      are equal to the request's. */
  lemma CellOnlyCacheNeedsEqualCells(c: CachedRequest, newCell: Option<seq<CellTower>>, newWifiList: Option<seq<AccessPoint>>)
    requires IsCellOnly(c) && (newCell.Some? || newWifiList.Some?)
    ensures IsCachedRequestMoreAccurate(Some(c), true, newCell, newWifiList) <==>
      newCell.Some? && newWifiList.None? && IsCellEqual(c, newCell.value)
  {
  }

  /** A Wi-Fi-only cache serves a Wi-Fi-only request when the access points
      are approximately equal, and a cell-only request when its accuracy is
      high; never one with both. */
  lemma WifiOnlyCacheDecision(c: CachedRequest, newCell: Option<seq<CellTower>>, newWifiList: Option<seq<AccessPoint>>)
    requires IsWifiOnly(c) && (newCell.Some? || newWifiList.Some?)
    ensures IsCachedRequestMoreAccurate(Some(c), true, newCell, newWifiList) <==>
      (newCell.None? && IsWifiApproxEqual(c, newWifiList.value))
      || (newCell.Some? && newWifiList.None? && c.accuracy < HighAccuracyLimit)
  {
  }

  /** A cell and Wi-Fi cache serves a request when every source the request
      has matches. */
  lemma CellAndWifiCacheDecision(c: CachedRequest, newCell: Option<seq<CellTower>>, newWifiList: Option<seq<AccessPoint>>)
    requires IsCellAndWifi(c) && (newCell.Some? || newWifiList.Some?)
    ensures IsCachedRequestMoreAccurate(Some(c), true, newCell, newWifiList) <==>
      (newCell.None? || IsCellEqual(c, newCell.value)) && (newWifiList.None? || IsWifiApproxEqual(c, newWifiList.value))
  {
  }

  /** A GeoIP cache serves only a request that is GeoIP itself. */
  lemma GeoipCacheDecision(c: CachedRequest, newCell: Option<seq<CellTower>>, newWifiList: Option<seq<AccessPoint>>)
    requires IsGeoip(c)
    ensures IsCachedRequestMoreAccurate(Some(c), true, newCell, newWifiList) <==> newCell.None? && newWifiList.None?
  {
  }

  /** sendLocationRequest's data: the access points only when there are at
      least two, the cell towers only when there is one. */
  function RequestSources(wifiData: Option<seq<AccessPoint>>, cellData: Option<seq<CellTower>>)
    : (r: (Option<seq<CellTower>>, Option<seq<AccessPoint>>))
    ensures r.1.Some? <==> wifiData.Some? && |wifiData.value| >= 2
    ensures r.1.Some? ==> r.1.value == wifiData.value
    ensures r.0.Some? <==> cellData.Some? && |cellData.value| > 0
    ensures r.0.Some? ==> r.0.value == cellData.value
  {
    (if cellData.Some? && |cellData.value| > 0 then cellData else None,
     if wifiData.Some? && |wifiData.value| >= 2 then wifiData else None)
  }

  // ---------------------------------------------------------------------
  // Mobile signal

  /** ASU to dBm. */
  function AsuToDbm(asu: int): (r: int)
    ensures 0 <= asu <= 31 ==> -113 <= r <= -51
  {
    2 * asu - 113
  }

  /** The radio family of a voice connection type; None for types without a case. */
  function RadioTechFamily(voiceType: string): (r: Option<string>)
    ensures r.Some? ==> r.value in {"gsm", "wcdma", "lte"}
    ensures r == Some("lte") <==> voiceType == "lte"
  {
    if voiceType in {"gsm", "gprs", "edge"} then Some("gsm")
    else if voiceType in {"umts", "hsdpa", "hsupa", "hspa", "hspa+"} then Some("wcdma")
    else if voiceType == "lte" then Some("lte")
    else None
  }

  /** The signal strengths a connection reports. */
  datatype SignalStrength = SignalStrength(gsmSignalStrength: int, lteSignalStrength: int, lteRsrp: int)

  /** The signal of a tower: ASU in dBm for GSM and WCDMA; for LTE the ASU
      when it is 0..31, else the RSRP when it is -140..-44, else undefined. */
  function MobileSignal(voiceType: string, s: SignalStrength): (r: Option<int>)
    ensures RadioTechFamily(voiceType) == Some("gsm") || RadioTechFamily(voiceType) == Some("wcdma") ==>
      r == Some(AsuToDbm(s.gsmSignalStrength))
    ensures RadioTechFamily(voiceType) == None ==> r == None
    ensures voiceType == "lte" && 0 <= s.lteSignalStrength <= 31 ==> r == Some(AsuToDbm(s.lteSignalStrength))
    ensures voiceType == "lte" && !(0 <= s.lteSignalStrength <= 31) ==>
      r == if -140 <= s.lteRsrp <= -44 then Some(s.lteRsrp) else None
  {
    match RadioTechFamily(voiceType)
    case None => None
    case Some(family) =>
      if family != "lte" then Some(AsuToDbm(s.gsmSignalStrength))
      else if 0 <= s.lteSignalStrength <= 31 then Some(AsuToDbm(s.lteSignalStrength))
      else if -140 <= s.lteRsrp <= -44 then Some(s.lteRsrp)
      else None
  }

  /** A defined LTE signal always lies in the RSRP range -140..-44 dBm. */
  lemma LteSignalInRsrpRange(s: SignalStrength)
    ensures MobileSignal("lte", s).Some? ==> -140 <= MobileSignal("lte", s).value <= -44
  {
  }

  /** A mobile connection slot: None unless it has a voice network, a cell,
      a type and signal strengths. */
  datatype Voice = Voice(voiceType: string, mcc: int, mnc: int, gsmLocationAreaCode: int, gsmCellId: int, signal: SignalStrength)

  /** The tower a usable slot contributes; a cell id of -1 is skipped. */
  function TowersOf(slots: seq<Option<Voice>>): (r: seq<CellTower>)
    ensures |r| <= |slots|
    ensures forall t | t in r :: t.cellId != -1
  {
    if slots == [] then []
    else
      var rest := TowersOf(slots[1..]);
      match slots[0]
      case None => rest
      case Some(v) =>
        if v.voiceType == [] || v.gsmCellId == -1 then rest
        else [CellTower(RadioTechFamily(v.voiceType), v.mcc, v.mnc, v.gsmLocationAreaCode, v.gsmCellId,
                        MobileSignal(v.voiceType, v.signal))] + rest
  }

  /** getMobileInfo: one tower per usable slot, in slot order. */
  method GetMobileInfo(slots: seq<Option<Voice>>) returns (result: seq<CellTower>)
    ensures result == TowersOf(slots)
  {
    result := [];
    var i := |slots|;
    while i > 0
      invariant 0 <= i <= |slots|
      invariant result == TowersOf(slots[i..])
    {
      i := i - 1;
      assert slots[i..][1..] == slots[i + 1..];
      match slots[i] {
        case None =>
        case Some(v) =>
          if v.voiceType != [] && v.gsmCellId != -1 {
            result := [CellTower(RadioTechFamily(v.voiceType), v.mcc, v.mnc, v.gsmLocationAreaCode, v.gsmCellId,
                                 MobileSignal(v.voiceType, v.signal))] + result;
          }
      }
    }
    assert slots[0..] == slots;
  }

  // ---------------------------------------------------------------------
  // The provider

  /** What sendLocationRequest ended with. */
  datatype RequestOutcome = UsedCache | NoData | RequestFailed | Updated

  class Provider {
    var started: bool
    var hasNetwork: bool
    var timerArmed: bool
    var watchingWifi: bool
    var hasListener: bool
    /** gCachedRequest */
    var cachedRequest: Option<CachedRequest>

    constructor ()
      ensures !started && !hasNetwork && !timerArmed && !watchingWifi && !hasListener && cachedRequest == None
    {
      started := false;
      hasNetwork := false;
      timerArmed := false;
      watchingWifi := false;
      hasListener := false;
      cachedRequest := None;
    }

    /** resetTimer: the timer runs exactly when there is a network. */
    method ResetTimer()
      modifies this`timerArmed
      ensures timerArmed == hasNetwork
    {
      timerArmed := false;
      if !hasNetwork {
        return;
      }
      timerArmed := true;
    }

    /** startup: only the first call acts; it records whether a network is
        active, watches Wi-Fi when scanning is possible, and arms the timer. */
    method Startup(activeNetwork: bool, wifiScanningEnabled: bool)
      modifies this
      ensures old(started) ==>
        (started == old(started) && hasNetwork == old(hasNetwork)
         && timerArmed == old(timerArmed) && watchingWifi == old(watchingWifi))
      ensures !old(started) ==>
        (started && hasNetwork == activeNetwork && timerArmed == activeNetwork
         && watchingWifi == (old(watchingWifi) || (activeNetwork && wifiScanningEnabled)))
      ensures cachedRequest == old(cachedRequest) && hasListener == old(hasListener)
    {
      if started {
        return;
      }
      started := true;
      hasNetwork := activeNetwork;
      if hasNetwork && wifiScanningEnabled {
        watchingWifi := true;
      }
      ResetTimer();
    }

    method Watch()
      modifies this`hasListener
      ensures hasListener
    {
      hasListener := true;
    }

    /** shutdown: when started, drops the cache, the timer, the Wi-Fi watch
        and the listener. */
    method Shutdown()
      modifies this
      ensures !old(started) ==>
        (cachedRequest == old(cachedRequest) && hasListener == old(hasListener)
         && timerArmed == old(timerArmed) && watchingWifi == old(watchingWifi))
      ensures old(started) ==> cachedRequest == None && !timerArmed && !watchingWifi && !hasListener
      ensures !started && hasNetwork == old(hasNetwork)
    {
      if !started {
        return;
      }
      cachedRequest := None;
      timerArmed := false;
      watchingWifi := false;
      hasListener := false;
      started := false;
    }

    /** sendLocationRequest, with the request-cache preference as
        `cacheEnabled` and the server's answer as `serverAccuracy` (None
        when the request fails or has no location). */
    method SendLocationRequest(wifiData: Option<seq<AccessPoint>>, cellData: Option<seq<CellTower>>,
                               cacheEnabled: bool, serverAccuracy: Option<real>)
      returns (outcome: RequestOutcome)
      modifies this`cachedRequest
      ensures var (cells, wifis) := RequestSources(wifiData, cellData);
        var cache := if cacheEnabled then old(cachedRequest) else None;
        if IsCachedRequestMoreAccurate(cache, cacheEnabled, cells, wifis) then
          outcome == UsedCache && cachedRequest == cache
        else if cells.None? && wifis.None? then
          outcome == NoData && cachedRequest == cache
        else if serverAccuracy.None? then
          outcome == RequestFailed && cachedRequest == cache
        else
          outcome == Updated && cachedRequest.Some?
          && cachedRequest.value.accuracy == serverAccuracy.value
          && cachedRequest.value.cells == (if cells.Some? then CellKeys(cells.value) else {})
          && cachedRequest.value.wifis == (if wifis.Some? then MacAddresses(wifis.value) else {})
    {
      var (cells, wifis) := RequestSources(wifiData, cellData);
      if !cacheEnabled {
        cachedRequest := None;
      }
      if IsCachedRequestMoreAccurate(cachedRequest, cacheEnabled, cells, wifis) {
        return UsedCache;
      }
      if cells.None? && wifis.None? {
        return NoData;
      }
      if serverAccuracy.None? {
        return RequestFailed;
      }
      var entry := NewCachedRequest(serverAccuracy.value, cells, wifis);
      cachedRequest := Some(entry);
      return Updated;
    }
  }
}
