// The radio interface worker's request conversions and its rules for
// acknowledging the radio and forwarding responses.

module RilWorker {

  const Int32Min := -0x8000_0000
  const Int32Max := 0x7FFF_FFFF

  newtype int32 = x: int | -0x8000_0000 <= x < 0x8000_0000

  /** `x - 1` on a 32-bit two's-complement integer. */
  function Decrement(x: int32): (r: int32)
    ensures x as int > Int32Min ==> r as int == x as int - 1
    ensures x as int == Int32Min ==> r as int == Int32Max
  {
    if x == -0x8000_0000 then 0x7FFF_FFFF else x - 1
  }

  /** `x + 1` on a 32-bit two's-complement integer. */
  function Increment(x: int32): (r: int32)
    ensures x as int < Int32Max ==> r as int == x as int + 1
    ensures x as int == Int32Max ==> r as int == Int32Min
  {
    if x == 0x7FFF_FFFF then -0x8000_0000 else x + 1
  }

  lemma IncrementUndoesDecrement(x: int32)
    ensures Increment(Decrement(x)) == x
  {
  }

  /** One GsmBroadcastSmsConfigInfo of the radio HAL. */
  datatype GsmBroadcastSmsConfigInfo = GsmBroadcastSmsConfigInfo(
    fromServiceId: int32, toServiceId: int32, fromCodeScheme: int32, toCodeScheme: int32, selected: bool)

  /** The entry for the `k`th half-open range [from, to) of `ranges`: the
      closed range [from, to - 1], every code scheme, selected. */
  function InfoFor(ranges: seq<int32>, k: nat): (info: GsmBroadcastSmsConfigInfo)
    requires 2 * k + 1 < |ranges|
  {
    GsmBroadcastSmsConfigInfo(ranges[2 * k], Decrement(ranges[2 * k + 1]), 0x00, 0xFF, true)
  }

  /** The half-open ranges a configuration stands for. */
  function RangesOf(infos: seq<GsmBroadcastSmsConfigInfo>): (r: seq<int32>)
    ensures |r| == 2 * |infos|
  {
    if infos == [] then [] else [infos[0].fromServiceId, Increment(infos[0].toServiceId)] + RangesOf(infos[1..])
  }

  /** The HAL calls the worker makes. */
  datatype HalRequest =
    | CellInfoListRateRequest(serial: int32, rateInMillis: int32)
    | GsmBroadcastConfigRequest(serial: int32, infos: seq<GsmBroadcastSmsConfigInfo>)
    | ResponseAcknowledgement

  datatype RadioIndicationType = Unsolicited | UnsolicitedAckExp
  datatype RadioResponseType = Solicited | SolicitedAck | SolicitedAckExp

  /** An nsRilResponseResult: its token and message type. */
  datatype Response = Response(token: int32, messageType: string)
  datatype Indication = Indication(messageType: string)

  /** The rate SetCellInfoListRate sends: 0 means "never", INT32_MAX. */
  function HalCellInfoListRate(rateInMillis: int32): (r: int32)
    ensures rateInMillis == 0 ==> r as int == Int32Max
    ensures rateInMillis != 0 ==> r == rateInMillis
  {
    if rateInMillis == 0 then 0x7FFF_FFFF else rateInMillis
  }

  /** The HAL never sees a zero rate, and different non-zero rates stay
      different. */
  lemma HalCellInfoListRateNeverZero(a: int32, b: int32)
    ensures HalCellInfoListRate(a) != 0
    ensures a != 0 && b != 0 && a != b ==> HalCellInfoListRate(a) != HalCellInfoListRate(b)
  {
  }

  class RilWorkerModel {
    /** Whether GetRadioProxy finds a radio HAL. */
    const hasRadioProxy: bool
    /** The calls made on the radio proxy, oldest first. */
    var halRequests: seq<HalRequest>
    /** Responses and indications dispatched to the callback. */
    var dispatchedResponses: seq<Response>
    var dispatchedIndications: seq<Indication>

    /** Internal requests, which carry a token <= 0, are never forwarded. */
    ghost predicate Valid()
      reads this
    {
      forall i | 0 <= i < |dispatchedResponses| :: dispatchedResponses[i].token > 0
    }

    constructor (hasRadioProxy: bool)
      ensures Valid() && this.hasRadioProxy == hasRadioProxy
      ensures halRequests == [] && dispatchedResponses == [] && dispatchedIndications == []
    {
      this.hasRadioProxy := hasRadioProxy;
      halRequests := [];
      dispatchedResponses := [];
      dispatchedIndications := [];
    }

    /** SetCellInfoListRate */
    method SetCellInfoListRate(serial: int32, rateInMillis: int32)
      modifies this`halRequests
      ensures halRequests == old(halRequests) +
        if hasRadioProxy then [CellInfoListRateRequest(serial, HalCellInfoListRate(rateInMillis))] else []
    {
      if !hasRadioProxy {
        return;
      }
      var rate := rateInMillis;
      if rate == 0 {
        rate := 0x7FFF_FFFF;
      }
      halRequests := halRequests + [CellInfoListRateRequest(serial, rate)];
    }

    /** SetGsmBroadcastConfig: the pairs of `ranges` are read two at a
        time, so it needs an even number of them. */
    method SetGsmBroadcastConfig(serial: int32, ranges: seq<int32>)
      requires |ranges| % 2 == 0
      modifies this`halRequests
      ensures !hasRadioProxy ==> halRequests == old(halRequests)
      ensures hasRadioProxy ==> exists infos ::
        halRequests == old(halRequests) + [GsmBroadcastConfigRequest(serial, infos)]
        && |infos| == |ranges| / 2
        && (forall k | 0 <= k < |infos| :: infos[k] == InfoFor(ranges, k))
        && RangesOf(infos) == ranges
    {
      if !hasRadioProxy {
        return;
      }
      var infos := BroadcastInfo(ranges);
      halRequests := halRequests + [GsmBroadcastConfigRequest(serial, infos)];
    }

    /** processIndication: the radio is acknowledged when it expects it. */
    method ProcessIndication(t: RadioIndicationType)
      modifies this`halRequests
      ensures halRequests == old(halRequests) +
        if t == UnsolicitedAckExp && hasRadioProxy then [ResponseAcknowledgement] else []
    {
      if t == UnsolicitedAckExp {
        SendAck();
      }
    }

    /** processResponse: the radio is acknowledged when it expects it. */
    method ProcessResponse(t: RadioResponseType)
      modifies this`halRequests
      ensures halRequests == old(halRequests) +
        if t == SolicitedAckExp && hasRadioProxy then [ResponseAcknowledgement] else []
    {
      if t == SolicitedAckExp {
        SendAck();
      }
    }

    /** sendAck */
    method SendAck()
      modifies this`halRequests
      ensures halRequests == old(halRequests) + if hasRadioProxy then [ResponseAcknowledgement] else []
    {
      if hasRadioProxy {
        halRequests := halRequests + [ResponseAcknowledgement];
      }
    }

    /** sendRilResponseResult: only responses to numbered requests go on. */
    method SendRilResponseResult(r: Response)
      requires Valid()
      modifies this`dispatchedResponses
      ensures Valid()
      ensures dispatchedResponses == old(dispatchedResponses) + if r.token > 0 then [r] else []
    {
      if r.token > 0 {
        dispatchedResponses := dispatchedResponses + [r];
      }
    }

    /** sendRilIndicationResult: every indication goes on. */
    method SendRilIndicationResult(i: Indication)
      modifies this`dispatchedIndications
      ensures dispatchedIndications == old(dispatchedIndications) + [i]
    {
      dispatchedIndications := dispatchedIndications + [i];
    }
  }

  /** The loop of SetGsmBroadcastConfig: [from, to) pairs become
      GsmBroadcastSmsConfigInfo entries, the ranges they stand for being
      exactly the input. */
  method BroadcastInfo(ranges: seq<int32>) returns (infos: seq<GsmBroadcastSmsConfigInfo>)
    requires |ranges| % 2 == 0
    ensures |infos| == |ranges| / 2
    ensures forall k | 0 <= k < |infos| :: infos[k] == InfoFor(ranges, k)
    ensures RangesOf(infos) == ranges
  {
    infos := [];
    var i := 0;
    while i < |ranges|
      invariant 0 <= i <= |ranges| && i % 2 == 0 && |infos| == i / 2
      invariant forall k | 0 <= k < |infos| :: infos[k] == InfoFor(ranges, k)
      invariant RangesOf(infos) == ranges[..i]
    {
      var from := ranges[i];
      i := i + 1;
      var to := Decrement(ranges[i]);
      i := i + 1;
      var info := GsmBroadcastSmsConfigInfo(from, to, 0x00, 0xFF, true);
      RangesOfAppend(infos, info);
      IncrementUndoesDecrement(ranges[i - 1]);
      assert ranges[..i] == ranges[..i - 2] + [ranges[i - 2], ranges[i - 1]];
      infos := infos + [info];
    }
    assert ranges[..i] == ranges;
  }

  lemma {:induction false} RangesOfAppend(infos: seq<GsmBroadcastSmsConfigInfo>, info: GsmBroadcastSmsConfigInfo)
    ensures RangesOf(infos + [info]) == RangesOf(infos) + [info.fromServiceId, Increment(info.toServiceId)]
  {
    if infos != [] {
      assert (infos + [info])[1..] == infos[1..] + [info];
      RangesOfAppend(infos[1..], info);
    } else {
      assert RangesOf([info]) == [info.fromServiceId, Increment(info.toServiceId)] + RangesOf([]);
    }
  }

  // ---------------------------------------------------------------------
  // Access point settings

  datatype MvnoType = MvnoNone | Imsi | Gid | Spn

  /** convertToHalMvnoType */
  function ConvertToHalMvnoType(s: string): (t: MvnoType)
    ensures t == Imsi <==> s == "imsi"
    ensures t == Gid <==> s == "gid"
    ensures t == Spn <==> s == "spn"
  {
    if s == "imsi" then Imsi
    else if s == "gid" then Gid
    else if s == "spn" then Spn
    else MvnoNone
  }

  /** The name of each MVNO type the conversion accepts. */
  function MvnoName(t: MvnoType): string
  {
    match t
    case MvnoNone => "none"
    case Imsi => "imsi"
    case Gid => "gid"
    case Spn => "spn"
  }

  /** Each named MVNO type comes back from its name; every other string
      is no MVNO type. */
  lemma MvnoTypeRoundTrip(t: MvnoType, s: string)
    ensures t != MvnoNone ==> ConvertToHalMvnoType(MvnoName(t)) == t
    ensures s !in {"imsi", "gid", "spn"} ==> ConvertToHalMvnoType(s) == MvnoNone
  {
  }

  datatype PdpProtocolType = Unknown | Ip | Ipv6 | Ipv4v6 | Ppp | NonIp

  /** convertToHalPdpType as written: the dual-stack name is spelt
      "IPV4V6n". */
  function ConvertToHalPdpTypeAsWritten(s: string): (t: PdpProtocolType)
    ensures t == Ipv4v6 <==> s == "IPV4V6n"
    ensures t == Ip <==> s == "IP"
  {
    if s == "IP" then Ip
    else if s == "IPV6" then Ipv6
    else if s == "IPV4V6n" then Ipv4v6
    else if s == "PPP" then Ppp
    else if s == "NON_IP" then NonIp
    else Unknown
  }

  /** As written, the dual-stack protocol "IPV4V6" is not recognised. */
  lemma AsWrittenDualStackIsUnknown()
    ensures ConvertToHalPdpTypeAsWritten("IPV4V6") == Unknown
    ensures ConvertToHalPdpTypeAsWritten(PdpName(Ipv4v6)) != Ipv4v6
  {
  }

  /** The protocol names the data profiles carry. */
  function PdpName(t: PdpProtocolType): string
  {
    match t
    case Unknown => "UNKNOWN"
    case Ip => "IP"
    case Ipv6 => "IPV6"
    case Ipv4v6 => "IPV4V6"
    case Ppp => "PPP"
    case NonIp => "NON_IP"
  }

  /** convertToHalPdpType with the dual-stack name spelt "IPV4V6". */
  function ConvertToHalPdpType(s: string): (t: PdpProtocolType)
    ensures t == Ipv4v6 <==> s == "IPV4V6"
    ensures t == Ip <==> s == "IP"
  {
    if s == "IP" then Ip
    else if s == "IPV6" then Ipv6
    else if s == "IPV4V6" then Ipv4v6
    else if s == "PPP" then Ppp
    else if s == "NON_IP" then NonIp
    else Unknown
  }

  /** Every protocol comes back from its name, and names outside the five
      are UNKNOWN. */
  lemma PdpTypeRoundTrip(t: PdpProtocolType, s: string)
    ensures ConvertToHalPdpType(PdpName(t)) == t
    ensures s !in {"IP", "IPV6", "IPV4V6", "PPP", "NON_IP"} ==> ConvertToHalPdpType(s) == Unknown
  {
  }
}
