// Phone Book Access server: request dispatch, Single Response Mode flags,
// phone-book path navigation, the PULL request classification and its
// application parameters, GET replies with the body split to the remote
// packet size, and the OBEX digest authentication of the Connect.
//
// The OBEX header codec is not part of this model: a request arrives as its
// raw bytes, whether ParseHeaders succeeded, and the parsed header set.
// Sockets, the Bluetooth service and the vCard blob are outside the model;
// their outcomes are method parameters, the packets written are recorded in
// `sent` and the system messages broadcast in `signals`. MD5 is a function
// parameter. Header sizes follow the encodings of section 2.1 of IrOBEX 1.2.

module PbapManager {

  import opened Obex
  import opened PbapHeader
  import opened Wrappers

  /** One tag-length-value triplet of an Application Parameters header. */
  datatype AppParam = AppParam(tag: byte, value: seq<byte>)

  /** A parsed request header set. `srm` and `srmp` are -1 when absent. */
  datatype Headers = Headers(
    target: Option<seq<byte>>,
    name: Option<string>,
    contentType: Option<string>,
    srm: int,
    srmp: int,
    authChallenge: Option<seq<byte>>,
    appParameters: seq<AppParam>)

  /** ObexHeaderSet::GetName: the Name header, empty when absent. */
  function NameOf(h: Headers): (r: string)
    ensures h.name.None? ==> r == ""
  {
    if h.name.Some? then h.name.value else ""
  }

  function ContentTypeOf(h: Headers): (r: string)
    ensures h.contentType.None? ==> r == ""
  {
    if h.contentType.Some? then h.contentType.value else ""
  }

  /** The first triplet with the given tag. */
  function FindAppParameter(params: seq<AppParam>, tag: byte): (r: Option<seq<byte>>)
    ensures r.None? <==> forall i | 0 <= i < |params| :: params[i].tag != tag
    ensures r.Some? ==> exists i | 0 <= i < |params| :: params[i] == AppParam(tag, r.value)
  {
    if |params| == 0 then None
    else if params[0].tag == tag then Some(params[0].value)
    else
      var r := FindAppParameter(params[1..], tag);
      assert r.Some? ==> exists i | 0 <= i < |params[1..]| :: params[1..][i] == AppParam(tag, r.value);
      assert forall i | 0 < i < |params| :: params[i] == params[1..][i - 1];
      r
  }

  /**
   * ObexHeaderSet::GetAppParameter(tag, buf, size): when the tag is present its
   * value is copied over the start of the caller's buffer, the rest of which
   * keeps what it held; the buffer after the call is returned.
   */
  function GetAppParameter(h: Headers, tag: byte, buf: seq<byte>): (r: Option<seq<byte>>)
    ensures r.None? <==> FindAppParameter(h.appParameters, tag).None?
    ensures r.Some? ==> |r.value| == |buf|
    ensures r.Some? ==>
      var v := FindAppParameter(h.appParameters, tag).value;
      (forall i | 0 <= i < |buf| :: r.value[i] == if i < |v| then v[i] else buf[i])
  {
    var v := FindAppParameter(h.appParameters, tag);
    if v.None? then None
    else if |v.value| >= |buf| then Some(v.value[..|buf|])
    else Some(v.value + buf[|v.value|..])
  }

  /** The PBAP OBEX target UUID of section 6.4 of PBAP 1.2. */
  const PbapObexTarget: seq<byte> := [
    0x79, 0x61, 0x35, 0xF0, 0xF0, 0xC5, 0x11, 0xD8,
    0x09, 0x66, 0x08, 0x00, 0x20, 0x0C, 0x9A, 0x66]

  const UuidLength: int := 16

  /** Size of the stack buffers application parameters are read into. */
  const AppParameterBufferSize: int := 64

  /** Compares the Target header with the PBAP target, byte by byte. */
  method CompareHeaderTarget(h: Headers) returns (r: bool)
    ensures r <==> h.target == Some(PbapObexTarget)
  {
    if h.target.None? {
      return false;
    }
    var data := h.target.value;
    if |data| != UuidLength {
      return false;
    }
    for i := 0 to UuidLength
      invariant forall k | 0 <= k < i :: data[k] == PbapObexTarget[k]
    {
      if data[i] != PbapObexTarget[i] {
        return false;
      }
    }
    assert data == PbapObexTarget;
    return true;
  }

  // ---------------------------------------------------------------------
  // Phone-book paths

  const LegalPaths: seq<string> := [
    "", "telecom", "telecom/pb", "telecom/ich", "telecom/och", "telecom/mch", "telecom/cch",
    "SIM1", "SIM1/telecom", "SIM1/telecom/pb", "SIM1/telecom/ich", "SIM1/telecom/och",
    "SIM1/telecom/mch", "SIM1/telecom/cch"]

  const LegalPhonebookNames: seq<string> := [
    "telecom/pb.vcf", "telecom/ich.vcf", "telecom/och.vcf", "telecom/mch.vcf", "telecom/cch.vcf",
    "SIM1/telecom/pb.vcf", "SIM1/telecom/ich.vcf", "SIM1/telecom/och.vcf",
    "SIM1/telecom/mch.vcf", "SIM1/telecom/cch.vcf"]

  /** Searches the legal-path table. */
  method IsLegalPath(path: string) returns (r: bool)
    ensures r <==> path in LegalPaths
  {
    for i := 0 to |LegalPaths|
      invariant path !in LegalPaths[..i]
    {
      if path == LegalPaths[i] {
        return true;
      }
    }
    assert LegalPaths[..|LegalPaths|] == LegalPaths;
    return false;
  }

  /** Searches the table of phone-book objects a PullPhonebook may name. */
  method IsLegalPhonebookName(name: string) returns (r: bool)
    ensures r <==> name in LegalPhonebookNames
  {
    for i := 0 to |LegalPhonebookNames|
      invariant name !in LegalPhonebookNames[..i]
    {
      if name == LegalPhonebookNames[i] {
        return true;
      }
    }
    assert LegalPhonebookNames[..|LegalPhonebookNames|] == LegalPhonebookNames;
    return false;
  }

  /** nsString::RFindChar: the index of the last c in s, or -1. */
  function LastIndexOf(s: string, c: char): (r: int)
    ensures -1 <= r < |s|
    ensures r >= 0 ==> s[r] == c && c !in s[r + 1..]
    ensures r == -1 <==> c !in s
  {
    if |s| == 0 then -1
    else if s[|s| - 1] == c then |s| - 1
    else
      var r := LastIndexOf(s[..|s| - 1], c);
      assert s == s[..|s| - 1] + [s[|s| - 1]];
      r
  }

  /** Going up one level: drop the last component; a top-level folder goes to the root. */
  function ParentPath(path: string): (r: string)
    ensures '/' !in path ==> r == ""
    ensures '/' in path ==>
      |r| < |path| && r == path[..|r|] && path[|r|] == '/' && '/' !in path[|r| + 1..]
  {
    if path == "" then ""
    else
      var i := LastIndexOf(path, '/');
      if i != -1 then path[..i] else ""
  }

  /** Going down one level into the folder `name`. */
  function ChildPath(path: string, name: string): string
  {
    if path == "" then name else path + "/" + name
  }

  /** Going down from the root gives the name; from any other folder the
      path, a '/' and the name. */
  lemma ChildPathShape(path: string, name: string)
    ensures path == "" ==> ChildPath(path, name) == name
    ensures path != "" ==> var r := ChildPath(path, name);
      |r| == |path| + 1 + |name| && r[..|path|] == path && r[|path|] == '/' && r[|path| + 1..] == name
  {
  }

  /** The path a SetPath with valid flags asks for; bit 0 of the flags means "go up". */
  function SetPathTarget(path: string, flags: byte, name: string): (r: string)
    ensures flags % 2 == 1 ==> |r| <= |path| && r == path[..|r|] && (path != "" ==> |r| < |path|)
    ensures flags % 2 == 0 && name == "" ==> r == ""
    ensures flags % 2 == 0 && name != "" ==> |r| >= |name| && r[|r| - |name|..] == name
    ensures flags % 2 == 0 && name != "" && path != "" ==> |r| > |path| && r[..|path|] == path && r[|path|] == '/'
  {
    if flags % 2 == 1 then ParentPath(path)
    else if name == "" then ""
    else ChildPath(path, name)
  }

  /** Going down into a folder and then up again returns to where one started. */
  lemma ParentOfChild(path: string, name: string)
    requires name != "" && '/' !in name
    ensures ParentPath(ChildPath(path, name)) == path
  {
    if path != "" {
      var q := path + "/" + name;
      assert q[|path|] == '/';
      assert q[|path| + 1..] == name;
      assert q[..|path|] == path;
    } else {
      assert LastIndexOf(name, '/') == -1;
    }
  }

  /** The folder above each legal path, as an index into the table, and the last path component. */
  const LegalParents: seq<nat> := [0, 0, 1, 1, 1, 1, 1, 0, 7, 8, 8, 8, 8, 8]
  const LegalLeaves: seq<string> := ["", "telecom", "pb", "ich", "och", "mch", "cch",
    "SIM1", "telecom", "pb", "ich", "och", "mch", "cch"]

  /** Every legal path but the root is a child of an earlier legal path. */
  lemma LegalPathsAreChildren(k: nat)
    requires 0 < k < |LegalPaths|
    ensures LegalParents[k] < |LegalPaths| && LegalLeaves[k] != "" && '/' !in LegalLeaves[k]
    ensures LegalPaths[k] == ChildPath(LegalPaths[LegalParents[k]], LegalLeaves[k])
  {
  }

  /** The parent of every legal path is legal, so going up from a legal path never fails. */
  lemma ParentOfLegalIsLegal(path: string)
    requires path in LegalPaths
    ensures ParentPath(path) in LegalPaths
  {
    var k :| 0 <= k < |LegalPaths| && LegalPaths[k] == path;
    if k > 0 {
      LegalPathsAreChildren(k);
      ParentOfChild(LegalPaths[LegalParents[k]], LegalLeaves[k]);
    }
  }

  // ---------------------------------------------------------------------
  // Substrings

  /** strstr / nsString::Find: t occurs in s. */
  predicate Contains(s: string, t: string)
    decreases |s|
  {
    |t| <= |s| && (s[..|t|] == t || Contains(s[1..], t))
  }

  lemma {:induction false} ContainsAppend(s: string, u: string, t: string)
    requires Contains(s, t)
    ensures Contains(s + u, t)
    decreases |s|
  {
    assert (s + u)[..|t|] == s[..|t|];
    if s[..|t|] != t {
      ContainsAppend(s[1..], u, t);
      assert (s + u)[1..] == s[1..] + u;
    }
  }

  // ---------------------------------------------------------------------
  // Application parameters of a PULL request

  /** Values a PULL request carries to the phone-book front end. */
  datatype Value =
    | Number(n: int)
    | Text(s: string)
    | Utf8Text(bytes: seq<byte>)
    | Flag(b: bool)
    | Indices(ns: seq<nat>)

  datatype NamedValue = NamedValue(key: string, value: Value)

  /** Number of vCardOrderType values (indexed, alphanumeric, phonetic). */
  const OrderTypeCount: int := 3
  /** Number of vCardSearchKeyType values (name, number, sound). */
  const SearchKeyTypeCount: int := 3

  /** `nsCString((char*)buf)`: the bytes before the first NUL. */
  function CString(buf: seq<byte>): (r: seq<byte>)
    ensures |r| <= |buf| && r == buf[..|r|]
    ensures 0 !in r
    ensures |r| < |buf| ==> buf[|r|] == 0
  {
    if |buf| == 0 || buf[0] == 0 then [] else [buf[0]] + CString(buf[1..])
  }

  /** The property indices of a PropertySelector or vCardSelector value: the set bits of bytes 4..7. */
  function PropertiesMask(buf: seq<byte>): seq<nat>
    requires |buf| >= 8
  {
    BitIndices(ReadUint32(buf[4..8]), 0)
  }

  /** PackPropertiesMask: collects the set bits of the low 32 bits of the 64-bit mask, lowest first. */
  method PackPropertiesMask(data: seq<byte>) returns (selector: seq<nat>)
    requires |data| >= 8
    ensures selector == PropertiesMask(data)
  {
    var x: nat := ReadUint32(data[4..8]);
    var count: nat := 0;
    selector := [];
    while x != 0
      invariant selector + BitIndices(x, count) == PropertiesMask(data)
      decreases x
    {
      var rest := BitIndices(x / 2, count + 1);
      assert BitIndices(x, count) == (if x % 2 == 1 then [count] else []) + rest;
      if x % 2 == 1 {
        assert selector + ([count] + rest) == (selector + [count]) + rest;
        selector := selector + [count];
      } else {
        assert [] + rest == rest;
      }
      count := count + 1;
      x := x / 2;
    }
    assert selector + [] == selector;
  }

  /** The mask lists exactly the set bits of the 32-bit value, in increasing order, all below 32. */
  lemma PropertiesMaskIsSetBits(buf: seq<byte>)
    requires |buf| >= 8
    ensures forall j: nat :: j in PropertiesMask(buf) <==> Bit(ReadUint32(buf[4..8]), j)
    ensures forall i, j | 0 <= i < j < |PropertiesMask(buf)| :: PropertiesMask(buf)[i] < PropertiesMask(buf)[j]
    ensures forall i | 0 <= i < |PropertiesMask(buf)| :: PropertiesMask(buf)[i] < 32
  {
    var x := ReadUint32(buf[4..8]);
    forall j: nat
      ensures j in PropertiesMask(buf) <==> Bit(x, j)
    {
      BitIndicesMembers(x, 0, j);
    }
    BitIndicesIncreasing(x, 0);
    Pow2Is32();
    BitIndicesBelow(x, 0, 32);
  }

  lemma Pow2Is32()
    ensures Pow2(32) == 0x1_0000_0000
  {
    assert Pow2(8) == 256;
    assert Pow2(16) == 256 * 256 by { Pow2Add(8, 8); }
    Pow2Add(16, 16);
  }

  lemma {:induction false} Pow2Add(a: nat, b: nat)
    ensures Pow2(a + b) == Pow2(a) * Pow2(b)
  {
    if a > 0 {
      Pow2Add(a - 1, b);
    }
  }

  /**
   * The named value AppendNamedValueByTagId adds for one tag, reading the tag
   * into `buf` (the 64-byte stack buffer, holding `buf` before the read); None
   * when the tag is absent or not one the server reads.
   */
  function TagValue(h: Headers, tag: byte, buf: seq<byte>): Option<NamedValue>
    requires |buf| == AppParameterBufferSize
  {
    var got := GetAppParameter(h, tag, buf);
    if got.None? then None
    else
      var b := got.value;
      if tag == Order then
        Some(NamedValue("order", Number(if (b[0] as int) < OrderTypeCount then b[0] as int else 0)))
      else if tag == SearchProperty then
        Some(NamedValue("searchKey", Number(if (b[0] as int) < SearchKeyTypeCount then b[0] as int else 0)))
      else if tag == SearchValue then
        Some(NamedValue("searchText", Utf8Text(CString(b))))
      else if tag == MaxListCount then
        Some(NamedValue("maxListCount", Number(ReadUint16(b[0], b[1]))))
      else if tag == ListStartOffset then
        Some(NamedValue("listStartOffset", Number(ReadUint16(b[0], b[1]))))
      else if tag == PropertySelector then
        Some(NamedValue("propSelector", Indices(PropertiesMask(b))))
      else if tag == Format then
        Some(NamedValue("format", Flag(b[0] != 0)))
      else if tag == VCardSelector then
        var op := GetAppParameter(h, VCardSelectorOperator, b);
        var b2 := if op.Some? then op.value else b;
        Some(NamedValue(if op.Some? && b2[0] != 0 then "vCardSelector_AND" else "vCardSelector_OR",
                        Indices(PropertiesMask(b2))))
      else None
  }

  /** The value of mPhonebookSizeRequired after reading one tag: a MaxListCount of 0 requires it. */
  function SizeRequiredAfterTag(h: Headers, tag: byte, buf: seq<byte>, required: bool): bool
    requires |buf| == AppParameterBufferSize
  {
    var got := GetAppParameter(h, tag, buf);
    if tag == MaxListCount && got.Some? then ReadUint16(got.value[0], got.value[1]) == 0 else required
  }

  function OptionToSeq<T>(o: Option<T>): (r: seq<T>)
    ensures |r| <= 1
  {
    if o.Some? then [o.value] else []
  }

  /** The named values for a tag list, in order. */
  function TagValues(h: Headers, tags: seq<byte>, buf: seq<byte>): seq<NamedValue>
    requires |buf| == AppParameterBufferSize
  {
    if |tags| == 0 then []
    else TagValues(h, tags[..|tags| - 1], buf) + OptionToSeq(TagValue(h, tags[|tags| - 1], buf))
  }

  function SizeRequiredAfter(h: Headers, tags: seq<byte>, buf: seq<byte>, required: bool): bool
    requires |buf| == AppParameterBufferSize
  {
    if |tags| == 0 then required
    else SizeRequiredAfterTag(h, tags[|tags| - 1], buf, SizeRequiredAfter(h, tags[..|tags| - 1], buf, required))
  }

  /** A MaxListCount of 0 makes the phone-book size required; any other value clears the requirement. */
  lemma MaxListCountDecidesSize(h: Headers, buf: seq<byte>, required: bool)
    requires |buf| == AppParameterBufferSize
    requires FindAppParameter(h.appParameters, MaxListCount).Some?
    requires |FindAppParameter(h.appParameters, MaxListCount).value| >= 2
    ensures var v := FindAppParameter(h.appParameters, MaxListCount).value;
      SizeRequiredAfterTag(h, MaxListCount, buf, required) <==> v[0] == 0 && v[1] == 0
  {
  }

  /** Order and search-key values outside their enumerations fall back to 0. */
  lemma EnumeratedValuesInRange(h: Headers, tag: byte, buf: seq<byte>)
    requires |buf| == AppParameterBufferSize
    requires tag == Order || tag == SearchProperty
    requires TagValue(h, tag, buf).Some?
    ensures TagValue(h, tag, buf).value.value.Number?
    ensures 0 <= TagValue(h, tag, buf).value.value.n < 3
  {
  }

  /**
   * The vCardSelector mask is read from the buffer after the operator was read
   * into it. An operator of at most four bytes leaves bytes 4..7 alone, so the
   * mask is still the selector's own.
   */
  lemma VCardSelectorMaskIsSelectors(h: Headers, buf: seq<byte>)
    requires |buf| == AppParameterBufferSize
    requires GetAppParameter(h, VCardSelector, buf).Some?
    requires var op := FindAppParameter(h.appParameters, VCardSelectorOperator); op.None? || |op.value| <= 4
    ensures TagValue(h, VCardSelector, buf).Some?
    ensures TagValue(h, VCardSelector, buf).value.value == Indices(PropertiesMask(GetAppParameter(h, VCardSelector, buf).value))
  {
    var b := GetAppParameter(h, VCardSelector, buf).value;
    var op := GetAppParameter(h, VCardSelectorOperator, b);
    if op.Some? {
      assert op.value[4..8] == b[4..8];
    }
  }

  // ---------------------------------------------------------------------
  // PULL request classification

  const PullPhonebookReqId: string := "pullphonebookreq"
  const PullVCardListingReqId: string := "pullvcardlistingreq"
  const PullVCardEntryReqId: string := "pullvcardentryreq"

  const PhonebookTags: seq<byte> := [Format, PropertySelector, MaxListCount, ListStartOffset, VCardSelector]
  const VCardListingTags: seq<byte> := [Order, SearchValue, SearchProperty, MaxListCount, ListStartOffset, VCardSelector]
  const VCardEntryTags: seq<byte> := [Format, PropertySelector]

  /** What a GET of a given type and name asks the front end for. */
  datatype PullRequest = PullRequest(requestId: string, tags: seq<byte>, objectName: string, newMissedCalls: bool)

  datatype Classified = Rejected(code: byte) | Pull(request: PullRequest)

  /** ListingName: a listing name is relative to the current folder; an empty name lists that folder. */
  function ListingName(currentPath: string, name: string): string {
    if name == "" then currentPath else currentPath + "/" + name
  }

  /** The request NotifyPbapRequest forwards for a content type and name, or the code it refuses with. */
  function ClassifyPull(contentType: string, name: string, currentPath: string): (c: Classified)
    ensures contentType == "x-bt/phonebook" ==>
      (c.Rejected? <==> name !in LegalPhonebookNames) && (c.Rejected? ==> c.code == NotFound) &&
      (c.Pull? ==> c.request.requestId == PullPhonebookReqId && c.request.tags == PhonebookTags &&
                   c.request.objectName == name)
    ensures contentType == "x-bt/vcard-listing" ==>
      c.Pull? && c.request.requestId == PullVCardListingReqId && c.request.tags == VCardListingTags &&
      c.request.objectName == ListingName(currentPath, name)
    ensures contentType == "x-bt/vcard" ==>
      (c.Rejected? <==> !Contains(name, ".vcf")) && (c.Rejected? ==> c.code == NotAcceptable) &&
      (c.Pull? ==> c.request.requestId == PullVCardEntryReqId && c.request.tags == VCardEntryTags &&
                   c.request.objectName == currentPath + "/" + name)
    ensures contentType != "x-bt/phonebook" && contentType != "x-bt/vcard-listing" && contentType != "x-bt/vcard" ==>
      c == Rejected(BadRequest)
    ensures c.Pull? ==>
      (c.request.newMissedCalls <==> contentType != "x-bt/vcard" && Contains(c.request.objectName, "mch"))
  {
    if contentType == "x-bt/phonebook" then
      if name !in LegalPhonebookNames then Rejected(NotFound)
      else Pull(PullRequest(PullPhonebookReqId, PhonebookTags, name, Contains(name, "mch")))
    else if contentType == "x-bt/vcard-listing" then
      var n := ListingName(currentPath, name);
      Pull(PullRequest(PullVCardListingReqId, VCardListingTags, n, Contains(n, "mch")))
    else if contentType == "x-bt/vcard" then
      if !Contains(name, ".vcf") then Rejected(NotAcceptable)
      else Pull(PullRequest(PullVCardEntryReqId, VCardEntryTags, currentPath + "/" + name, false))
    else Rejected(BadRequest)
  }

  /** A listing inside the missed-calls folder is flagged for NewMissedCalls whatever name it carries. */
  lemma ListingInMissedCallsFolder(currentPath: string, name: string)
    requires Contains(currentPath, "mch")
    ensures var c := ClassifyPull("x-bt/vcard-listing", name, currentPath);
      c.Pull? && c.request.newMissedCalls
  {
    if name != "" {
      ContainsAppend(currentPath, "/" + name, "mch");
      assert currentPath + "/" + name == currentPath + ("/" + name);
    }
  }

  // ---------------------------------------------------------------------
  // Single Response Mode

  /**
   * The three SRM flags: an SRM header was received (`enabled`), responses
   * stream without waiting (`active`), and the next reply must carry the SRM
   * header (`responsePending`).
   */
  datatype SrmFlags = SrmFlags(enabled: bool, active: bool, responsePending: bool)

  /** The normal request/response model that Connect, Disconnect and Abort revert to. */
  const SrmOff: SrmFlags := SrmFlags(false, false, false)

  predicate SrmConsistent(f: SrmFlags) {
    (f.active ==> f.enabled) && (f.responsePending ==> f.enabled)
  }

  /** The flags after a GET carrying the given SRM and SRMP values (-1 when absent). */
  function SrmAfterGet(f: SrmFlags, srm: int, srmp: int): (g: SrmFlags)
    ensures SrmConsistent(f) ==> SrmConsistent(g)
    ensures g.enabled == (f.enabled || srm == 1)
    ensures srm == 1 ==> g.responsePending && (g.active <==> srmp != 1)
    ensures srm != 1 ==> g.responsePending == f.responsePending
    ensures g.enabled && srmp == -1 ==> g.active
    ensures srm != 1 && !(f.enabled && srmp == -1) ==> g.active == f.active
  {
    var f1 := if srm == 1 then SrmFlags(true, srmp != 1, true) else f;
    if f1.enabled && srmp == -1 then f1.(active := true) else f1
  }

  // ---------------------------------------------------------------------
  // Digest challenge: the nonce

  /** Tag of the nonce triplet of a digest challenge, section 3.5.1 of IrOBEX 1.2. */
  const NonceTag: byte := 0x00

  /**
   * The walk from `offset` stays inside the challenge: every triplet's tag and
   * length bytes are present, a nonce triplet holds its 16 bytes, and the 8-bit
   * offset never wraps.
   */
  ghost predicate ChallengeFrom(data: seq<byte>, offset: nat)
    decreases |data| - offset
  {
    offset + 2 <= |data| &&
    offset + 2 + data[offset + 1] as int < 256 &&
    (data[offset] == NonceTag ==> offset + 2 + DigestLength <= |data|) &&
    (offset + 2 + data[offset + 1] as int < |data| ==> ChallengeFrom(data, offset + 2 + data[offset + 1] as int))
  }

  ghost predicate WellFormedChallenge(data: seq<byte>) {
    ChallengeFrom(data, 0)
  }

  /** The nonce after walking the triplets from `offset`: the 16 bytes of the last nonce triplet, or `nonce`. */
  function NonceFrom(data: seq<byte>, offset: nat, nonce: seq<byte>): seq<byte>
    requires ChallengeFrom(data, offset)
    decreases |data| - offset
  {
    var next := offset + 2 + data[offset + 1] as int;
    var n := if data[offset] == NonceTag then data[offset + 2..offset + 2 + DigestLength] else nonce;
    if next < |data| then NonceFrom(data, next, n) else n
  }

  /** The nonce is 16 bytes, or the old nonce when the challenge has no nonce triplet. */
  lemma {:induction false} NonceFromLength(data: seq<byte>, offset: nat, nonce: seq<byte>)
    requires ChallengeFrom(data, offset) && |nonce| == DigestLength
    ensures |NonceFrom(data, offset, nonce)| == DigestLength
    decreases |data| - offset
  {
    var next := offset + 2 + data[offset + 1] as int;
    var n := if data[offset] == NonceTag then data[offset + 2..offset + 2 + DigestLength] else nonce;
    if next < |data| {
      NonceFromLength(data, next, n);
    }
  }

  /** An options triplet followed by the nonce triplet yields that nonce. */
  lemma NonceAfterOptions(options: byte, nonce: seq<byte>, previous: seq<byte>)
    requires |nonce| == DigestLength
    ensures var data := [0x01, 1, options, NonceTag, 16] + nonce;
      WellFormedChallenge(data) && NonceFrom(data, 0, previous) == nonce
  {
    var data := [0x01, 1, options, NonceTag, 16] + nonce;
    assert data[3] == NonceTag && data[4] == 16;
    assert ChallengeFrom(data, 3);
    assert data[5..21] == nonce;
  }

  // ---------------------------------------------------------------------
  // Digest response: the bytes the request-digest is computed over

  /** UTF-8 encoding of one Unicode scalar value. */
  function Utf8Char(c: char): (r: seq<byte>)
    ensures 1 <= |r| <= 4
    ensures |r| == 1 <==> (c as int) < 0x80
  {
    var n := c as int;
    if n < 0x80 then [n as byte]
    else if n < 0x800 then [(0xC0 + n / 64) as byte, (0x80 + n % 64) as byte]
    else if n < 0x1_0000 then [(0xE0 + n / 4096) as byte, (0x80 + (n / 64) % 64) as byte, (0x80 + n % 64) as byte]
    else [(0xF0 + n / 262144) as byte, (0x80 + (n / 4096) % 64) as byte, (0x80 + (n / 64) % 64) as byte, (0x80 + n % 64) as byte]
  }

  /** NS_ConvertUTF16toUTF8. */
  function Utf8(s: string): seq<byte> {
    if |s| == 0 then [] else Utf8Char(s[0]) + Utf8(s[1..])
  }

  /** nsString::Length: the number of UTF-16 code units. */
  function Utf16Length(s: string): nat {
    if |s| == 0 then 0 else (if (s[0] as int) < 0x1_0000 then 1 else 2) + Utf16Length(s[1..])
  }

  predicate IsAscii(s: string) {
    forall i | 0 <= i < |s| :: (s[i] as int) < 0x80
  }

  /** A password never has more UTF-16 units than UTF-8 bytes, and the two agree exactly on ASCII. */
  lemma {:induction false} Utf16NotLongerThanUtf8(s: string)
    ensures Utf16Length(s) <= |Utf8(s)|
    ensures Utf16Length(s) == |Utf8(s)| <==> IsAscii(s)
  {
    if |s| > 0 {
      Utf16NotLongerThanUtf8(s[1..]);
      assert IsAscii(s) <==> (s[0] as int) < 0x80 && IsAscii(s[1..]) by {
        assert forall i | 1 <= i < |s| :: s[i] == s[1..][i - 1];
      }
    }
  }

  const Colon: byte := 0x3A

  /**
   * H(nonce ":" password) as ReplyToConnect builds its input: the buffer has
   * room for Length() bytes of the password, so only that many bytes of its
   * UTF-8 form are copied.
   */
  function DigestInputAsWritten(nonce: seq<byte>, password: string): (r: seq<byte>)
    ensures |r| == |nonce| + 1 + Utf16Length(password)
  {
    Utf16NotLongerThanUtf8(password);
    nonce + [Colon] + Utf8(password)[..Utf16Length(password)]
  }

  /** H(nonce ":" password) of section 3.5.2.1 of PBAP 1.2, over the whole UTF-8 password. */
  function DigestInput(nonce: seq<byte>, password: string): (r: seq<byte>)
    ensures |r| == |nonce| + 1 + |Utf8(password)|
    ensures r[|nonce| + 1..] == Utf8(password)
  {
    nonce + [Colon] + Utf8(password)
  }

  /** The two inputs coincide exactly for ASCII passwords. */
  lemma DigestInputsAgreeOnAscii(nonce: seq<byte>, password: string)
    ensures DigestInputAsWritten(nonce, password) == DigestInput(nonce, password) <==> IsAscii(password)
  {
    Utf16NotLongerThanUtf8(password);
    if IsAscii(password) {
      assert Utf8(password)[..Utf16Length(password)] == Utf8(password);
    } else {
      assert |DigestInputAsWritten(nonce, password)| < |DigestInput(nonce, password)|;
    }
  }

  /** "é" and "è" differ, yet the as-written input is the same for both: both passwords give the same digest. */
  lemma AsWrittenDigestConfusesPasswords(nonce: seq<byte>)
    ensures var e1, e2 := [0xE9 as char], [0xE8 as char];
      e1 != e2 && DigestInputAsWritten(nonce, e1) == DigestInputAsWritten(nonce, e2) &&
      DigestInputAsWritten(nonce, e1) == nonce + [Colon, 0xC3]
  {
    var e1, e2 := [0xE9 as char], [0xE8 as char];
    assert Utf8(e1) == [0xC3, 0xA9] && Utf16Length(e1) == 1;
    assert Utf8(e2) == [0xC3, 0xA8] && Utf16Length(e2) == 1;
    assert Utf8(e1)[..1] == Utf8(e2)[..1] == [0xC3];
  }

  /** The corrected input tells the two apart, and determines the password's UTF-8 bytes in general. */
  lemma DigestInputSeparatesPasswords(nonce: seq<byte>, p1: string, p2: string)
    requires Utf8(p1) != Utf8(p2)
    ensures DigestInput(nonce, p1) != DigestInput(nonce, p2)
  {
    assert DigestInput(nonce, p1)[|nonce| + 1..] == Utf8(p1);
  }

  // ---------------------------------------------------------------------
  // Responses and signals

  /** Feature bits of the PbapSupportedFeatures parameter, section 6.2.1 of PBAP 1.2. */
  const FeatureDatabaseIdentifier: nat := 2
  const FeatureFolderVersionCounters: nat := 3

  /** The 128-bit zero sent as both folder version counters and as the database identifier. */
  const ZeroCounter: seq<byte> := [0, 0, 0, 0, 0, 0, 0, 0, 0, 0, 0, 0, 0, 0, 0, 0]

  /** The headers the server writes into Connect responses. */
  datatype Header =
    | ConnectionIdHeader(connectionId: nat)
    | WhoHeader(who: seq<byte>)
    | AuthResponseHeader(requestDigest: seq<byte>, nonce: seq<byte>)

  /** Encoded size of a list of tag-length-value triplets. */
  function ParamsLength(ps: seq<AppParam>): nat {
    if |ps| == 0 then 0 else ParamsLength(ps[..|ps| - 1]) + 2 + |ps[|ps| - 1].value|
  }

  /** Encoded size of one header: identifier, two length bytes where the header kind has them, and the data. */
  function HeaderLength(h: Header): nat {
    match h
    case ConnectionIdHeader(_) => 5
    case WhoHeader(who) => 3 + |who|
    case AuthResponseHeader(d, n) => 3 + (2 + |d|) + (2 + |n|)
  }

  function HeadersLength(hs: seq<Header>): nat {
    if |hs| == 0 then 0 else HeadersLength(hs[..|hs| - 1]) + HeaderLength(hs[|hs| - 1])
  }

  /** What ends a GET response: nothing, an End-of-Body header, or a Body header with the next bytes of the object. */
  datatype BodyPart = NoBody | EndOfBody | Body(bytes: seq<byte>)

  function BodyPartLength(b: BodyPart): nat {
    match b
    case NoBody => 0
    case EndOfBody => BodyHeaderSize
    case Body(bs) => BodyHeaderSize + |bs|
  }

  /**
   * A response: its code and headers. A Connect response also carries
   * version, flags and maximum packet size. A GET response is laid out as the
   * server writes it: the SRM header when `srm` holds, one Application
   * Parameters header when `params` is non-empty, then its body part.
   */
  datatype Packet =
    | Response(code: byte, headers: seq<Header>)
    | ConnectResponse(code: byte, version: byte, flags: byte, maxPacketLength: int, headers: seq<Header>)
    | GetResponse(code: byte, srm: bool, params: seq<AppParam>, body: BodyPart)

  function PacketLength(p: Packet): nat {
    match p
    case Response(_, hs) => RespHeaderSize + HeadersLength(hs)
    case ConnectResponse(_, _, _, _, hs) => RespHeaderSize + 4 + HeadersLength(hs)
    case GetResponse(_, srm, ps, b) =>
      RespHeaderSize + (if srm then 2 else 0) + (if ps == [] then 0 else 3 + ParamsLength(ps)) + BodyPartLength(b)
  }

  /** System messages distributed to the front end. */
  datatype Signal =
    | ConnectionRequestSignal(address: seq<byte>)
    | PasswordRequestSignal
    | PbapRequestSignal(requestId: string, values: seq<NamedValue>)

  predicate HasTag(ps: seq<AppParam>, tag: byte) {
    exists i | 0 <= i < |ps| :: ps[i].tag == tag
  }

  /** The parameters the PBAP 1.2 features the client announced make mandatory in every GET response. */
  function FeatureParams(features: nat): (ps: seq<AppParam>)
    requires features < 0x1_0000_0000
    ensures HasTag(ps, PrimaryVersionCounter) <==> CheckFeatureSupport(features, FeatureFolderVersionCounters)
    ensures HasTag(ps, SecondaryVersionCounter) <==> CheckFeatureSupport(features, FeatureFolderVersionCounters)
    ensures HasTag(ps, DatabaseIdentifier) <==> CheckFeatureSupport(features, FeatureDatabaseIdentifier)
    ensures forall i | 0 <= i < |ps| :: ps[i].value == ZeroCounter
    ensures |ps| <= 3 && ParamsLength(ps) <= 54
  {
    var counters := CheckFeatureSupport(features, FeatureFolderVersionCounters);
    var database := CheckFeatureSupport(features, FeatureDatabaseIdentifier);
    var primary := AppParam(PrimaryVersionCounter, ZeroCounter);
    var secondary := AppParam(SecondaryVersionCounter, ZeroCounter);
    var identifier := AppParam(DatabaseIdentifier, ZeroCounter);
    var ps := if counters && database then [primary, secondary, identifier]
      else if counters then [primary, secondary]
      else if database then [identifier]
      else [];
    assert [primary, secondary, identifier][..2] == [primary, secondary];
    assert [primary, secondary][..1] == [primary];
    assert [primary][..0] == [identifier][..0] == [];
    assert counters ==> ps[0] == primary && ps[1] == secondary;
    assert database ==> ps[|ps| - 1] == identifier;
    assert ParamsLength([primary]) == ParamsLength([identifier]) == 18;
    assert ParamsLength([primary, secondary]) == 36;
    ps
  }

  /** BigEndian::writeUint16 */
  function Uint16Bytes(n: nat): (r: seq<byte>)
    requires n < 0x1_0000
    ensures |r| == 2 && ReadUint16(r[0], r[1]) == n
  {
    [(n / 256) as byte, (n % 256) as byte]
  }

  /** `s`, with `x` appended when `c` holds. */
  function AppendIf<T>(s: seq<T>, c: bool, x: T): (r: seq<T>)
    ensures r == if c then s + [x] else s
  {
    if c then s + [x] else s
  }

  /** The response to an accepted Connect: version 1.0, no flags, our maximum packet size, then the headers. */
  function ConnectReply(auth: seq<Header>): Packet {
    ConnectResponse(Success, 0x10, 0x00, MaxPacketLength,
      [ConnectionIdHeader(1), WhoHeader(PbapObexTarget)] + auth)
  }

  /** The address BluetoothAddress::Clear leaves. */
  const ClearedAddress: seq<byte> := [0, 0, 0, 0, 0, 0]

  type SocketId = nat

  // ---------------------------------------------------------------------
  // GET responses

  /** The parameters of a reply from the stream: the feature parameters, then NewMissedCalls when asked for. */
  function StreamReplyParams(features: seq<AppParam>, missedCalls: bool, size: nat): seq<AppParam> {
    features + (if missedCalls then [AppParam(NewMissedCalls, [(size % 256) as byte])] else [])
  }

  /** Appending one triplet adds its tag, its length byte and its value. */
  lemma ParamsLengthAppend(ps: seq<AppParam>, p: AppParam)
    ensures ParamsLength(ps + [p]) == ParamsLength(ps) + 2 + |p.value|
  {
    assert (ps + [p])[..|ps|] == ps;
  }

  /**
   * `reply` answers a GET: it carries the SRM header exactly when one is owed;
   * with the phone-book size required the reply is a Success carrying the size
   * and no body; otherwise an exhausted stream ends with End-of-Body and
   * Success, and a non-empty one sends its next chunk with Continue, the rest
   * staying in the stream. The reply never exceeds the remote maximum.
   */
  ghost predicate IsGetReply(reply: Packet, srmOwed: bool, features: seq<AppParam>, sizeRequired: bool,
    missedCalls: bool, size: nat, stream: Option<seq<byte>>, rest: Option<seq<byte>>, max: nat)
    requires size < 0x1_0000
  {
    reply.GetResponse? && PacketLength(reply) <= max && reply.srm == srmOwed &&
    (sizeRequired ==>
      reply.code == Success && reply.body == NoBody && rest == stream &&
      reply.params == features + [AppParam(PhonebookSize, Uint16Bytes(size))]) &&
    (!sizeRequired ==>
      stream.Some? && reply.params == StreamReplyParams(features, missedCalls, size) &&
      (stream.value == [] ==> reply.code == Success && reply.body == EndOfBody && rest.None?) &&
      (stream.value != [] ==>
        reply.code == Continue && reply.body.Body? && reply.body.bytes != [] && rest.Some? &&
        stream.value == reply.body.bytes + rest.value))
  }

  /**
   * The response ReplyToGet builds, and what is left of the stream after it:
   * the size alone when it is required, otherwise End-of-Body for an
   * exhausted stream or the next chunk of at most `readLimit` bytes that fits
   * beside the headers.
   */
  method BuildGetReply(srmOwed: bool, features: seq<AppParam>, sizeRequired: bool, missedCalls: bool, size: nat,
    stream: Option<seq<byte>>, readLimit: nat, max: nat) returns (reply: Packet, rest: Option<seq<byte>>)
    requires size < 0x1_0000 && max >= LeastMaxSize && readLimit >= 1
    requires ParamsLength(features) <= 54
    requires !sizeRequired ==> stream.Some?
    ensures IsGetReply(reply, srmOwed, features, sizeRequired, missedCalls, size, stream, rest, max)
    ensures !sizeRequired && stream.value != [] ==> |reply.body.bytes| <= readLimit
  {
    if sizeRequired {
      var sizeParam := AppParam(PhonebookSize, Uint16Bytes(size));
      ParamsLengthAppend(features, sizeParam);
      return GetResponse(Success, srmOwed, features + [sizeParam], NoBody), stream;
    }
    var params := StreamReplyParams(features, missedCalls, size);
    if missedCalls {
      ParamsLengthAppend(features, AppParam(NewMissedCalls, [(size % 256) as byte]));
    } else {
      assert params == features;
    }
    assert ParamsLength(params) <= 57;
    if |stream.value| == 0 {
      return GetResponse(Success, srmOwed, params, EndOfBody), None;
    }
    // The response header, the SRM header and the parameters come before the body.
    var index := RespHeaderSize + (if srmOwed then 2 else 0) + (if params == [] then 0 else 3 + ParamsLength(params));
    var remaining := max - BodyHeaderSize - index;
    var numRead := Min(Min(readLimit, remaining), |stream.value|);
    assert stream.value == stream.value[..numRead] + stream.value[numRead..];
    return GetResponse(Continue, srmOwed, params, Body(stream.value[..numRead])), Some(stream.value[numRead..]);
  }

  function Min(a: int, b: int): (m: int)
    ensures m <= a && m <= b && (m == a || m == b)
  {
    if a <= b then a else b
  }

  // ---------------------------------------------------------------------
  // Requests

  /**
   * A received packet: its bytes, and the header set ParseHeaders produced from
   * the bytes after the opcode's fixed fields (None when parsing failed).
   */
  datatype Message = Message(data: seq<byte>, parsed: Option<Headers>)

  /** What ReceiveSocketData does with a packet, decided by its size and opcode. */
  datatype Step =
    | Malformed
    | ConnectRequest
    | DisconnectRequest
    | SetPathRequest
    | GetRequest
    | PutRequest
    | UnknownRequest

  function StepFor(data: seq<byte>): (s: Step)
    ensures s == Malformed <==> |data| < 1 || |data| > MaxPacketLength
    ensures s != Malformed ==>
      (s == ConnectRequest <==> data[0] == Connect) &&
      (s == DisconnectRequest <==> data[0] == Disconnect || data[0] == Abort) &&
      (s == SetPathRequest <==> data[0] == SetPath) &&
      (s == GetRequest <==> data[0] == Get || data[0] == GetFinal) &&
      (s == PutRequest <==> data[0] == Put || data[0] == PutFinal)
  {
    if |data| < 1 || |data| > MaxPacketLength then Malformed
    else if data[0] == Connect then ConnectRequest
    else if data[0] == Disconnect || data[0] == Abort then DisconnectRequest
    else if data[0] == SetPath then SetPathRequest
    else if data[0] == Get || data[0] == GetFinal then GetRequest
    else if data[0] == Put || data[0] == PutFinal then PutRequest
    else UnknownRequest
  }

  /** A request whose fixed fields occupy `fixed` bytes is parsed: it is long enough and its headers parsed. */
  predicate Parsed(m: Message, fixed: nat) {
    |m.data| >= fixed && m.parsed.Some?
  }

  /** A Connect passes the header checks: long enough, headers parsed, and targeting the PBAP service. */
  predicate ConnectTargetsPbap(m: Message) {
    Parsed(m, 7) && m.parsed.value.target == Some(PbapObexTarget)
  }

  /** The maximum packet size a Connect announces, bytes 5 and 6 big-endian. */
  function ConnectMaxPacketLength(m: Message): (r: nat)
    requires |m.data| >= 7
    ensures r < 0x1_0000
  {
    ReadUint16(m.data[5], m.data[6])
  }

  predicate ConnectAccepted(m: Message) {
    ConnectTargetsPbap(m) && ConnectMaxPacketLength(m) >= LeastMaxSize
  }

  /** The digest challenge of a request, where there is one, is well formed. */
  ghost predicate ChallengeWellFormed(m: Message) {
    m.parsed.Some? && m.parsed.value.authChallenge.Some? ==> WellFormedChallenge(m.parsed.value.authChallenge.value)
  }

  /** mPceSupportedFeatures after a Connect: the big-endian first four bytes of the read buffer, 0 when absent. */
  function FeaturesOf(h: Headers, buf: seq<byte>): (r: nat)
    requires |buf| == AppParameterBufferSize
    ensures r < 0x1_0000_0000
    ensures FindAppParameter(h.appParameters, PbapSupportedFeatures).None? ==> r == 0
    ensures var v := FindAppParameter(h.appParameters, PbapSupportedFeatures);
      v.Some? && |v.value| >= 4 ==> r == ReadUint32(v.value[..4])
  {
    var got := GetAppParameter(h, PbapSupportedFeatures, buf);
    if got.None? then 0 else
      var v := FindAppParameter(h.appParameters, PbapSupportedFeatures).value;
      assert |v| >= 4 ==> got.value[..4] == v[..4];
      ReadUint32(got.value[..4])
  }

  // ---------------------------------------------------------------------
  // The server

  class Manager {
    var connected: bool
    /** The Connect carried a digest challenge: a password is needed before replying. */
    var passwordReqNeeded: bool
    /** The current PULL request had MaxListCount 0: reply with the phone-book size only. */
    var phonebookSizeRequired: bool
    var newMissedCallsRequired: bool
    var pceSupportedFeatures: nat
    var deviceAddress: seq<byte>
    var currentPath: string
    var remoteMaxPacketLength: nat
    var remoteNonce: seq<byte>
    var hashRes: seq<byte>
    /** The three file-scope SRM flags, modelled as a field of the single manager. */
    var srm: SrmFlags
    var socket: Option<SocketId>
    var rfcommServerSocket: Option<SocketId>
    var l2capServerSocket: Option<SocketId>
    /** The bytes of the vCard object not yet sent; None when no stream is open. */
    var vCardStream: Option<seq<byte>>
    /** Packets written to the socket, oldest first. */
    var sent: seq<Packet>
    /** System messages distributed, oldest first. */
    var signals: seq<Signal>
    /** SRM tasks posted to the message loop. */
    var srmTasksPosted: nat

    ghost predicate Valid()
      reads this`srm, this`remoteNonce, this`hashRes, this`pceSupportedFeatures
    {
      SrmConsistent(srm) && |remoteNonce| == DigestLength && |hashRes| == DigestLength &&
      pceSupportedFeatures < 0x1_0000_0000
    }

    constructor ()
      ensures Valid()
      ensures !connected && !passwordReqNeeded && !phonebookSizeRequired && !newMissedCallsRequired
      ensures currentPath == "" && remoteMaxPacketLength == 0 && srm == SrmOff
      ensures socket.None? && rfcommServerSocket.None? && l2capServerSocket.None? && vCardStream.None?
      ensures sent == [] && signals == [] && srmTasksPosted == 0
    {
      connected, passwordReqNeeded := false, false;
      phonebookSizeRequired, newMissedCallsRequired := false, false;
      pceSupportedFeatures := 0;
      deviceAddress := ClearedAddress;
      currentPath := "";
      remoteMaxPacketLength := 0;
      remoteNonce, hashRes := ZeroCounter, ZeroCounter;
      srm := SrmOff;
      socket, rfcommServerSocket, l2capServerSocket := None, None, None;
      vCardStream := None;
      sent, signals, srmTasksPosted := [], [], 0;
    }

    /** SendObexData over a stack buffer: nothing is sent without a connected socket. */
    method SendObexData(p: Packet) returns (ok: bool)
      modifies this`sent
      ensures ok <==> socket.Some?
      ensures sent == AppendIf(old(sent), socket.Some?, p)
    {
      if socket.None? {
        return false;
      }
      sent := sent + [p];
      return true;
    }

    /** SendObexData over an owned buffer writes to the socket without checking it. */
    method SendObexDataOwned(p: Packet)
      requires socket.Some?
      modifies this`sent
      ensures sent == old(sent) + [p]
    {
      sent := sent + [p];
    }

    /** A response with no headers, carrying only the code. */
    method ReplyError(code: byte) returns (ok: bool)
      modifies this`sent
      ensures ok <==> socket.Some?
      ensures sent == AppendIf(old(sent), socket.Some?, Response(code, []))
    {
      ok := SendObexData(Response(code, []));
    }

    method ReplyToDisconnectOrAbort()
      modifies this`sent
      ensures sent == AppendIf(old(sent), connected && socket.Some?, Response(Success, []))
    {
      if !connected {
        return;
      }
      var _ := SendObexData(Response(Success, []));
    }

    method ReplyToSetPath()
      modifies this`sent
      ensures sent == AppendIf(old(sent), connected && socket.Some?, Response(Success, []))
    {
      if !connected {
        return;
      }
      var _ := SendObexData(Response(Success, []));
    }

    method AfterPbapConnected()
      modifies this`currentPath, this`connected
      ensures connected && currentPath == ""
    {
      currentPath := "";
      connected := true;
    }

    /** Ends the session: the phone-book request flags drop and an open vCard stream is closed. */
    method AfterPbapDisconnected()
      modifies this`connected, this`remoteMaxPacketLength, this`phonebookSizeRequired,
        this`newMissedCallsRequired, this`vCardStream
      ensures !connected && remoteMaxPacketLength == 0
      ensures !phonebookSizeRequired && !newMissedCallsRequired && vCardStream.None?
    {
      connected := false;
      remoteMaxPacketLength := 0;
      phonebookSizeRequired := false;
      newMissedCallsRequired := false;
      vCardStream := None;
    }

    /** Asks the front end to accept the connection; `serviceUp` says whether the Bluetooth service exists. */
    method NotifyConnectionRequest(serviceUp: bool) returns (code: byte)
      modifies this`signals
      ensures code == (if serviceUp then Success else PreconditionFailed)
      ensures signals == AppendIf(old(signals), serviceUp, ConnectionRequestSignal(deviceAddress))
    {
      if !serviceUp {
        return PreconditionFailed;
      }
      signals := signals + [ConnectionRequestSignal(deviceAddress)];
      return Success;
    }

    method NotifyPasswordRequest(serviceUp: bool) returns (code: byte)
      modifies this`signals
      ensures code == (if serviceUp then Success else PreconditionFailed)
      ensures signals == AppendIf(old(signals), serviceUp, PasswordRequestSignal)
    {
      if !serviceUp {
        return PreconditionFailed;
      }
      signals := signals + [PasswordRequestSignal];
      return Success;
    }

    /**
     * Accepts the Connect. A non-empty password answers the digest challenge:
     * the request-digest is `md5` of the nonce, a colon and the password, and
     * is kept only when it has the digest length.
     */
    method ReplyToConnect(password: string, md5: seq<byte> -> seq<byte>) returns (ok: bool)
      requires |remoteNonce| == DigestLength && |hashRes| == DigestLength
      modifies this`hashRes, this`sent
      ensures |hashRes| == DigestLength
      ensures old(connected) ==> ok && sent == old(sent) && hashRes == old(hashRes)
      ensures !connected && password == "" ==>
        hashRes == old(hashRes) && (ok <==> socket.Some?) && sent == AppendIf(old(sent), socket.Some?, ConnectReply([]))
      ensures !connected && password != "" ==>
        var digest := md5(DigestInput(remoteNonce, password));
        hashRes == (if |digest| == DigestLength then digest else old(hashRes)) && (ok <==> socket.Some?) &&
        sent == AppendIf(old(sent), socket.Some?, ConnectReply([AuthResponseHeader(hashRes, remoteNonce)]))
    {
      if connected {
        return true;
      }
      var auth: seq<Header> := [];
      if password != "" {
        var digest := md5(DigestInput(remoteNonce, password));
        if |digest| == DigestLength {
          hashRes := digest;
        }
        auth := [AuthResponseHeader(hashRes, remoteNonce)];
      }
      ok := SendObexData(ConnectReply(auth));
    }

    /** The front end's password: empty cancels with Unauthorized, otherwise the Connect is answered. */
    method ReplyToAuthChallenge(password: string, md5: seq<byte> -> seq<byte>)
      requires Valid()
      modifies this`passwordReqNeeded, this`hashRes, this`sent, this`currentPath, this`connected
      ensures Valid() && !passwordReqNeeded
      ensures password == "" ==>
        connected == old(connected) && currentPath == old(currentPath) && hashRes == old(hashRes) &&
        sent == AppendIf(old(sent), socket.Some?, Response(Unauthorized, []))
      ensures password != "" ==> connected && currentPath == ""
      ensures password != "" && old(connected) ==> sent == old(sent)
      ensures password != "" && !old(connected) ==>
        sent == AppendIf(old(sent), socket.Some?, ConnectReply([AuthResponseHeader(hashRes, remoteNonce)]))
    {
      passwordReqNeeded := false;
      if password == "" {
        var _ := ReplyError(Unauthorized);
        return;
      }
      var _ := ReplyToConnect(password, md5);
      AfterPbapConnected();
    }

    /** The front end's answer to the connection request. */
    method ReplyToConnectionRequest(accept: bool, serviceUp: bool) returns (ok: bool)
      requires Valid()
      modifies this`hashRes, this`sent, this`signals, this`currentPath, this`connected
      ensures Valid()
      ensures !accept ==>
        (ok <==> socket.Some?) && sent == AppendIf(old(sent), socket.Some?, Response(Forbidden, [])) &&
        connected == old(connected) && signals == old(signals)
      ensures accept && passwordReqNeeded ==>
        ok == serviceUp && connected == old(connected) &&
        signals == AppendIf(old(signals), serviceUp, PasswordRequestSignal) &&
        sent == AppendIf(old(sent), !serviceUp && socket.Some?, Response(PreconditionFailed, []))
      ensures accept && !passwordReqNeeded && old(connected) ==> ok && connected && currentPath == "" && sent == old(sent)
      ensures accept && !passwordReqNeeded && !old(connected) ==>
        (ok <==> socket.Some?) && (connected <==> ok) && (ok ==> currentPath == "") &&
        sent == AppendIf(old(sent), socket.Some?, ConnectReply([])) && signals == old(signals)
    {
      if !accept {
        ok := ReplyError(Forbidden);
        return;
      }
      if passwordReqNeeded {
        var code := NotifyPasswordRequest(serviceUp);
        if code != Success {
          var _ := ReplyError(code);
          return false;
        }
        return true;
      }
      // The default password is empty, so the hash function is never applied.
      ok := ReplyToConnect("", (s: seq<byte>) => s);
      if ok {
        AfterPbapConnected();
      }
    }

    /**
     * Walks the tag-length-value triplets of the digest challenge and keeps the
     * nonce of the last nonce triplet. The walk has no bounds check, so the
     * challenge is required to be well formed.
     */
    method GetRemoteNonce(challenge: seq<byte>)
      requires WellFormedChallenge(challenge)
      modifies this`remoteNonce
      ensures remoteNonce == NonceFrom(challenge, 0, old(remoteNonce))
    {
      var offset: nat := 0;
      while true
        invariant ChallengeFrom(challenge, offset)
        invariant NonceFrom(challenge, offset, remoteNonce) == NonceFrom(challenge, 0, old(remoteNonce))
        decreases |challenge| - offset
      {
        var tagId := challenge[offset];
        var length := challenge[offset + 1];
        ghost var before := remoteNonce;
        if tagId == NonceTag {
          remoteNonce := challenge[offset + 2..offset + 2 + DigestLength];
        }
        var next := offset + 2 + length as int;
        if next >= |challenge| {
          assert NonceFrom(challenge, offset, before) == remoteNonce;
          return;
        }
        offset := next;
      }
    }

    /** SetPhoneBookPath: moves up, to the root or down one folder; only legal paths are entered. */
    method SetPhoneBookPath(h: Headers, flags: byte) returns (code: byte)
      modifies this`currentPath
      ensures code == Success || code == BadRequest || code == NotFound
      ensures code == BadRequest <==> flags / 2 != 1
      ensures flags / 2 == 1 ==>
        (code == Success <==> SetPathTarget(old(currentPath), flags, NameOf(h)) in LegalPaths)
      ensures code == Success ==>
        currentPath == SetPathTarget(old(currentPath), flags, NameOf(h)) && currentPath in LegalPaths
      ensures code != Success ==> currentPath == old(currentPath)
    {
      if flags / 2 != 1 {
        return BadRequest;
      }
      var newPath := currentPath;
      if flags % 2 == 1 {
        if newPath != "" {
          var lastSlash := LastIndexOf(newPath, '/');
          if lastSlash != -1 {
            newPath := newPath[..lastSlash];
          } else {
            newPath := "";
          }
        }
      } else {
        var child := NameOf(h);
        if child == "" {
          newPath := "";
        } else {
          if newPath != "" {
            newPath := newPath + "/";
          }
          newPath := newPath + child;
        }
      }
      assert newPath == SetPathTarget(currentPath, flags, NameOf(h));
      var legal := IsLegalPath(newPath);
      if !legal {
        return NotFound;
      }
      currentPath := newPath;
      return Success;
    }
  
    /** One AppendNamedValueByTagId call: the named value for `tag`, read into `buf`. */
    method AppendNamedValueByTagId(h: Headers, values: seq<NamedValue>, tag: byte, buf: seq<byte>) returns (r: seq<NamedValue>)
      requires |buf| == AppParameterBufferSize
      modifies this`phonebookSizeRequired
      ensures r == values + OptionToSeq(TagValue(h, tag, buf))
      ensures phonebookSizeRequired == SizeRequiredAfterTag(h, tag, buf, old(phonebookSizeRequired))
    {
      r := values;
      var got := GetAppParameter(h, tag, buf);
      if got.None? {
        return;
      }
      var b := got.value;
      if tag == Order {
        r := r + [NamedValue("order", Number(if (b[0] as int) < OrderTypeCount then b[0] as int else 0))];
      } else if tag == SearchProperty {
        r := r + [NamedValue("searchKey", Number(if (b[0] as int) < SearchKeyTypeCount then b[0] as int else 0))];
      } else if tag == SearchValue {
        r := r + [NamedValue("searchText", Utf8Text(CString(b)))];
      } else if tag == MaxListCount {
        var maxListCount := ReadUint16(b[0], b[1]);
        r := r + [NamedValue("maxListCount", Number(maxListCount))];
        phonebookSizeRequired := maxListCount == 0;
      } else if tag == ListStartOffset {
        r := r + [NamedValue("listStartOffset", Number(ReadUint16(b[0], b[1])))];
      } else if tag == PropertySelector {
        var selector := PackPropertiesMask(b);
        r := r + [NamedValue("propSelector", Indices(selector))];
      } else if tag == Format {
        r := r + [NamedValue("format", Flag(b[0] != 0))];
      } else if tag == VCardSelector {
        var op := GetAppParameter(h, VCardSelectorOperator, b);
        if op.Some? {
          b := op.value;
        }
        var selector := PackPropertiesMask(b);
        r := r + [NamedValue(if op.Some? && b[0] != 0 then "vCardSelector_AND" else "vCardSelector_OR", Indices(selector))];
      }
    }

    /** The loop of NotifyPbapRequest over the request type's tag list. */
    method AppendTagValues(h: Headers, tags: seq<byte>, buf: seq<byte>) returns (values: seq<NamedValue>)
      requires |buf| == AppParameterBufferSize
      modifies this`phonebookSizeRequired
      ensures values == TagValues(h, tags, buf)
      ensures phonebookSizeRequired == SizeRequiredAfter(h, tags, buf, old(phonebookSizeRequired))
    {
      values := [];
      for i := 0 to |tags|
        invariant values == TagValues(h, tags[..i], buf)
        invariant phonebookSizeRequired == SizeRequiredAfter(h, tags[..i], buf, old(phonebookSizeRequired))
      {
        assert tags[..i + 1][..i] == tags[..i];
        values := AppendNamedValueByTagId(h, values, tags[i], buf);
      }
      assert tags[..|tags|] == tags;
    }

    /**
     * Forwards a PULL request to the front end, or refuses it with the code
     * the request type's checks give; `serviceUp` says whether the Bluetooth
     * service exists.
     */
    method NotifyPbapRequest(h: Headers, serviceUp: bool, buf: seq<byte>) returns (code: byte)
      requires |buf| == AppParameterBufferSize
      modifies this`phonebookSizeRequired, this`newMissedCallsRequired, this`signals
      ensures var c := ClassifyPull(ContentTypeOf(h), NameOf(h), currentPath);
        (c.Rejected? ==>
          code == c.code && signals == old(signals) && !phonebookSizeRequired && !newMissedCallsRequired) &&
        (c.Pull? ==> newMissedCallsRequired == c.request.newMissedCalls) &&
        (c.Pull? && !serviceUp ==> code == PreconditionFailed && signals == old(signals) && !phonebookSizeRequired) &&
        (c.Pull? && serviceUp ==>
          code == Success && phonebookSizeRequired == SizeRequiredAfter(h, c.request.tags, buf, false) &&
          signals == old(signals) + [PbapRequestSignal(c.request.requestId,
            [NamedValue("name", Text(c.request.objectName))] + TagValues(h, c.request.tags, buf))])
    {
      phonebookSizeRequired := false;
      newMissedCallsRequired := false;
      var contentType, name := ContentTypeOf(h), NameOf(h);
      var requestId: string, tags: seq<byte>;
      if contentType == "x-bt/phonebook" {
        requestId, tags := PullPhonebookReqId, PhonebookTags;
        var legal := IsLegalPhonebookName(name);
        if !legal {
          return NotFound;
        }
        if Contains(name, "mch") {
          newMissedCallsRequired := true;
        }
      } else if contentType == "x-bt/vcard-listing" {
        requestId, tags := PullVCardListingReqId, VCardListingTags;
        name := if name == "" then currentPath else currentPath + "/" + name;
        if Contains(name, "mch") {
          newMissedCallsRequired := true;
        }
      } else if contentType == "x-bt/vcard" {
        requestId, tags := PullVCardEntryReqId, VCardEntryTags;
        if Contains(name, ".vcf") {
          name := currentPath + "/" + name;
        } else {
          return NotAcceptable;
        }
      } else {
        return BadRequest;
      }
      if !serviceUp {
        return PreconditionFailed;
      }
      var values := AppendTagValues(h, tags, buf);
      signals := signals + [PbapRequestSignal(requestId, [NamedValue("name", Text(name))] + values)];
      return Success;
    }

    /** Opens the blob's stream, closing any stream still open; `blob` is None when the blob cannot be read. */
    method GetInputStreamFromBlob(blob: Option<seq<byte>>) returns (ok: bool)
      modifies this`vCardStream
      ensures ok == blob.Some? && vCardStream == blob
    {
      vCardStream := blob;
      return blob.Some?;
    }

    /**
     * Answers a GET. `readLimit` is how many bytes one read of the stream
     * yields at most.
     */
    method ReplyToGet(phonebookSize: nat, readLimit: nat) returns (ok: bool, reply: Packet)
      requires Valid() && phonebookSize < 0x1_0000 && readLimit >= 1
      requires remoteMaxPacketLength >= LeastMaxSize
      requires connected ==> socket.Some?
      requires connected && !phonebookSizeRequired ==> vCardStream.Some?
      modifies this`srm, this`phonebookSizeRequired, this`newMissedCallsRequired, this`vCardStream,
        this`sent, this`srmTasksPosted
      ensures Valid() && ok == old(connected)
      ensures !ok ==>
        sent == old(sent) && srm == old(srm) && phonebookSizeRequired == old(phonebookSizeRequired) &&
        newMissedCallsRequired == old(newMissedCallsRequired) && vCardStream == old(vCardStream)
      ensures ok ==>
        sent == old(sent) + [reply] && srm == old(srm).(responsePending := false) &&
        !phonebookSizeRequired && newMissedCallsRequired == (old(phonebookSizeRequired) && old(newMissedCallsRequired)) &&
        IsGetReply(reply, old(srm.responsePending), FeatureParams(pceSupportedFeatures), old(phonebookSizeRequired),
          old(newMissedCallsRequired), phonebookSize, old(vCardStream), vCardStream, remoteMaxPacketLength)
      ensures srmTasksPosted == old(srmTasksPosted) + (if ok && srm.active && reply.code == Continue then 1 else 0)
    {
      if !connected {
        return false, Response(0, []);
      }
      var rest;
      reply, rest := BuildGetReply(srm.enabled && srm.responsePending, FeatureParams(pceSupportedFeatures),
        phonebookSizeRequired, newMissedCallsRequired, phonebookSize, vCardStream, readLimit, remoteMaxPacketLength);
      SendGetReply(reply, rest);
      ok := true;
    }

    /** The state ReplyToGet leaves once the reply is built: flags reset, the stream advanced, the reply sent. */
    method SendGetReply(reply: Packet, rest: Option<seq<byte>>)
      requires Valid() && socket.Some?
      modifies this`srm, this`phonebookSizeRequired, this`newMissedCallsRequired, this`vCardStream,
        this`sent, this`srmTasksPosted
      ensures Valid() && srm == old(srm).(responsePending := false)
      ensures !phonebookSizeRequired && newMissedCallsRequired == (old(phonebookSizeRequired) && old(newMissedCallsRequired))
      ensures vCardStream == rest && sent == old(sent) + [reply]
      ensures srmTasksPosted == old(srmTasksPosted) + (if srm.active && reply.code == Continue then 1 else 0)
    {
      if srm.enabled && srm.responsePending {
        srm := srm.(responsePending := false);
      }
      if !phonebookSizeRequired {
        newMissedCallsRequired := false;
      }
      phonebookSizeRequired := false;
      vCardStream := rest;
      SendObexDataOwned(reply);
      if srm.active && reply.code == Continue {
        srmTasksPosted := srmTasksPosted + 1;
      }
    }

    /** Fills a buffer of `bufSize` bytes with the next Body header, or End-of-Body once the stream is exhausted. */
    method FillObexBody(bufSize: int, readLimit: nat) returns (code: byte, part: BodyPart)
      requires readLimit >= 1
      modifies this`vCardStream
      ensures code == InternalServerError || code == Success || code == Continue
      ensures code == InternalServerError <==> old(vCardStream).None? || bufSize <= BodyHeaderSize
      ensures code == InternalServerError ==> part == NoBody && vCardStream == old(vCardStream)
      ensures code == Success <==> old(vCardStream) == Some([]) && bufSize > BodyHeaderSize
      ensures code == Success ==> part == EndOfBody && vCardStream.None?
      ensures code == Continue ==>
        part.Body? && part.bytes != [] && |part.bytes| <= readLimit && vCardStream.Some? &&
        old(vCardStream).value == part.bytes + vCardStream.value && BodyPartLength(part) <= bufSize
    {
      if vCardStream.None? {
        return InternalServerError, NoBody;
      }
      var stream := vCardStream.value;
      if bufSize <= BodyHeaderSize {
        return InternalServerError, NoBody;
      }
      if |stream| == 0 {
        vCardStream := None;
        return Success, EndOfBody;
      }
      var numRead := Min(Min(readLimit, bufSize - BodyHeaderSize), |stream|);
      assert stream == stream[..numRead] + stream[numRead..];
      vCardStream := Some(stream[numRead..]);
      return Continue, Body(stream[..numRead]);
    }

    /**
     * SrmProcessTask::Run: while SRM is active, sends the next part of the
     * stream without waiting for a request; `rearm` is the decision to post
     * the task again.
     */
    method RunSrmTask(readLimit: nat) returns (rearm: bool, reply: Packet)
      requires readLimit >= 1
      requires srm.active && vCardStream.Some? ==> socket.Some?
      modifies this`vCardStream, this`sent, this`srmTasksPosted
      ensures var sends := srm.active && old(vCardStream).Some? && remoteMaxPacketLength > RespHeaderSize + BodyHeaderSize;
        (!sends ==> !rearm && sent == old(sent) && vCardStream == old(vCardStream)) &&
        (sends ==> sent == old(sent) + [reply] && PacketLength(reply) <= remoteMaxPacketLength) &&
        (sends && old(vCardStream).value == [] ==>
          !rearm && reply == GetResponse(Success, false, [], EndOfBody) && vCardStream.None?) &&
        (sends && old(vCardStream).value != [] ==>
          rearm && reply.GetResponse? && reply.code == Continue && !reply.srm && reply.params == [] &&
          reply.body.Body? && reply.body.bytes != [] && vCardStream.Some? &&
          old(vCardStream).value == reply.body.bytes + vCardStream.value)
      ensures srmTasksPosted == old(srmTasksPosted) + (if rearm then 1 else 0)
    {
      reply := Response(0, []);
      if !(srm.active && vCardStream.Some?) {
        return false, reply;
      }
      if remoteMaxPacketLength < RespHeaderSize {
        return false, reply;
      }
      var code, part := FillObexBody(remoteMaxPacketLength - RespHeaderSize, readLimit);
      if code != Continue && code != Success {
        return false, reply;
      }
      reply := GetResponse(code, false, [], part);
      SendObexDataOwned(reply);
      rearm := code == Continue;
      if rearm {
        srmTasksPosted := srmTasksPosted + 1;
      }
    }

    /**
     * ReplyToPullPhonebook and ReplyToPullvCardListing, whose bodies are the
     * same: the front end's object is sent, or only its size when MaxListCount
     * was 0. `blob` is None when no stream can be opened on the object.
     */
    method ReplyToPull(blob: Option<seq<byte>>, phonebookSize: nat, readLimit: nat) returns (ok: bool, reply: Packet)
      requires Valid() && phonebookSize < 0x1_0000 && readLimit >= 1
      requires remoteMaxPacketLength >= LeastMaxSize && (connected ==> socket.Some?)
      modifies this`srm, this`phonebookSizeRequired, this`newMissedCallsRequired, this`vCardStream,
        this`sent, this`srmTasksPosted
      ensures Valid()
      ensures !old(connected) ==> !ok && sent == old(sent) && vCardStream == old(vCardStream) && srm == old(srm)
      ensures old(connected) && !old(phonebookSizeRequired) && blob.None? ==>
        !ok && sent == old(sent) + [Response(InternalServerError, [])] && vCardStream.None? && srm == old(srm)
      ensures old(connected) && (old(phonebookSizeRequired) || blob.Some?) ==>
        ok && sent == old(sent) + [reply] && !phonebookSizeRequired &&
        IsGetReply(reply, old(srm.responsePending), FeatureParams(pceSupportedFeatures), old(phonebookSizeRequired),
          old(newMissedCallsRequired), phonebookSize, if old(phonebookSizeRequired) then old(vCardStream) else blob,
          vCardStream, remoteMaxPacketLength)
    {
      if !connected {
        return false, Response(0, []);
      }
      if !phonebookSizeRequired {
        var streamOpen := GetInputStreamFromBlob(blob);
        if !streamOpen {
          var _ := ReplyError(InternalServerError);
          return false, Response(0, []);
        }
      }
      ok, reply := ReplyToGet(phonebookSize, readLimit);
    }

    /** ReplyToPullvCardEntry: one vCard, always from a stream, with a size of 0 for NewMissedCalls. */
    method ReplyToPullvCardEntry(blob: Option<seq<byte>>, readLimit: nat) returns (ok: bool, reply: Packet)
      requires Valid() && readLimit >= 1
      requires remoteMaxPacketLength >= LeastMaxSize && (connected ==> socket.Some?)
      modifies this`srm, this`phonebookSizeRequired, this`newMissedCallsRequired, this`vCardStream,
        this`sent, this`srmTasksPosted
      ensures Valid()
      ensures !old(connected) ==> !ok && sent == old(sent) && vCardStream == old(vCardStream) && srm == old(srm)
      ensures old(connected) && blob.None? ==>
        !ok && sent == old(sent) + [Response(InternalServerError, [])] && vCardStream.None? && srm == old(srm)
      ensures old(connected) && blob.Some? ==>
        ok && sent == old(sent) + [reply] && !phonebookSizeRequired &&
        IsGetReply(reply, old(srm.responsePending), FeatureParams(pceSupportedFeatures), old(phonebookSizeRequired),
          old(newMissedCallsRequired), 0, blob, vCardStream, remoteMaxPacketLength)
    {
      if !connected {
        return false, Response(0, []);
      }
      var streamOpen := GetInputStreamFromBlob(blob);
      if !streamOpen {
        var _ := ReplyError(InternalServerError);
        return false, Response(0, []);
      }
      ok, reply := ReplyToGet(0, readLimit);
    }

    /** An accepted connection takes over the server socket it arrived on, whose slot receives the old session socket. */
    method OnSocketConnectSuccess(s: SocketId, address: seq<byte>)
      requires rfcommServerSocket == Some(s) || l2capServerSocket == Some(s) || socket.Some?
      modifies this`socket, this`rfcommServerSocket, this`l2capServerSocket, this`deviceAddress
      ensures old(rfcommServerSocket) == Some(s) ==>
        socket == Some(s) && rfcommServerSocket == old(socket) && l2capServerSocket == old(l2capServerSocket)
      ensures old(rfcommServerSocket) != Some(s) && old(l2capServerSocket) == Some(s) ==>
        socket == Some(s) && l2capServerSocket == old(socket) && rfcommServerSocket == old(rfcommServerSocket)
      ensures old(rfcommServerSocket) != Some(s) && old(l2capServerSocket) != Some(s) ==>
        socket == old(socket) && rfcommServerSocket == old(rfcommServerSocket) &&
        l2capServerSocket == old(l2capServerSocket)
      ensures deviceAddress == address
    {
      if rfcommServerSocket == Some(s) {
        rfcommServerSocket, socket := socket, rfcommServerSocket;
      } else if l2capServerSocket == Some(s) {
        l2capServerSocket, socket := socket, l2capServerSocket;
      }
      deviceAddress := address;
    }

    method OnSocketConnectError()
      modifies this`socket, this`rfcommServerSocket, this`l2capServerSocket
      ensures socket.None? && rfcommServerSocket.None? && l2capServerSocket.None?
    {
      rfcommServerSocket, l2capServerSocket, socket := None, None, None;
    }

    /** The session socket closed: the session ends and the cached address is cleared; server sockets closing is ignored. */
    method OnSocketDisconnect(s: SocketId)
      modifies this`connected, this`remoteMaxPacketLength, this`phonebookSizeRequired,
        this`newMissedCallsRequired, this`vCardStream, this`deviceAddress, this`socket
      ensures old(socket) != Some(s) ==>
        connected == old(connected) && socket == old(socket) && vCardStream == old(vCardStream) &&
        deviceAddress == old(deviceAddress)
      ensures old(socket) == Some(s) ==>
        !connected && socket.None? && vCardStream.None? && deviceAddress == ClearedAddress &&
        remoteMaxPacketLength == 0 && !phonebookSizeRequired && !newMissedCallsRequired
    {
      if socket != Some(s) {
        return;
      }
      AfterPbapDisconnected();
      deviceAddress := ClearedAddress;
      socket := None;
    }

    /**
     * ReceiveSocketData: a packet of a bad size, a PUT and an unknown opcode
     * are answered at once; the other requests go to their handlers. Connect,
     * Disconnect and Abort leave SRM off; a parsed GET sets the SRM flags
     * from its SRM and SRMP headers.
     */
    method ReceiveSocketData(m: Message, serviceUp: bool, buf: seq<byte>, readLimit: nat)
      requires Valid() && |buf| == AppParameterBufferSize && readLimit >= 1 && ChallengeWellFormed(m)
      requires connected ==> socket.Some?
      requires vCardStream.Some? ==> remoteMaxPacketLength >= LeastMaxSize
      modifies this`passwordReqNeeded, this`srm, this`remoteMaxPacketLength, this`remoteNonce,
        this`pceSupportedFeatures, this`sent, this`signals, this`connected, this`phonebookSizeRequired,
        this`newMissedCallsRequired, this`vCardStream, this`currentPath, this`srmTasksPosted
      ensures Valid()
      ensures StepFor(m.data) in {Malformed, PutRequest, UnknownRequest} ==>
        srm == old(srm) && connected == old(connected) && vCardStream == old(vCardStream) &&
        currentPath == old(currentPath) && signals == old(signals) &&
        sent == AppendIf(old(sent), socket.Some?,
          Response(if StepFor(m.data) == UnknownRequest then NotImplemented else BadRequest, []))
      ensures StepFor(m.data) in {ConnectRequest, DisconnectRequest} ==> srm == SrmOff
      ensures StepFor(m.data) == ConnectRequest && !ConnectTargetsPbap(m) ==>
        remoteMaxPacketLength == old(remoteMaxPacketLength) &&
        sent == AppendIf(old(sent), socket.Some?, Response(BadRequest, []))
      ensures StepFor(m.data) == ConnectRequest && ConnectTargetsPbap(m) && !ConnectAccepted(m) ==>
        remoteMaxPacketLength == 0 && sent == AppendIf(old(sent), socket.Some?, Response(BadRequest, []))
      ensures StepFor(m.data) == DisconnectRequest && Parsed(m, 3) ==> !connected && vCardStream.None?
      ensures StepFor(m.data) == SetPathRequest ==> currentPath == old(currentPath) || currentPath in LegalPaths
      ensures StepFor(m.data) == GetRequest && Parsed(m, 3) ==>
        var g := SrmAfterGet(old(srm), m.parsed.value.srm, m.parsed.value.srmp);
        srm == (if old(vCardStream).Some? && old(connected) then g.(responsePending := false) else g)
    {
      var step := StepFor(m.data);
      match step
      case Malformed =>
        var _ := ReplyError(BadRequest);
      case ConnectRequest =>
        HandleConnect(m, serviceUp, buf);
      case DisconnectRequest =>
        HandleDisconnectOrAbort(m);
      case SetPathRequest =>
        HandleSetPath(m);
      case GetRequest =>
        HandleGet(m, serviceUp, buf, readLimit);
      case PutRequest =>
        var _ := ReplyError(BadRequest);
      case UnknownRequest =>
        var _ := ReplyError(NotImplemented);
    }

    /**
     * A Connect: the SRM flags and the password request are reset, the target,
     * length and maximum packet size are checked, the nonce and the client's
     * features are kept, and the front end is asked to accept.
     */
    method HandleConnect(m: Message, serviceUp: bool, buf: seq<byte>)
      requires Valid() && |buf| == AppParameterBufferSize && ChallengeWellFormed(m)
      modifies this`passwordReqNeeded, this`srm, this`remoteMaxPacketLength, this`remoteNonce,
        this`pceSupportedFeatures, this`sent, this`signals
      ensures Valid() && srm == SrmOff
      ensures !ConnectTargetsPbap(m) ==>
        !passwordReqNeeded && remoteMaxPacketLength == old(remoteMaxPacketLength) && signals == old(signals) &&
        sent == AppendIf(old(sent), socket.Some?, Response(BadRequest, []))
      ensures ConnectTargetsPbap(m) && ConnectMaxPacketLength(m) < LeastMaxSize ==>
        !passwordReqNeeded && remoteMaxPacketLength == 0 && signals == old(signals) &&
        sent == AppendIf(old(sent), socket.Some?, Response(BadRequest, []))
      ensures !ConnectAccepted(m) ==>
        remoteNonce == old(remoteNonce) && pceSupportedFeatures == old(pceSupportedFeatures)
      ensures ConnectAccepted(m) ==>
        var h := m.parsed.value;
        remoteMaxPacketLength == ConnectMaxPacketLength(m) && remoteMaxPacketLength >= LeastMaxSize &&
        passwordReqNeeded == h.authChallenge.Some? &&
        remoteNonce == (if h.authChallenge.Some? then NonceFrom(h.authChallenge.value, 0, old(remoteNonce))
                        else old(remoteNonce)) &&
        pceSupportedFeatures == FeaturesOf(h, buf) &&
        signals == AppendIf(old(signals), serviceUp, ConnectionRequestSignal(deviceAddress)) &&
        sent == AppendIf(old(sent), !serviceUp && socket.Some?, Response(PreconditionFailed, []))
    {
      passwordReqNeeded := false;
      srm := SrmOff;
      if !Parsed(m, 7) {
        var _ := ReplyError(BadRequest);
        return;
      }
      var h := m.parsed.value;
      var targeted := CompareHeaderTarget(h);
      if !targeted {
        var _ := ReplyError(BadRequest);
        return;
      }
      remoteMaxPacketLength := ReadUint16(m.data[5], m.data[6]);
      if remoteMaxPacketLength < LeastMaxSize {
        remoteMaxPacketLength := 0;
        var _ := ReplyError(BadRequest);
        return;
      }
      AcceptConnect(h, serviceUp, buf);
    }

    /**
     * The part of a Connect past its checks: the nonce of a digest challenge
     * is kept and a password requested, the client's features are read, and
     * the front end is asked to accept.
     */
    method AcceptConnect(h: Headers, serviceUp: bool, buf: seq<byte>)
      requires Valid() && |buf| == AppParameterBufferSize
      requires h.authChallenge.Some? ==> WellFormedChallenge(h.authChallenge.value)
      requires !passwordReqNeeded
      modifies this`passwordReqNeeded, this`remoteNonce, this`pceSupportedFeatures, this`sent, this`signals
      ensures Valid()
      ensures passwordReqNeeded == h.authChallenge.Some?
      ensures remoteNonce == (if h.authChallenge.Some? then NonceFrom(h.authChallenge.value, 0, old(remoteNonce))
                              else old(remoteNonce))
      ensures pceSupportedFeatures == FeaturesOf(h, buf)
      ensures signals == AppendIf(old(signals), serviceUp, ConnectionRequestSignal(deviceAddress))
      ensures sent == AppendIf(old(sent), !serviceUp && socket.Some?, Response(PreconditionFailed, []))
    {
      if h.authChallenge.Some? {
        GetRemoteNonce(h.authChallenge.value);
        NonceFromLength(h.authChallenge.value, 0, old(remoteNonce));
        passwordReqNeeded := true;
      }
      pceSupportedFeatures := FeaturesOf(h, buf);
      var code := NotifyConnectionRequest(serviceUp);
      if code != Success {
        var _ := ReplyError(code);
      }
    }

    /** A Disconnect or an Abort: the SRM flags are reset and, when the request parses, the session ends. */
    method HandleDisconnectOrAbort(m: Message)
      modifies this`srm, this`sent, this`connected, this`remoteMaxPacketLength, this`phonebookSizeRequired,
        this`newMissedCallsRequired, this`vCardStream
      ensures srm == SrmOff
      ensures !Parsed(m, 3) ==>
        connected == old(connected) && vCardStream == old(vCardStream) &&
        sent == AppendIf(old(sent), socket.Some?, Response(BadRequest, []))
      ensures Parsed(m, 3) ==>
        !connected && vCardStream.None? && remoteMaxPacketLength == 0 &&
        sent == AppendIf(old(sent), old(connected) && socket.Some?, Response(Success, []))
    {
      srm := SrmOff;
      if !Parsed(m, 3) {
        var _ := ReplyError(BadRequest);
        return;
      }
      ReplyToDisconnectOrAbort();
      AfterPbapDisconnected();
    }

    /** A SetPath: byte 3 holds the flags; the path moves only to a legal folder. */
    method HandleSetPath(m: Message)
      modifies this`currentPath, this`sent
      ensures !Parsed(m, 5) ==>
        currentPath == old(currentPath) && sent == AppendIf(old(sent), socket.Some?, Response(BadRequest, []))
      ensures Parsed(m, 5) ==>
        var flags := m.data[3];
        var target := SetPathTarget(old(currentPath), flags, NameOf(m.parsed.value));
        (flags / 2 != 1 ==>
          currentPath == old(currentPath) && sent == AppendIf(old(sent), socket.Some?, Response(BadRequest, []))) &&
        (flags / 2 == 1 && target !in LegalPaths ==>
          currentPath == old(currentPath) && sent == AppendIf(old(sent), socket.Some?, Response(NotFound, []))) &&
        (flags / 2 == 1 && target in LegalPaths ==>
          currentPath == target && sent == AppendIf(old(sent), connected && socket.Some?, Response(Success, [])))
    {
      if !Parsed(m, 5) {
        var _ := ReplyError(BadRequest);
        return;
      }
      var code := SetPhoneBookPath(m.parsed.value, m.data[3]);
      if code != Success {
        var _ := ReplyError(code);
        return;
      }
      ReplyToSetPath();
    }

    /**
     * A GET: the SRM flags follow the request's SRM and SRMP headers; an open
     * stream is answered at once, otherwise the request goes to the front end.
     */
    method HandleGet(m: Message, serviceUp: bool, buf: seq<byte>, readLimit: nat)
      requires Valid() && |buf| == AppParameterBufferSize && readLimit >= 1
      requires connected ==> socket.Some?
      requires vCardStream.Some? ==> remoteMaxPacketLength >= LeastMaxSize
      modifies this`srm, this`phonebookSizeRequired, this`newMissedCallsRequired, this`vCardStream,
        this`sent, this`srmTasksPosted, this`signals
      ensures Valid()
      ensures !Parsed(m, 3) ==>
        srm == old(srm) && signals == old(signals) && sent == AppendIf(old(sent), socket.Some?, Response(BadRequest, []))
      ensures Parsed(m, 3) && old(vCardStream).None? ==>
        var h := m.parsed.value;
        var c := ClassifyPull(ContentTypeOf(h), NameOf(h), currentPath);
        srm == SrmAfterGet(old(srm), h.srm, h.srmp) && vCardStream.None? &&
        (c.Rejected? ==> signals == old(signals) && sent == AppendIf(old(sent), socket.Some?, Response(c.code, []))) &&
        (c.Pull? && !serviceUp ==>
          signals == old(signals) && sent == AppendIf(old(sent), socket.Some?, Response(PreconditionFailed, []))) &&
        (c.Pull? && serviceUp ==>
          sent == old(sent) && |signals| == |old(signals)| + 1 &&
          phonebookSizeRequired == SizeRequiredAfter(h, c.request.tags, buf, false) &&
          newMissedCallsRequired == c.request.newMissedCalls)
      ensures Parsed(m, 3) && old(vCardStream).Some? && !old(connected) ==>
        srm == SrmAfterGet(old(srm), m.parsed.value.srm, m.parsed.value.srmp) && signals == old(signals) &&
        vCardStream == old(vCardStream) && sent == AppendIf(old(sent), socket.Some?, Response(InternalServerError, []))
      ensures Parsed(m, 3) && old(vCardStream).Some? && old(connected) ==>
        var g := SrmAfterGet(old(srm), m.parsed.value.srm, m.parsed.value.srmp);
        srm == g.(responsePending := false) && signals == old(signals) && |sent| == |old(sent)| + 1 &&
        sent[..|old(sent)|] == old(sent) &&
        IsGetReply(sent[|old(sent)|], g.responsePending, FeatureParams(pceSupportedFeatures), old(phonebookSizeRequired),
          old(newMissedCallsRequired), 0, old(vCardStream), vCardStream, remoteMaxPacketLength)
    {
      if !Parsed(m, 3) {
        var _ := ReplyError(BadRequest);
        return;
      }
      var h := m.parsed.value;
      srm := SrmAfterGet(srm, h.srm, h.srmp);
      if vCardStream.Some? {
        ContinueGet(readLimit);
        return;
      }
      var code := NotifyPbapRequest(h, serviceUp, buf);
      if code != Success {
        var _ := ReplyError(code);
      }
    }

    /** A GET while a stream is open: the next response, or Internal Server Error outside a session. */
    method ContinueGet(readLimit: nat)
      requires Valid() && readLimit >= 1 && vCardStream.Some?
      requires connected ==> socket.Some?
      requires remoteMaxPacketLength >= LeastMaxSize
      modifies this`srm, this`phonebookSizeRequired, this`newMissedCallsRequired, this`vCardStream,
        this`sent, this`srmTasksPosted
      ensures Valid()
      ensures !connected ==>
        srm == old(srm) && vCardStream == old(vCardStream) &&
        sent == AppendIf(old(sent), socket.Some?, Response(InternalServerError, []))
      ensures connected ==>
        srm == old(srm).(responsePending := false) && |sent| == |old(sent)| + 1 && sent[..|old(sent)|] == old(sent) &&
        IsGetReply(sent[|old(sent)|], old(srm.responsePending), FeatureParams(pceSupportedFeatures),
          old(phonebookSizeRequired), old(newMissedCallsRequired), 0, old(vCardStream), vCardStream,
          remoteMaxPacketLength)
    {
      var ok, reply := ReplyToGet(0, readLimit);
      if !ok {
        var _ := ReplyError(InternalServerError);
      }
    }
  }
}
