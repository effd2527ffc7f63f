// Object Push Profile manager: the per-destination send-batch queue, PUT
// fragment reassembly on the receiving side, the response checker on the
// sending side, the PUT reply table and file-name sanitising.
//
// Sockets, file storage, MIME lookups and reader threads are outside the
// model: their outcomes are method parameters, the packets the manager
// writes are recorded by opcode in `sent`, and the system messages it
// broadcasts are recorded in `notices`.

module OppManager {

  import opened Obex
  import opened Wrappers

  const MaxPacketLength: int := 0xFFFE
  /** A progress message is broadcast every 50 KiB. */
  const UpdateProgressBase: int := 50 * 1024
  /** [opcode:1][packet length:2][headerId:1][header length:2] */
  const PutRequestHeaderSize: int := 6
  /** [headerId:1][header length:4] */
  const PutRequestAppendHeaderSize: int := 5
  const Uint32Max: int := 0xFFFF_FFFF

  /** A Bluetooth device address, compared bytewise. */
  type Address = seq<byte>

  /** What the manager reads from a queued blob: its name, size and MIME
      type, and the primary extension the MIME service gives for that type
      (None when there is no MIME service or it knows no extension). */
  datatype Blob = Blob(name: string, size: nat, contentType: string, primaryExtension: Option<string>)

  datatype SendFileBatch = SendFileBatch(address: Address, blobs: seq<Blob>)

  /** System messages the manager broadcasts. */
  datatype Notice =
    | TransferStart(startFileName: string)
    | TransferComplete(success: bool, completedFileName: string)
    | ConfirmationRequest(askedFileName: string)
    | Progress(processedLength: int)

  /** Headers of a completely received PUT packet, as the OBEX header codec parsed them. */
  datatype PutHeaders = PutHeaders(
    name: Option<string>,
    contentType: Option<string>,
    length: Option<int>,
    bodyLength: Option<int>)

  // ---------------------------------------------------------------------
  // The send-batch queue

  /** Queue contents AppendBlobToSend produces. */
  function Enqueued(batches: seq<SendFileBatch>, addr: Address, blob: Blob): seq<SendFileBatch>
  {
    if |batches| == 0 || addr != batches[|batches| - 1].address then
      batches + [SendFileBatch(addr, [blob])]
    else
      batches[..|batches| - 1] + [batches[|batches| - 1].(blobs := batches[|batches| - 1].blobs + [blob])]
  }

  /** Every batch holds a blob, and neighbouring batches go to different devices. */
  ghost predicate WellFormedQueue(batches: seq<SendFileBatch>) {
    (forall i :: 0 <= i < |batches| ==> |batches[i].blobs| > 0) &&
    (forall i, j :: 0 <= i && j == i + 1 && j < |batches| ==> batches[i].address != batches[j].address)
  }

  /** Every blob of the queue, in sending order. */
  function AllBlobs(batches: seq<SendFileBatch>): seq<Blob>
  {
    if batches == [] then [] else AllBlobs(batches[..|batches| - 1]) + batches[|batches| - 1].blobs
  }

  lemma EnqueueSameDevice(batches: seq<SendFileBatch>, addr: Address, blob: Blob)
    requires |batches| > 0 && addr == batches[|batches| - 1].address
    ensures var r := Enqueued(batches, addr, blob);
      |r| == |batches| &&
      r[..|r| - 1] == batches[..|batches| - 1] &&
      r[|r| - 1] == SendFileBatch(addr, batches[|batches| - 1].blobs + [blob])
  {
  }

  lemma EnqueueOtherDevice(batches: seq<SendFileBatch>, addr: Address, blob: Blob)
    requires |batches| == 0 || addr != batches[|batches| - 1].address
    ensures Enqueued(batches, addr, blob) == batches + [SendFileBatch(addr, [blob])]
  {
  }

  lemma {:induction false} EnqueueKeepsWellFormed(batches: seq<SendFileBatch>, addr: Address, blob: Blob)
    requires WellFormedQueue(batches)
    ensures WellFormedQueue(Enqueued(batches, addr, blob))
  {
    var r := Enqueued(batches, addr, blob);
    if |batches| == 0 || addr != batches[|batches| - 1].address {
      assert r == batches + [SendFileBatch(addr, [blob])];
      forall i, j | 0 <= i && j == i + 1 && j < |r| ensures r[i].address != r[j].address {
        if j < |batches| {
          assert r[i] == batches[i] && r[j] == batches[j];
        }
      }
    } else {
      var n := |batches| - 1;
      forall i, j | 0 <= i && j == i + 1 && j < |r| ensures r[i].address != r[j].address {
        assert r[i].address == batches[i].address;
        assert r[j].address == batches[j].address;
      }
    }
  }

  /** The head batch keeps its blobs and may only grow. */
  lemma EnqueueKeepsHead(batches: seq<SendFileBatch>, addr: Address, blob: Blob)
    ensures var r := Enqueued(batches, addr, blob);
      |r| > 0 && (|batches| > 0 ==> |r[0].blobs| >= |batches[0].blobs|)
  {
  }

  lemma {:induction false} EnqueueAppendsBlob(batches: seq<SendFileBatch>, addr: Address, blob: Blob)
    ensures AllBlobs(Enqueued(batches, addr, blob)) == AllBlobs(batches) + [blob]
  {
    var r := Enqueued(batches, addr, blob);
    if |batches| == 0 || addr != batches[|batches| - 1].address {
      assert r[..|r| - 1] == batches;
    } else {
      var n := |batches| - 1;
      assert r[..|r| - 1] == batches[..n];
      assert batches[..n + 1] == batches;
      calc {
        AllBlobs(r);
        AllBlobs(batches[..n]) + (batches[n].blobs + [blob]);
        (AllBlobs(batches[..n]) + batches[n].blobs) + [blob];
        AllBlobs(batches) + [blob];
      }
    }
  }

  /** Dropping the head batch drops exactly its blobs from the front of the queue. */
  lemma {:induction false} DropHeadBatch(batches: seq<SendFileBatch>)
    requires |batches| > 0
    ensures AllBlobs(batches) == batches[0].blobs + AllBlobs(batches[1..])
    decreases |batches|
  {
    if |batches| == 1 {
      assert batches[1..] == [];
      assert batches[..0] == [];
    } else {
      var n := |batches| - 1;
      var init := batches[..n];
      DropHeadBatch(init);
      assert init[1..] == batches[1..][..n - 1];
      assert init[0] == batches[0];
      assert batches[1..][n - 1] == batches[n];
    }
  }

  // ---------------------------------------------------------------------
  // File-name sanitising

  /** Characters a FAT file system does not accept in a name. */
  predicate IsReservedChar(c: char) {
    c < ' ' || c == '?' || c == '|' || c == '<' || c == '>' || c == '"' ||
    c == ':' || c == '/' || c == '*' || c == '\\'
  }

  function SanitizedChar(c: char): (r: char)
    ensures !IsReservedChar(r)
    ensures !IsReservedChar(c) ==> r == c
  {
    if IsReservedChar(c) then '_' else c
  }

  /** The name ValidateFileName leaves: every reserved character replaced by '_'. */
  function Sanitized(s: string): string
  {
    if s == [] then [] else Sanitized(s[..|s| - 1]) + [SanitizedChar(s[|s| - 1])]
  }

  lemma {:induction false} SanitizedAt(s: string, i: nat)
    requires i < |s|
    ensures |Sanitized(s)| == |s| && Sanitized(s)[i] == SanitizedChar(s[i])
    decreases |s|
  {
    SanitizedLength(s);
    if i < |s| - 1 {
      SanitizedAt(s[..|s| - 1], i);
    }
  }

  lemma {:induction false} SanitizedLength(s: string)
    ensures |Sanitized(s)| == |s|
    decreases |s|
  {
    if s != [] {
      SanitizedLength(s[..|s| - 1]);
    }
  }

  lemma {:induction false} SanitizedHasNoReservedChar(s: string)
    ensures |Sanitized(s)| == |s|
    ensures forall i :: 0 <= i < |s| ==> !IsReservedChar(Sanitized(s)[i])
    ensures forall i :: 0 <= i < |s| && !IsReservedChar(s[i]) ==> Sanitized(s)[i] == s[i]
  {
    SanitizedLength(s);
    forall i | 0 <= i < |s|
      ensures !IsReservedChar(Sanitized(s)[i])
      ensures !IsReservedChar(s[i]) ==> Sanitized(s)[i] == s[i]
    {
      SanitizedAt(s, i);
    }
  }

  lemma {:induction false} SanitizedIdempotent(s: string)
    ensures Sanitized(Sanitized(s)) == Sanitized(s)
  {
    var t := Sanitized(s);
    SanitizedHasNoReservedChar(s);
    SanitizedHasNoReservedChar(t);
  }

  // ---------------------------------------------------------------------
  // Response codes

  /** The response code ReplyToPut sends for a (final, continue) pair. */
  function PutResponseCode(isFinal: bool, cont: bool): (r: byte)
    ensures cont ==> (r == Success <==> isFinal) && (r == Continue <==> !isFinal)
    ensures !cont ==> ClearFinalBit(r) == ClearFinalBit(Unauthorized)
    ensures HasFinalBit(r) <==> (cont || isFinal)
  {
    if cont then (if isFinal then Success else Continue)
    else (if isFinal then Unauthorized else ClearFinalBit(Unauthorized))
  }

  /** The pair can be read back from the code: the four replies are distinct. */
  lemma PutResponseCodeInjective(f1: bool, c1: bool, f2: bool, c2: bool)
    requires PutResponseCode(f1, c1) == PutResponseCode(f2, c2)
    ensures f1 == f2 && c1 == c2
  {
  }

  /**
   * The opcode ServerDataHandler acts on: while a PUT is partly received
   * it comes from the remembered final flag, otherwise from the first byte.
   */
  function ServerOpcode(receivedLength: int, putFinalFlag: bool, firstByte: byte): (op: byte)
    ensures receivedLength > 0 ==> (op == PutFinal <==> putFinalFlag) && (op == Put <==> !putFinalFlag)
    ensures receivedLength <= 0 ==> op == firstByte
  {
    if receivedLength > 0 then (if putFinalFlag then PutFinal else Put) else firstByte
  }

  lemma ServerOpcodeIgnoresPayload(receivedLength: int, putFinalFlag: bool, a: byte, b: byte)
    requires receivedLength > 0
    ensures ServerOpcode(receivedLength, putFinalFlag, a) == ServerOpcode(receivedLength, putFinalFlag, b)
  {
  }

  /** Body length the first fragment of a PUT declares: bytes 1..2 big-endian, less the 3-byte frame header. */
  function DeclaredLength(msg: seq<byte>): (n: int)
    ensures |msg| >= 3 ==> n + 3 == ReadUint16(msg[1], msg[2])
    ensures -3 <= n < 0x1_0000 - 3
  {
    var hi := if |msg| > 1 then msg[1] else 0;
    var lo := if |msg| > 2 then msg[2] else 0;
    ReadUint16(hi, lo) - 3
  }

  /** What the first fragment of a PUT makes the source do, as written:
      it reads the length field at bytes 1..2 whatever the fragment's size,
      and allocates a buffer of the declared length less 3. */
  datatype FirstFragmentEffect =
    | ReadsPastFragment           // the fragment ends before byte 2
    | NegativeAllocation(n: int)  // `new uint8_t[n]` with n < 0
    | Allocates(size: nat)

  function FirstFragmentAsWritten(msg: seq<byte>): (e: FirstFragmentEffect)
    ensures e == ReadsPastFragment <==> |msg| < 3
    ensures e.NegativeAllocation? <==> |msg| >= 3 && ReadUint16(msg[1], msg[2]) < 3
    ensures e.Allocates? ==> e.size == DeclaredLength(msg)
  {
    if |msg| < 3 then ReadsPastFragment
    else
      var n := ReadUint16(msg[1], msg[2]) - 3;
      if n < 0 then NegativeAllocation(n) else Allocates(n)
  }

  /** ServerDataHandler lets through every fragment of at least one byte,
      so a remote device reaches both faults: [0x02] is read past its end,
      and [0x02, 0x00, 0x02] declares 2 bytes and asks for a buffer of -1. */
  lemma AsWrittenFirstFragmentFaults()
    ensures FirstFragmentAsWritten([PutFinal]) == ReadsPastFragment
    ensures FirstFragmentAsWritten([PutFinal, 0x00, 0x02]) == NegativeAllocation(-1)
  {
  }

  /** In the model a first fragment shorter than the frame header, or
      declaring fewer bytes than the header, never passes ComposePacket's
      length check (it is answered with a failed PUT), and a negative
      declared length gets an empty buffer. */
  lemma MalformedFirstFragmentIsRefused(msg: seq<byte>)
    requires !FirstFragmentAsWritten(msg).Allocates?
    ensures !(|msg| >= 3 && |msg| - 3 <= DeclaredLength(msg))
    ensures |msg| >= 3 ==> DeclaredLength(msg) < 0
  {
  }

  /** The response code the sending side waits for after its last request. */
  function ExpectedResponse(lastCommand: byte): (r: byte)
    ensures r == Continue <==> lastCommand == Put
    ensures r == Success <==> lastCommand != Put
  {
    if lastCommand == Put then Continue else Success
  }

  /** What ClientDataHandler does with one response. */
  datatype ClientStep =
    | Ignore                        // empty packet or response code 0
    | Failed(sendDisconnect: bool)  // unexpected response code
    | FileSent(lastInBatch: bool)   // PutFinal acknowledged
    | AbortDone
    | DisconnectDone
    | ConnectDone
    | PutDone
    | Unhandled

  function ClientStepFor(msg: seq<byte>, lastCommand: byte, index: int, batchLength: int): (step: ClientStep)
    ensures step == Ignore <==> (|msg| < 1 || msg[0] == 0)
    ensures step.Failed? <==> (|msg| >= 1 && msg[0] != 0 && msg[0] != ExpectedResponse(lastCommand))
    ensures step.Failed? ==> (step.sendDisconnect <==> lastCommand == Put || lastCommand == Abort || lastCommand == PutFinal)
    ensures step.FileSent? <==> (|msg| >= 1 && msg[0] == Success && lastCommand == PutFinal)
    ensures step.FileSent? ==> (step.lastInBatch <==> index + 1 == batchLength)
    ensures step == PutDone <==> (|msg| >= 1 && msg[0] == Continue && lastCommand == Put)
  {
    if |msg| < 1 || msg[0] == 0 then Ignore
    else if msg[0] != ExpectedResponse(lastCommand) then
      Failed(lastCommand == Put || lastCommand == Abort || lastCommand == PutFinal)
    else if lastCommand == PutFinal then FileSent(index + 1 == batchLength)
    else if lastCommand == Abort then AbortDone
    else if lastCommand == Disconnect then DisconnectDone
    else if lastCommand == Connect then ConnectDone
    else if lastCommand == Put then PutDone
    else Unhandled
  }

  /** The last path segment of a blob's name, "Unknown" for an unnamed blob. */
  function BaseName(name: string): (r: string)
    ensures |r| <= if name == [] then |UnknownName| else |name|
  {
    AfterLastSlash(if name == [] then UnknownName else name)
  }

  /** `RFindChar('.')` finds no '.', or finds it as the last character. */
  predicate LacksExtension(s: string)
  {
    var p := LastCharEnd(s, '.', |s|);
    p == 0 || p == |s|
  }

  /** The name RetrieveSentFileName gives a blob: its base name, followed by
      '.' and the primary extension of its type when the base name has no
      extension and the MIME service gives one. */
  function SentFileName(blob: Blob): (r: string)
    ensures |r| <= |BaseName(blob.name)| + if blob.primaryExtension.Some? then 1 + |blob.primaryExtension.value| else 0
  {
    var base := BaseName(blob.name);
    if LacksExtension(base) && blob.primaryExtension.Some? then base + "." + blob.primaryExtension.value
    else base
  }

  /** The name a blob without one is sent under. */
  const UnknownName: string := "Unknown"

  /** The base name is the last '/'-free segment of the name: the whole
      name when it has no '/', and "Unknown" when it is empty. */
  lemma BaseNameIsLastSegment(name: string)
    ensures '/' !in BaseName(name)
    ensures name != [] && '/' !in name ==> BaseName(name) == name
    ensures name == [] ==> BaseName(name) == UnknownName
  {
    AfterLastSlashIsLastSegment(if name == [] then UnknownName else name);
  }

  /** A name without '/' is sent as it is when it has an extension, and
      with '.' and the type's extension appended when it has none and the
      MIME service gives one. */
  lemma SentFileNameOfPlainName(blob: Blob)
    requires blob.name != [] && '/' !in blob.name
    ensures !LacksExtension(blob.name) ==> SentFileName(blob) == blob.name
    ensures LacksExtension(blob.name) && blob.primaryExtension.Some? ==>
      SentFileName(blob) == blob.name + "." + blob.primaryExtension.value
    ensures LacksExtension(blob.name) && blob.primaryExtension.None? ==> SentFileName(blob) == blob.name
  {
    BaseNameIsLastSegment(blob.name);
  }

  /** The sent name has no '/' when the extension has none, and it has a '.'
      whenever the MIME service gives an extension. */
  lemma SentFileNameIsLastSegment(blob: Blob)
    ensures blob.primaryExtension.None? || '/' !in blob.primaryExtension.value ==> '/' !in SentFileName(blob)
    ensures blob.primaryExtension.Some? ==> '.' in SentFileName(blob)
  {
    var base := BaseName(blob.name);
    BaseNameIsLastSegment(blob.name);
    var r := SentFileName(blob);
    if LacksExtension(base) && blob.primaryExtension.Some? {
      var ext := blob.primaryExtension.value;
      assert r == base + "." + ext && r[|base|] == '.';
      if '/' !in ext {
        forall i | 0 <= i < |r|
          ensures r[i] != '/'
        {
          if i < |base| { assert r[i] == base[i]; }
          else if i > |base| { assert r[i] == ext[i - |base| - 1]; }
        }
      }
    } else if blob.primaryExtension.Some? {
      LastCharEndIsLast(base, '.', |base|);
      assert r == base && base[LastCharEnd(base, '.', |base|) - 1] == '.';
    }
  }

  /** A blob "photo" of type image/jpeg is sent as "photo.jpg". */
  lemma PhotoGetsExtension()
    ensures SentFileName(Blob("photo", 10, "image/jpeg", Some("jpg"))) == "photo.jpg"
  {
    SentFileNameOfPlainName(Blob("photo", 10, "image/jpeg", Some("jpg")));
    assert LastCharEnd("photo", '.', 5) == 0;
  }

  /** `RFindChar(c) + 1` on the first i characters of s: the position just
      past the last c among them, or 0 when there is none. */
  function LastCharEnd(s: string, c: char, i: int): (p: int)
    requires 0 <= i <= |s|
    ensures 0 <= p <= i
    decreases i
  {
    if i == 0 then 0 else if s[i - 1] == c then i else LastCharEnd(s, c, i - 1)
  }

  lemma {:induction false} LastCharEndIsLast(s: string, c: char, i: int)
    requires 0 <= i <= |s|
    ensures var p := LastCharEnd(s, c, i);
      (p > 0 ==> s[p - 1] == c) && forall j :: p <= j < i ==> s[j] != c
    decreases i
  {
    if i > 0 && s[i - 1] != c {
      LastCharEndIsLast(s, c, i - 1);
    }
  }

  /** `Substring(name, RFindChar('/') + 1)`: what follows the last '/'. */
  function AfterLastSlash(s: string): (r: string)
    ensures |r| <= |s|
  {
    s[LastCharEnd(s, '/', |s|)..]
  }

  /** The result is the longest suffix of s without a '/': all of s, or the part after a '/'. */
  lemma AfterLastSlashIsLastSegment(s: string)
    ensures var r := AfterLastSlash(s);
      '/' !in r && r == s[|s| - |r|..] && (|r| < |s| ==> s[|s| - |r| - 1] == '/')
    ensures '/' !in s ==> AfterLastSlash(s) == s
  {
    LastCharEndIsLast(s, '/', |s|);
    var p := LastCharEnd(s, '/', |s|);
    assert forall k :: 0 <= k < |s| - p ==> s[p..][k] == s[p + k];
  }

  /** The opcode of the header PUT of a file: a file of size 0 is sent as a single final PUT. */
  function PutHeaderOpcode(fileSize: int): (op: byte)
    ensures op == PutFinal <==> fileSize <= 0
    ensures op == Put || op == PutFinal
  {
    if fileSize > 0 then Put else PutFinal
  }

  /** The Disconnect ExtractBlobHeaders sends for a blob too large for a 4-byte Length header. */
  function OversizeDisconnect(blob: Blob, connected: bool): (s: seq<byte>)
    ensures s == [] || s == [Disconnect]
    ensures s != [] <==> connected && blob.size > Uint32Max
  {
    if connected && blob.size > Uint32Max then [Disconnect] else []
  }

  /** The start and completion messages DiscardBlobsToSend broadcasts for each remaining blob. */
  function DiscardNotices(blobs: seq<Blob>, k: int, success: bool): (r: seq<Notice>)
    requires 0 <= k <= |blobs|
    ensures |r| == 2 * (|blobs| - k)
    decreases |blobs| - k
  {
    if k == |blobs| then [] else DiscardPair(blobs[k], success) + DiscardNotices(blobs, k + 1, success)
  }

  /** The start message and the completion message of one discarded blob. */
  function DiscardPair(blob: Blob, success: bool): (r: seq<Notice>)
    ensures |r| == 2 && r[0].TransferStart? && r[1].TransferComplete?
    ensures r[0].startFileName == r[1].completedFileName == SentFileName(blob)
    ensures r[1].success == success
  {
    [TransferStart(SentFileName(blob)), TransferComplete(success, SentFileName(blob))]
  }

  /** Messages 2(i - k) and 2(i - k) + 1 from index k on are the pair of blob i. */
  lemma {:induction false} DiscardNoticesPairAt(blobs: seq<Blob>, k: int, success: bool, i: int)
    requires 0 <= k <= i < |blobs|
    ensures var r := DiscardNotices(blobs, k, success); var pair := DiscardPair(blobs[i], success);
      r[2 * (i - k)] == pair[0] && r[2 * (i - k) + 1] == pair[1]
    decreases i - k
  {
    var r := DiscardNotices(blobs, k, success);
    var rest := DiscardNotices(blobs, k + 1, success);
    assert r == DiscardPair(blobs[k], success) + rest;
    if k < i {
      DiscardNoticesPairAt(blobs, k + 1, success, i);
      assert r[2 * (i - k)] == rest[2 * (i - (k + 1))];
      assert r[2 * (i - k) + 1] == rest[2 * (i - (k + 1)) + 1];
    }
  }

  /** Every blob from index k on is announced and at once reported finished, in queue order. */
  lemma DiscardNoticesAt(blobs: seq<Blob>, k: int, success: bool, j: int)
    requires 0 <= k <= |blobs| && 0 <= j < |blobs| - k
    ensures var r := DiscardNotices(blobs, k, success); var name := SentFileName(blobs[k + j]);
      r[2 * j] == TransferStart(name) && r[2 * j + 1] == TransferComplete(success, name)
  {
    DiscardNoticesPairAt(blobs, k, success, k + j);
  }

  /** The Disconnect requests DiscardBlobsToSend sends: one per oversize blob while connected. */
  function DiscardSent(blobs: seq<Blob>, k: int, connected: bool): (r: seq<byte>)
    requires 0 <= k <= |blobs|
    ensures |r| <= |blobs| - k
    ensures !connected ==> r == []
    decreases |blobs| - k
  {
    if k == |blobs| then [] else OversizeDisconnect(blobs[k], connected) + DiscardSent(blobs, k + 1, connected)
  }

  /** Discarding sends nothing but Disconnect requests, one for each blob over the 4-byte length limit. */
  lemma {:induction false} DiscardSentOnlyDisconnects(blobs: seq<Blob>, k: int, connected: bool, i: int)
    requires 0 <= k <= |blobs| && 0 <= i < |DiscardSent(blobs, k, connected)|
    ensures DiscardSent(blobs, k, connected)[i] == Disconnect
    decreases |blobs| - k
  {
    var head := OversizeDisconnect(blobs[k], connected);
    if i >= |head| {
      DiscardSentOnlyDisconnects(blobs, k + 1, connected, i - |head|);
    }
  }

  /** Discarding blob k moves its messages and its requests from the work left to the work done. */
  lemma DiscardStep(blobs: seq<Blob>, k: int, success: bool, connected: bool,
      notices0: seq<Notice>, notices: seq<Notice>, sent0: seq<byte>, sent: seq<byte>,
      totalNotices: seq<Notice>, totalSent: seq<byte>)
    requires 0 <= k < |blobs|
    requires notices0 + DiscardNotices(blobs, k, success) == totalNotices
    requires sent0 + DiscardSent(blobs, k, connected) == totalSent
    requires notices == notices0 + DiscardPair(blobs[k], success)
    requires sent == sent0 + OversizeDisconnect(blobs[k], connected)
    ensures notices + DiscardNotices(blobs, k + 1, success) == totalNotices
    ensures sent + DiscardSent(blobs, k + 1, connected) == totalSent
  {
    RemainingStep(notices, notices0, DiscardPair(blobs[k], success), DiscardNotices(blobs, k + 1, success),
      DiscardNotices(blobs, k, success), totalNotices);
    RemainingStep(sent, sent0, OversizeDisconnect(blobs[k], connected), DiscardSent(blobs, k + 1, connected),
      DiscardSent(blobs, k, connected), totalSent);
  }

  lemma AppendTwo<T>(s: seq<T>, x: T, y: T)
    ensures s + [x] + [y] == s + [x, y]
  {
  }

  /** Moving one item of work from what is left to what is done keeps their sum. */
  lemma RemainingStep<T>(done: seq<T>, done0: seq<T>, head: seq<T>, tail: seq<T>, left: seq<T>, total: seq<T>)
    requires done == done0 + head && left == head + tail && done0 + left == total
    ensures done + tail == total
  {
    assert (done0 + head) + tail == done0 + (head + tail);
  }

  /** What ServerDataHandler does with one packet, before any file is touched. */
  datatype ServerStep =
    | Refuse(code: byte)                      // answered with an error response
    | ConnectRequest
    | AbortRequest
    | DisconnectRequest
    | PutFragment(opCode: byte, newFile: bool) // newFile: a PUT right after a PutFinal starts the next file

  /** The request opcodes ServerDataHandler recognises. */
  predicate IsKnownRequest(op: byte) {
    op == Connect || op == Abort || op == Disconnect || op == Put || op == PutFinal ||
    op == Get || op == GetFinal || op == SetPath
  }

  /** parseOk: whether the OBEX header codec accepted the headers of a Connect, Abort or Disconnect. */
  function ServerStepFor(msg: seq<byte>, receivedLength: int, putFinalFlag: bool, parseOk: bool): (step: ServerStep)
    ensures |msg| < 1 || |msg| > MaxPacketLength ==> step == Refuse(BadRequest)
    ensures 1 <= |msg| <= MaxPacketLength && receivedLength > 0 ==>
      step == PutFragment(if putFinalFlag then PutFinal else Put, false)
    ensures step.PutFragment? ==>
      (step.opCode == Put || step.opCode == PutFinal) && (step.newFile <==> receivedLength <= 0 && putFinalFlag)
    ensures step == ConnectRequest <==>
      7 <= |msg| <= MaxPacketLength && receivedLength <= 0 && msg[0] == Connect && parseOk
    ensures step == AbortRequest <==>
      3 <= |msg| <= MaxPacketLength && receivedLength <= 0 && msg[0] == Abort && parseOk
    ensures step == DisconnectRequest <==>
      3 <= |msg| <= MaxPacketLength && receivedLength <= 0 && msg[0] == Disconnect && parseOk
    ensures step.Refuse? ==> step.code == BadRequest || step.code == NotImplemented
    ensures step == Refuse(NotImplemented) <==>
      1 <= |msg| <= MaxPacketLength && receivedLength <= 0 && !IsKnownRequest(msg[0])
  {
    if |msg| < 1 || |msg| > MaxPacketLength then Refuse(BadRequest)
    else
      var op := ServerOpcode(receivedLength, putFinalFlag, msg[0]);
      if op == Connect then (if |msg| < 7 || !parseOk then Refuse(BadRequest) else ConnectRequest)
      else if op == Abort then (if |msg| < 3 || !parseOk then Refuse(BadRequest) else AbortRequest)
      else if op == Disconnect then (if |msg| < 3 || !parseOk then Refuse(BadRequest) else DisconnectRequest)
      else if op == Put || op == PutFinal then PutFragment(op, receivedLength <= 0 && putFinalFlag)
      else if op == Get || op == GetFinal || op == SetPath then Refuse(BadRequest)
      else Refuse(NotImplemented)
  }

  /** How a completely received PUT packet is handled on the receiving side. */
  datatype PutOutcome = Aborted | AwaitingConfirmation | CreateFailed | WriteFailed | Stored

  function PutOutcomeFor(abort: bool, waiting: bool, newFile: bool, createOk: bool, writeOk: bool): (o: PutOutcome)
    ensures o == Aborted <==> abort
    ensures o == AwaitingConfirmation <==> !abort && waiting
    ensures o == CreateFailed <==> !abort && !waiting && newFile && !createOk
    ensures o == WriteFailed <==> !abort && !waiting && (!newFile || createOk) && !writeOk
    ensures o == Stored <==> !abort && !waiting && (!newFile || createOk) && writeOk
  {
    if abort then Aborted
    else if waiting then AwaitingConfirmation
    else if newFile && !createOk then CreateFailed
    else if !writeOk then WriteFailed
    else Stored
  }

  /** `s` with `x` appended when `c` holds. */
  function AppendIf<T>(s: seq<T>, c: bool, x: T): seq<T> {
    if c then s + [x] else s
  }

  /** A progress message is due once the transferred length passes the next 50 KiB mark. */
  predicate ProgressDue(sentLength: int, counter: int) {
    sentLength > UpdateProgressBase * counter
  }

  /** The mark after a progress message: the next multiple of 50 KiB above the transferred length. */
  function NextProgressCounter(sentLength: int): (c: int)
    ensures UpdateProgressBase * (c - 1) <= sentLength < UpdateProgressBase * c
  {
    var q := sentLength / UpdateProgressBase;
    assert sentLength == UpdateProgressBase * q + sentLength % UpdateProgressBase;
    q + 1
  }

  /** After a progress message the mark moves forward and no second message is due for the same length. */
  lemma ProgressCounterAdvances(sentLength: int, counter: int)
    requires ProgressDue(sentLength, counter)
    ensures NextProgressCounter(sentLength) > counter
    ensures !ProgressDue(sentLength, NextProgressCounter(sentLength))
  {
    var c := NextProgressCounter(sentLength);
  }

  /** Whether a file name, as UTF-16 with its terminator, fits the PUT header packet the peer accepts. */
  predicate NameFitsPacket(nameLength: int, remoteMaxPacketLength: int) {
    (nameLength + 1) * 2 <= remoteMaxPacketLength - (PutRequestHeaderSize + PutRequestAppendHeaderSize)
  }

  method CopyInto(dst: array<byte>, at: nat, src: seq<byte>, from: nat, n: nat)
    requires from + n <= |src| && at + n <= dst.Length
    modifies dst
    ensures dst[..at + n] == old(dst[..at]) + src[from..from + n]
    ensures dst[at + n..] == old(dst[at + n..])
  {
    var k := 0;
    while k < n
      invariant 0 <= k <= n
      invariant forall j :: at <= j < at + k ==> dst[j] == src[from + (j - at)]
      invariant forall j :: 0 <= j < dst.Length && !(at <= j < at + k) ==> dst[j] == old(dst[j])
    {
      dst[at + k] := src[from + k];
      k := k + 1;
    }
    ghost var want := old(dst[..at]) + src[from..from + n];
    assert forall j :: 0 <= j < at + n ==> dst[j] == want[j];
    assert dst[..at + n] == want;
  }

  class Manager {
    var isServer: bool
    var connected: bool
    /** Opcode of the last request sent; kept only on the sending side. */
    var lastCommand: byte

    var batches: seq<SendFileBatch>
    var currentBlobIndex: int
    /** Devices ConnectInternal was asked to connect to, in order. */
    var connectRequests: seq<Address>

    var putReceivedLength: int
    var packetLength: int
    var receivedData: array<byte>

    var putFinalFlag: bool
    var newFileFlag: bool
    var abortFlag: bool
    var waitingForConfirmation: bool
    var transferCompleteFlag: bool
    var successFlag: bool
    var waitingToSendPutFinal: bool

    var fileName: string
    var contentType: string
    var fileLength: int
    var sentFileLength: int
    var bodySegmentLength: int
    var updateProgressCounter: int

    var remoteObexVersion: byte
    var remoteConnectionFlags: byte
    var remoteMaxPacketLength: int

    /** Opcodes of the OBEX packets written to the socket, oldest first. */
    var sent: seq<byte>
    /** System messages broadcast, oldest first. */
    var notices: seq<Notice>

    ghost predicate Valid()
      reads this`batches, this`currentBlobIndex, this`putReceivedLength, this`receivedData, this`packetLength
    {
      QueueValid() && BufferValid()
    }

    /** The queue is well formed and the blob index points into the head batch, or is -1 before its first blob. */
    ghost predicate QueueValid()
      reads this`batches, this`currentBlobIndex
    {
      WellFormedQueue(batches) &&
      -1 <= currentBlobIndex &&
      (|batches| == 0 ==> currentBlobIndex == -1) &&
      (|batches| > 0 ==> currentBlobIndex < |batches[0].blobs|)
    }

    /** The bytes received so far fit the buffer, which holds exactly the declared packet length. */
    ghost predicate BufferValid()
      reads this`putReceivedLength, this`receivedData, this`packetLength
    {
      0 <= putReceivedLength <= receivedData.Length &&
      (putReceivedLength > 0 ==> receivedData.Length == packetLength)
    }

    /** The bytes of the PUT packet received so far. */
    ghost function Received(): seq<byte>
      reads this`putReceivedLength, this`receivedData, this`packetLength, receivedData
      requires BufferValid()
    {
      receivedData[..putReceivedLength]
    }

    constructor ()
      ensures Valid()
      ensures isServer && !connected && lastCommand == 0
      ensures batches == [] && currentBlobIndex == -1 && connectRequests == []
      ensures putReceivedLength == 0 && packetLength == 0 && Received() == []
      ensures !putFinalFlag && !newFileFlag && !abortFlag && !waitingForConfirmation
      ensures transferCompleteFlag && !successFlag && !waitingToSendPutFinal
      ensures fileLength == 0 && sentFileLength == 0 && bodySegmentLength == 0
      ensures remoteMaxPacketLength == 0 && sent == [] && notices == []
    {
      isServer := true;
      connected := false;
      lastCommand := 0;
      batches := [];
      currentBlobIndex := -1;
      connectRequests := [];
      putReceivedLength := 0;
      packetLength := 0;
      receivedData := new byte[0];
      putFinalFlag := false;
      newFileFlag := false;
      abortFlag := false;
      waitingForConfirmation := false;
      transferCompleteFlag := true;
      successFlag := false;
      waitingToSendPutFinal := false;
      fileName := "";
      contentType := "";
      fileLength := 0;
      sentFileLength := 0;
      bodySegmentLength := 0;
      updateProgressCounter := 1;
      remoteObexVersion := 0;
      remoteConnectionFlags := 0;
      remoteMaxPacketLength := 0;
      sent := [];
      notices := [];
    }

    // -------------------------------------------------------------------
    // Output

    method SendObexData(opcode: byte)
      modifies this`lastCommand, this`sent
      ensures sent == old(sent) + [opcode]
      ensures lastCommand == if isServer then old(lastCommand) else opcode
    {
      if !isServer {
        lastCommand := opcode;
      }
      sent := sent + [opcode];
    }

    method FileTransferComplete()
      modifies this`transferCompleteFlag, this`contentType, this`notices
      ensures transferCompleteFlag
      ensures notices == AppendIf(old(notices), !old(transferCompleteFlag), TransferComplete(successFlag, fileName))
      ensures contentType == if old(transferCompleteFlag) then old(contentType) else ""
    {
      if transferCompleteFlag {
        return;
      }
      notices := notices + [TransferComplete(successFlag, fileName)];
      transferCompleteFlag := true;
      contentType := "";
    }

    method StartFileTransfer()
      modifies this`transferCompleteFlag, this`notices
      ensures !transferCompleteFlag
      ensures notices == old(notices) + [TransferStart(fileName)]
    {
      notices := notices + [TransferStart(fileName)];
      transferCompleteFlag := false;
    }

    method ReceivingFileConfirmation()
      modifies this`transferCompleteFlag, this`notices
      ensures !transferCompleteFlag
      ensures notices == old(notices) + [ConfirmationRequest(fileName)]
    {
      notices := notices + [ConfirmationRequest(fileName)];
      transferCompleteFlag := false;
    }

    method UpdateProgress()
      modifies this`notices
      ensures notices == old(notices) + [Progress(sentFileLength)]
    {
      notices := notices + [Progress(sentFileLength)];
    }

    /** Broadcasts progress when the transferred length has passed the current 50 KiB mark, and moves the mark. */
    method MaybeUpdateProgress()
      modifies this`notices, this`updateProgressCounter
      ensures var due := ProgressDue(sentFileLength, old(updateProgressCounter));
        notices == AppendIf(old(notices), due, Progress(sentFileLength)) &&
        updateProgressCounter == if due then NextProgressCounter(sentFileLength) else old(updateProgressCounter)
    {
      if sentFileLength > UpdateProgressBase * updateProgressCounter {
        UpdateProgress();
        updateProgressCounter := sentFileLength / UpdateProgressBase + 1;
      }
    }

    method SendConnectRequest()
      modifies this`lastCommand, this`sent
      ensures sent == AppendIf(old(sent), !connected, Connect)
      ensures lastCommand == if connected || isServer then old(lastCommand) else Connect
    {
      if connected {
        return;
      }
      SendObexData(Connect);
    }

    method SendPutHeaderRequest(name: string, fileSize: int)
      modifies this`lastCommand, this`sent
      ensures sent == AppendIf(old(sent), connected, PutHeaderOpcode(fileSize))
      ensures lastCommand == if !connected || isServer then old(lastCommand) else PutHeaderOpcode(fileSize)
    {
      if !connected {
        return;
      }
      var opcode := if fileSize > 0 then Put else PutFinal;
      SendObexData(opcode);
    }

    /** Sends one body chunk; a chunk that does not fit the peer's maximum packet is dropped. */
    method SendPutRequest(bodyLength: nat)
      modifies this`lastCommand, this`sent, this`sentFileLength
      ensures var fits := connected && bodyLength <= remoteMaxPacketLength - PutRequestHeaderSize;
        (fits ==> sent == old(sent) + [Put] && sentFileLength == old(sentFileLength) + bodyLength) &&
        (!fits ==> sent == old(sent) && sentFileLength == old(sentFileLength) && lastCommand == old(lastCommand))
    {
      if !connected {
        return;
      }
      var packetLeftSpace := remoteMaxPacketLength - PutRequestHeaderSize;
      if bodyLength > packetLeftSpace {
        return;
      }
      SendObexData(Put);
      sentFileLength := sentFileLength + bodyLength;
    }

    method SendPutFinalRequest()
      modifies this`lastCommand, this`sent, this`waitingToSendPutFinal
      ensures sent == AppendIf(old(sent), connected, PutFinal)
      ensures waitingToSendPutFinal == (old(waitingToSendPutFinal) && !connected)
      ensures lastCommand == if connected && !isServer then PutFinal else old(lastCommand)
    {
      if !connected {
        return;
      }
      SendObexData(PutFinal);
      waitingToSendPutFinal := false;
    }

    method SendDisconnectRequest()
      modifies this`lastCommand, this`sent
      ensures sent == AppendIf(old(sent), connected, Disconnect)
      ensures lastCommand == if !connected || isServer then old(lastCommand) else Disconnect
    {
      if !connected {
        return;
      }
      SendObexData(Disconnect);
    }

    /** After reading numRead more bytes, the file is finished once the sent length reaches its length. */
    method CheckPutFinal(numRead: nat)
      modifies this`waitingToSendPutFinal
      ensures waitingToSendPutFinal ==
        (old(waitingToSendPutFinal) || sentFileLength + numRead >= fileLength)
    {
      if sentFileLength + numRead >= fileLength {
        waitingToSendPutFinal := true;
      }
    }

    method ReplyToConnect()
      modifies this`lastCommand, this`sent
      ensures sent == AppendIf(old(sent), !connected, Success)
      ensures lastCommand == if connected || isServer then old(lastCommand) else Success
    {
      if connected {
        return;
      }
      SendObexData(Success);
    }

    method ReplyToDisconnectOrAbort()
      modifies this`lastCommand, this`sent
      ensures sent == AppendIf(old(sent), connected, Success)
      ensures lastCommand == if !connected || isServer then old(lastCommand) else Success
    {
      if !connected {
        return;
      }
      SendObexData(Success);
    }

    /** Replies to a complete PUT packet; the reassembly restarts with the next packet. */
    method ReplyToPut(isFinal: bool, cont: bool)
      modifies this`lastCommand, this`sent, this`putReceivedLength
      ensures sent == AppendIf(old(sent), connected, PutResponseCode(isFinal, cont))
      ensures putReceivedLength == if connected then 0 else old(putReceivedLength)
      ensures lastCommand == if connected && !isServer then PutResponseCode(isFinal, cont) else old(lastCommand)
    {
      if !connected {
        return;
      }
      putReceivedLength := 0;
      var opcode;
      if cont {
        opcode := if isFinal then Success else Continue;
      } else {
        opcode := if isFinal then Unauthorized else ClearFinalBit(Unauthorized);
      }
      SendObexData(opcode);
    }

    method ReplyError(error: byte)
      modifies this`lastCommand, this`sent
      ensures sent == old(sent) + [error]
      ensures lastCommand == if isServer then old(lastCommand) else error
    {
      SendObexData(error);
    }

    // -------------------------------------------------------------------
    // Session bookkeeping

    /** The per-file transfer state as AfterFirstPut leaves it, ready for a new file. */
    ghost predicate PutStateReset()
      reads this`updateProgressCounter, this`putFinalFlag, this`putReceivedLength,
        this`sentFileLength, this`waitingToSendPutFinal, this`successFlag, this`bodySegmentLength
    {
      updateProgressCounter == 1 && !putFinalFlag && putReceivedLength == 0 &&
      sentFileLength == 0 && !waitingToSendPutFinal && !successFlag && bodySegmentLength == 0
    }

    method AfterFirstPut()
      modifies this`updateProgressCounter, this`putFinalFlag, this`putReceivedLength,
        this`sentFileLength, this`waitingToSendPutFinal, this`successFlag, this`bodySegmentLength
      ensures PutStateReset()
    {
      updateProgressCounter := 1;
      putFinalFlag := false;
      putReceivedLength := 0;
      sentFileLength := 0;
      waitingToSendPutFinal := false;
      successFlag := false;
      bodySegmentLength := 0;
    }

    /** mountLockOk: whether the sdcard mount lock was acquired; without it the session is dropped. */
    method AfterOppConnected(mountLockOk: bool)
      modifies this`connected, this`abortFlag, this`waitingForConfirmation,
        this`updateProgressCounter, this`putFinalFlag, this`putReceivedLength,
        this`sentFileLength, this`waitingToSendPutFinal, this`successFlag, this`bodySegmentLength,
        this`lastCommand, this`sent
      ensures connected && !abortFlag && waitingForConfirmation && PutStateReset()
      ensures sent == AppendIf(old(sent), !mountLockOk, Disconnect)
      ensures lastCommand == if mountLockOk || isServer then old(lastCommand) else Disconnect
    {
      connected := true;
      abortFlag := false;
      waitingForConfirmation := true;
      AfterFirstPut();
      if !mountLockOk {
        SendDisconnectRequest();
      }
    }

    method AfterOppDisconnected()
      modifies this`connected, this`lastCommand, this`putReceivedLength
      ensures !connected && lastCommand == 0 && putReceivedLength == 0
    {
      connected := false;
      lastCommand := 0;
      putReceivedLength := 0;
    }

    /** Reads name, type and size of the blob about to be sent. */
    method ExtractBlobHeaders(blob: Blob)
      modifies this`fileName, this`contentType, this`fileLength, this`lastCommand, this`sent
      ensures fileName == SentFileName(blob) && contentType == blob.contentType
      ensures fileLength == if blob.size > Uint32Max then old(fileLength) else blob.size
      ensures sent == old(sent) + OversizeDisconnect(blob, connected)
      ensures lastCommand == if connected && blob.size > Uint32Max && !isServer then Disconnect else old(lastCommand)
    {
      fileName := SentFileName(blob);
      contentType := blob.contentType;
      if blob.size > Uint32Max {
        SendDisconnectRequest();
        return;
      }
      fileLength := blob.size;
    }

    method ExtractPacketHeaders(h: PutHeaders)
      modifies this`fileName, this`contentType, this`fileLength, this`bodySegmentLength
      ensures fileName == if h.name.Some? then h.name.value else old(fileName)
      ensures contentType == if h.contentType.Some? then h.contentType.value else old(contentType)
      ensures fileLength == if h.length.Some? then h.length.value else old(fileLength)
      ensures bodySegmentLength == if h.bodyLength.Some? then h.bodyLength.value else old(bodySegmentLength)
    {
      if h.name.Some? {
        fileName := h.name.value;
      }
      if h.contentType.Some? {
        contentType := h.contentType.value;
      }
      if h.length.Some? {
        fileLength := h.length.value;
      }
      if h.bodyLength.Some? {
        bodySegmentLength := h.bodyLength.value;
      }
    }

    /** Replaces every reserved character of the file name by '_'. */
    method ValidateFileName()
      modifies this`fileName
      ensures fileName == Sanitized(old(fileName))
    {
      var length := |fileName|;
      var i := 0;
      while i < length
        invariant 0 <= i <= length == |fileName|
        invariant forall j :: 0 <= j < i ==> fileName[j] == SanitizedChar(old(fileName)[j])
        invariant forall j :: i <= j < length ==> fileName[j] == old(fileName)[j]
      {
        if IsReservedChar(fileName[i]) {
          fileName := fileName[i := '_'];
        }
        i := i + 1;
      }
      SanitizedLength(old(fileName));
      forall j | 0 <= j < length
        ensures fileName[j] == Sanitized(old(fileName))[j]
      {
        SanitizedAt(old(fileName), j);
      }
    }

    // -------------------------------------------------------------------
    // The send-batch queue

    method AppendBlobToSend(addr: Address, blob: Blob)
      requires QueueValid()
      modifies this`batches
      ensures QueueValid()
      ensures batches == Enqueued(old(batches), addr, blob)
      ensures AllBlobs(batches) == AllBlobs(old(batches)) + [blob]
    {
      EnqueueKeepsWellFormed(batches, addr, blob);
      EnqueueAppendsBlob(batches, addr, blob);
      EnqueueKeepsHead(batches, addr, blob);
      var indexTail := |batches| - 1;
      if |batches| == 0 || addr != batches[indexTail].address {
        batches := batches + [SendFileBatch(addr, [blob])];
      } else {
        batches := batches[..indexTail] + [batches[indexTail].(blobs := batches[indexTail].blobs + [blob])];
      }
    }

    /** Takes the next blob of the head batch and opens the session or sends its header PUT. */
    method StartSendingNextFile()
      requires QueueValid()
      requires |batches| > 0 && currentBlobIndex + 1 < |batches[0].blobs|
      modifies this`currentBlobIndex, this`fileName, this`contentType, this`fileLength,
        this`lastCommand, this`sent, this`transferCompleteFlag, this`notices,
        this`updateProgressCounter, this`putFinalFlag, this`putReceivedLength,
        this`sentFileLength, this`waitingToSendPutFinal, this`successFlag, this`bodySegmentLength
      ensures QueueValid()
      ensures currentBlobIndex == old(currentBlobIndex) + 1
      ensures var blob := batches[0].blobs[currentBlobIndex];
        fileName == SentFileName(blob) &&
        notices == old(notices) + [TransferStart(fileName)] && !transferCompleteFlag &&
        sent == if currentBlobIndex == 0
          then AppendIf(old(sent) + OversizeDisconnect(blob, connected), !connected, Connect)
          else AppendIf(old(sent) + OversizeDisconnect(blob, connected), connected, PutHeaderOpcode(fileLength))
      ensures currentBlobIndex > 0 ==> PutStateReset()
      ensures currentBlobIndex == 0 ==>
        updateProgressCounter == old(updateProgressCounter) && putFinalFlag == old(putFinalFlag) &&
        putReceivedLength == old(putReceivedLength) && sentFileLength == old(sentFileLength) &&
        waitingToSendPutFinal == old(waitingToSendPutFinal) && successFlag == old(successFlag)
    {
      var blob := batches[0].blobs[currentBlobIndex + 1];
      AnnounceNextBlob(blob);
      assert QueueValid();
      if currentBlobIndex == 0 {
        SendConnectRequest();
      } else {
        SendPutHeaderRequest(fileName, fileLength);
        AfterFirstPut();
      }
    }

    /** `mBlob = blobs[++sCurrentBlobIndex]`, then ExtractBlobHeaders and StartFileTransfer. */
    method AnnounceNextBlob(blob: Blob)
      modifies this`currentBlobIndex, this`fileName, this`contentType, this`fileLength,
        this`lastCommand, this`sent, this`transferCompleteFlag, this`notices
      ensures currentBlobIndex == old(currentBlobIndex) + 1
      ensures fileName == SentFileName(blob) && contentType == blob.contentType
      ensures fileLength == if blob.size > Uint32Max then old(fileLength) else blob.size
      ensures lastCommand == if connected && blob.size > Uint32Max && !isServer then Disconnect else old(lastCommand)
      ensures sent == old(sent) + OversizeDisconnect(blob, connected)
      ensures notices == old(notices) + [TransferStart(fileName)] && !transferCompleteFlag
    {
      currentBlobIndex := currentBlobIndex + 1;
      ExtractBlobHeaders(blob);
      StartFileTransfer();
    }

    /** Reports every blob left in the head batch as a finished, failed transfer. */
    method DiscardBlobsToSend()
      requires QueueValid() && |batches| > 0
      modifies this`currentBlobIndex, this`fileName, this`contentType, this`fileLength,
        this`lastCommand, this`sent, this`transferCompleteFlag, this`notices
      ensures QueueValid()
      ensures currentBlobIndex == |batches[0].blobs| - 1
      ensures var blobs := batches[0].blobs; var k := old(currentBlobIndex) + 1;
        notices == old(notices) + DiscardNotices(blobs, k, successFlag) &&
        sent == old(sent) + DiscardSent(blobs, k, connected) &&
        transferCompleteFlag == (old(transferCompleteFlag) || k < |blobs|)
    {
      var blobs := batches[0].blobs;
      var length := |blobs|;
      ghost var totalNotices := notices + DiscardNotices(blobs, currentBlobIndex + 1, successFlag);
      ghost var totalSent := sent + DiscardSent(blobs, currentBlobIndex + 1, connected);
      while length > currentBlobIndex + 1
        invariant old(currentBlobIndex) <= currentBlobIndex < length
        invariant DiscardProgress(blobs, totalNotices, totalSent)
        invariant transferCompleteFlag == (old(transferCompleteFlag) || currentBlobIndex > old(currentBlobIndex))
        decreases length - currentBlobIndex
      {
        DiscardNextBlob(blobs, totalNotices, totalSent);
      }
    }

    /**
     * What has been broadcast and sent so far, followed by what the blobs after the current
     * one will add, makes up the totals of discarding the whole rest of the batch.
     */
    ghost predicate DiscardProgress(blobs: seq<Blob>, totalNotices: seq<Notice>, totalSent: seq<byte>)
      reads this`currentBlobIndex, this`notices, this`sent, this`successFlag, this`connected
    {
      -1 <= currentBlobIndex < |blobs| &&
      notices + DiscardNotices(blobs, currentBlobIndex + 1, successFlag) == totalNotices &&
      sent + DiscardSent(blobs, currentBlobIndex + 1, connected) == totalSent
    }

    /** One round of the loop in DiscardBlobsToSend: the next blob is announced and at once reported failed. */
    method DiscardNextBlob(blobs: seq<Blob>, ghost totalNotices: seq<Notice>, ghost totalSent: seq<byte>)
      requires DiscardProgress(blobs, totalNotices, totalSent) && currentBlobIndex + 1 < |blobs|
      modifies this`currentBlobIndex, this`fileName, this`contentType, this`fileLength,
        this`lastCommand, this`sent, this`transferCompleteFlag, this`notices
      ensures DiscardProgress(blobs, totalNotices, totalSent)
      ensures currentBlobIndex == old(currentBlobIndex) + 1 && transferCompleteFlag
    {
      ghost var k, success, notices0, sent0 := currentBlobIndex + 1, successFlag, notices, sent;
      var blob := blobs[currentBlobIndex + 1];
      AnnounceNextBlob(blob);
      FileTransferComplete();
      AppendTwo(notices0, TransferStart(fileName), TransferComplete(success, fileName));
      DiscardStep(blobs, k, success, connected, notices0, notices, sent0, sent, totalNotices, totalSent);
    }

    /** Removes the head batch once it has been worked on, then connects to the next batch's device. */
    method ProcessNextBatch() returns (more: bool)
      requires QueueValid() && !connected
      modifies this`currentBlobIndex, this`batches, this`isServer, this`connectRequests
      ensures QueueValid() && currentBlobIndex == -1
      ensures batches == if old(currentBlobIndex) >= 0 then old(batches)[1..] else old(batches)
      ensures old(currentBlobIndex) >= 0 ==> AllBlobs(old(batches)) == old(batches)[0].blobs + AllBlobs(batches)
      ensures more <==> |batches| > 0
      ensures more ==> connectRequests == old(connectRequests) + [batches[0].address] && !isServer
      ensures !more ==> connectRequests == old(connectRequests) && isServer == old(isServer)
    {
      if currentBlobIndex >= 0 {
        DropHeadBatch(batches);
        ClearQueue();
        batches := batches[1..];
      }
      if |batches| > 0 {
        ConnectInternal(batches[0].address);
        return true;
      }
      return false;
    }

    /** Forgets the head batch's blobs; ProcessNextBatch then removes the emptied batch. */
    method ClearQueue()
      requires QueueValid() && |batches| > 0
      modifies this`currentBlobIndex, this`batches
      ensures currentBlobIndex == -1
      ensures |batches| == |old(batches)| && batches[1..] == old(batches)[1..]
      ensures batches[0] == old(batches)[0].(blobs := [])
    {
      currentBlobIndex := -1;
      batches := batches[0 := batches[0].(blobs := [])];
    }

    /** The part of ConnectInternal this model keeps: the manager becomes the sending side. */
    method ConnectInternal(addr: Address)
      modifies this`isServer, this`connectRequests
      ensures !isServer && connectRequests == old(connectRequests) + [addr]
    {
      isServer := false;
      connectRequests := connectRequests + [addr];
    }

    // -------------------------------------------------------------------
    // Receiving side

    /**
     * Adds one fragment of a PUT packet to the reassembly buffer. Returns
     * true when the packet is complete; a fragment that would overrun the
     * declared length is refused, answered and never copied.
     */
    method ComposePacket(opCode: byte, msg: seq<byte>) returns (complete: bool)
      requires BufferValid()
      modifies this`putReceivedLength, this`packetLength, this`receivedData, this`putFinalFlag,
        receivedData, this`lastCommand, this`sent, this`transferCompleteFlag, this`contentType, this`notices
      ensures BufferValid()
      ensures old(putReceivedLength) == 0 ==>
        packetLength == DeclaredLength(msg) && putFinalFlag == (opCode == PutFinal) && fresh(receivedData)
      ensures old(putReceivedLength) != 0 ==>
        packetLength == old(packetLength) && putFinalFlag == old(putFinalFlag) && receivedData == old(receivedData)
      ensures var header := if old(putReceivedLength) == 0 then 3 else 0;
        var accepted := |msg| >= header && old(putReceivedLength) + (|msg| - header) <= packetLength;
        (accepted ==>
          putReceivedLength == old(putReceivedLength) + (|msg| - header) <= packetLength &&
          Received() == old(Received()) + msg[header..] &&
          (complete <==> putReceivedLength == packetLength) &&
          sent == old(sent) && notices == old(notices) && transferCompleteFlag == old(transferCompleteFlag)) &&
        (!accepted ==>
          !complete && transferCompleteFlag &&
          putReceivedLength == (if connected then 0 else old(putReceivedLength)) &&
          sent == AppendIf(old(sent), connected, PutResponseCode(putFinalFlag, false)))
    {
      var frameHeaderLength := 0;
      if putReceivedLength == 0 {
        frameHeaderLength := 3;
        BeginPacket(opCode, msg);
      }
      var dataLength := |msg| - frameHeaderLength;
      if dataLength < 0 || putReceivedLength + dataLength > packetLength {
        ReplyToPut(putFinalFlag, false);
        FileTransferComplete();
        return false;
      }
      AppendFragment(msg, frameHeaderLength);
      return putReceivedLength == packetLength;
    }

    /** The first fragment of a PUT packet: its length field sizes the buffer the packet is collected in. */
    method BeginPacket(opCode: byte, msg: seq<byte>)
      requires BufferValid() && putReceivedLength == 0
      modifies this`packetLength, this`receivedData, this`putFinalFlag
      ensures BufferValid() && fresh(receivedData) && Received() == []
      ensures packetLength == DeclaredLength(msg) && putFinalFlag == (opCode == PutFinal)
      ensures receivedData.Length == if packetLength > 0 then packetLength else 0
    {
      packetLength := DeclaredLength(msg);
      receivedData := new byte[if packetLength > 0 then packetLength else 0];
      putFinalFlag := opCode == PutFinal;
    }

    /** Copies the data of a fragment, from index `from` of `msg` on, behind the bytes already received. */
    method AppendFragment(msg: seq<byte>, from: nat)
      requires BufferValid() && from <= |msg| && putReceivedLength + (|msg| - from) <= packetLength
      requires receivedData.Length == packetLength
      modifies this`putReceivedLength, receivedData
      ensures BufferValid() && putReceivedLength == old(putReceivedLength) + (|msg| - from)
      ensures Received() == old(Received()) + msg[from..]
    {
      CopyInto(receivedData, putReceivedLength, msg, from, |msg| - from);
      putReceivedLength := putReceivedLength + (|msg| - from);
    }

    // -------------------------------------------------------------------
    // Receiving side: one packet from the socket

    /**
     * parseOk: whether the header codec accepted the headers of a Connect,
     * Abort or Disconnect; mountLockOk: whether the storage mount lock was
     * obtained on Connect; headers: the headers parsed from a completely
     * received PUT packet; created: the leaf name the storage layer gave a
     * newly created file, None when creating it failed; writeOk: whether the
     * body segment was written out in full.
     */
    method ServerDataHandler(msg: seq<byte>, parseOk: bool, mountLockOk: bool, headers: PutHeaders,
        created: Option<string>, writeOk: bool)
      requires BufferValid()
      modifies this`connected, this`abortFlag, this`waitingForConfirmation, this`newFileFlag,
        this`updateProgressCounter, this`putFinalFlag, this`putReceivedLength, this`packetLength,
        this`receivedData, receivedData, this`sentFileLength, this`waitingToSendPutFinal,
        this`successFlag, this`bodySegmentLength, this`lastCommand, this`sent, this`notices,
        this`transferCompleteFlag, this`contentType, this`fileName, this`fileLength
      ensures BufferValid()
      ensures var step := ServerStepFor(msg, old(putReceivedLength), old(putFinalFlag), parseOk);
        (step.Refuse? ==>
          sent == old(sent) + [step.code] && notices == old(notices) &&
          putReceivedLength == old(putReceivedLength) && connected == old(connected)) &&
        (step == ConnectRequest ==>
          connected && !abortFlag && waitingForConfirmation && PutStateReset() &&
          sent == AppendIf(AppendIf(old(sent), !old(connected), Success), !mountLockOk, Disconnect)) &&
        (step == AbortRequest ==>
          sent == AppendIf(old(sent), connected, Success) && notices == old(notices) &&
          connected == old(connected)) &&
        (step == DisconnectRequest ==>
          !connected && putReceivedLength == 0 && transferCompleteFlag &&
          sent == AppendIf(old(sent), old(connected), Success) &&
          notices == AppendIf(old(notices), !old(transferCompleteFlag), TransferComplete(successFlag, fileName))) &&
        (step.PutFragment? ==>
          connected == old(connected) &&
          var header := if old(putReceivedLength) == 0 then 3 else 0;
          var total := if old(putReceivedLength) == 0 then DeclaredLength(msg) else old(packetLength);
          var grown := old(putReceivedLength) + (|msg| - header);
          var accepted := |msg| >= header && grown <= total;
          packetLength == total &&
          putFinalFlag == (if old(putReceivedLength) == 0 then step.opCode == PutFinal else old(putFinalFlag)) &&
          (!accepted ==>
            transferCompleteFlag && sent == AppendIf(old(sent), connected, PutResponseCode(putFinalFlag, false))) &&
          (accepted && grown < total ==>
            putReceivedLength == grown && sent == old(sent) && notices == old(notices)) &&
          (accepted && grown == total ==>
            var o := PutOutcomeFor(old(abortFlag), old(waitingForConfirmation), step.newFile || old(newFileFlag),
              created.Some?, writeOk);
            sent == AppendIf(old(sent), connected && o != AwaitingConfirmation, PutResponseCode(putFinalFlag, o == Stored))))
    {
      var step := ServerStepFor(msg, putReceivedLength, putFinalFlag, parseOk);
      match step
      case Refuse(code) => ReplyError(code);
      case ConnectRequest => ServeConnect(mountLockOk);
      case AbortRequest => ReplyToDisconnectOrAbort();
      case DisconnectRequest => ServeDisconnect();
      case PutFragment(opCode, newFile) => ServePut(opCode, msg, newFile, headers, created, writeOk);
    }

    /** Accepts a well-formed Connect request. */
    method ServeConnect(mountLockOk: bool)
      modifies this`connected, this`abortFlag, this`waitingForConfirmation,
        this`updateProgressCounter, this`putFinalFlag, this`putReceivedLength,
        this`sentFileLength, this`waitingToSendPutFinal, this`successFlag, this`bodySegmentLength,
        this`lastCommand, this`sent
      ensures connected && !abortFlag && waitingForConfirmation && PutStateReset()
      ensures sent == AppendIf(AppendIf(old(sent), !old(connected), Success), !mountLockOk, Disconnect)
    {
      ReplyToConnect();
      AfterOppConnected(mountLockOk);
    }

    /** Accepts a well-formed Disconnect request and closes the open transfer. */
    method ServeDisconnect()
      modifies this`connected, this`lastCommand, this`putReceivedLength, this`sent,
        this`transferCompleteFlag, this`contentType, this`notices
      ensures !connected && putReceivedLength == 0 && transferCompleteFlag && lastCommand == 0
      ensures sent == AppendIf(old(sent), old(connected), Success)
      ensures notices == AppendIf(old(notices), !old(transferCompleteFlag), TransferComplete(successFlag, fileName))
    {
      ReplyToDisconnectOrAbort();
      AfterOppDisconnected();
      FileTransferComplete();
    }

    /** One fragment of a PUT request; newFile: it follows a finished file and starts the next one. */
    method ServePut(opCode: byte, msg: seq<byte>, newFile: bool, headers: PutHeaders,
        created: Option<string>, writeOk: bool)
      requires BufferValid() && (newFile ==> putReceivedLength == 0)
      modifies this`newFileFlag, this`updateProgressCounter, this`putFinalFlag, this`putReceivedLength,
        this`packetLength, this`receivedData, receivedData, this`sentFileLength, this`waitingToSendPutFinal,
        this`successFlag, this`bodySegmentLength, this`lastCommand, this`sent, this`notices,
        this`transferCompleteFlag, this`contentType, this`fileName, this`fileLength
      ensures BufferValid()
      ensures var header := if old(putReceivedLength) == 0 then 3 else 0;
        var total := if old(putReceivedLength) == 0 then DeclaredLength(msg) else old(packetLength);
        var grown := old(putReceivedLength) + (|msg| - header);
        var accepted := |msg| >= header && grown <= total;
        packetLength == total &&
        putFinalFlag == (if old(putReceivedLength) == 0 then opCode == PutFinal else old(putFinalFlag)) &&
        (!accepted ==>
          transferCompleteFlag && sent == AppendIf(old(sent), connected, PutResponseCode(putFinalFlag, false))) &&
        (accepted && grown < total ==>
          putReceivedLength == grown && Received() == old(Received()) + msg[header..] &&
          sent == old(sent) && notices == old(notices)) &&
        (accepted && grown == total ==>
          var o := PutOutcomeFor(abortFlag, waitingForConfirmation, newFile || old(newFileFlag), created.Some?, writeOk);
          sent == AppendIf(old(sent), connected && o != AwaitingConfirmation, PutResponseCode(putFinalFlag, o == Stored)))
    {
      if newFile {
        newFileFlag := true;
        AfterFirstPut();
      }
      var complete := ComposePacket(opCode, msg);
      if complete {
        CompletePut(headers, created, writeOk);
      }
    }

    /** A PUT packet is complete: take over its headers, sanitise the name, and act on it. */
    method CompletePut(headers: PutHeaders, created: Option<string>, writeOk: bool)
      modifies this`lastCommand, this`sent, this`putReceivedLength, this`sentFileLength,
        this`transferCompleteFlag, this`contentType, this`notices, this`newFileFlag, this`fileName,
        this`updateProgressCounter, this`successFlag, this`fileLength, this`bodySegmentLength
      ensures fileLength == if headers.length.Some? then headers.length.value else old(fileLength)
      ensures bodySegmentLength == if headers.bodyLength.Some? then headers.bodyLength.value else old(bodySegmentLength)
      ensures var o := PutOutcomeFor(abortFlag, waitingForConfirmation, old(newFileFlag), created.Some?, writeOk);
        var name := Sanitized(if headers.name.Some? then headers.name.value else old(fileName));
        var answered := connected && o != AwaitingConfirmation;
        sent == AppendIf(old(sent), answered, PutResponseCode(putFinalFlag, o == Stored)) &&
        putReceivedLength == (if answered then 0 else old(putReceivedLength)) &&
        (o == AwaitingConfirmation ==> notices == old(notices) + [ConfirmationRequest(name)])
    {
      ExtractPacketHeaders(headers);
      ValidateFileName();
      HandleCompletePut(created, writeOk);
    }

    /** Acts on a completely received PUT packet whose headers have been taken over. */
    method HandleCompletePut(created: Option<string>, writeOk: bool)
      modifies this`lastCommand, this`sent, this`putReceivedLength, this`sentFileLength,
        this`transferCompleteFlag, this`contentType, this`notices, this`newFileFlag, this`fileName,
        this`updateProgressCounter, this`successFlag
      ensures var o := PutOutcomeFor(abortFlag, waitingForConfirmation, old(newFileFlag), created.Some?, writeOk);
        var answered := connected && o != AwaitingConfirmation;
        sent == AppendIf(old(sent), answered, PutResponseCode(putFinalFlag, o == Stored)) &&
        putReceivedLength == (if answered then 0 else old(putReceivedLength)) &&
        sentFileLength == old(sentFileLength) + (if o == CreateFailed || o == WriteFailed then 0 else bodySegmentLength) &&
        successFlag == (old(successFlag) || (o == Stored && putFinalFlag)) &&
        (o == Aborted ==>
          transferCompleteFlag && newFileFlag == old(newFileFlag) && fileName == old(fileName) &&
          notices == AppendIf(old(notices), !old(transferCompleteFlag), TransferComplete(successFlag, fileName))) &&
        (o == AwaitingConfirmation ==>
          !transferCompleteFlag && newFileFlag == old(newFileFlag) && fileName == old(fileName) &&
          notices == old(notices) + [ConfirmationRequest(fileName)]) &&
        (o == CreateFailed ==>
          !transferCompleteFlag && newFileFlag && fileName == old(fileName) &&
          notices == old(notices) + [TransferStart(fileName)]) &&
        (o == WriteFailed || o == Stored ==> !newFileFlag)
    {
      if abortFlag {
        ReplyToPut(putFinalFlag, false);
        sentFileLength := sentFileLength + bodySegmentLength;
        FileTransferComplete();
        return;
      }
      if waitingForConfirmation {
        ReceivingFileConfirmation();
        sentFileLength := sentFileLength + bodySegmentLength;
        return;
      }
      StoreBody(created, writeOk);
    }

    /** Creates the file when the packet starts one, then writes the body and answers. */
    method StoreBody(created: Option<string>, writeOk: bool)
      modifies this`lastCommand, this`sent, this`putReceivedLength, this`sentFileLength,
        this`transferCompleteFlag, this`contentType, this`notices, this`newFileFlag, this`fileName,
        this`updateProgressCounter, this`successFlag
      ensures var o := PutOutcomeFor(false, false, old(newFileFlag), created.Some?, writeOk);
        var started := AppendIf(old(notices), old(newFileFlag), TransferStart(old(fileName)));
        var wasComplete := old(transferCompleteFlag) && !old(newFileFlag);
        sent == AppendIf(old(sent), connected, PutResponseCode(putFinalFlag, o == Stored)) &&
        putReceivedLength == (if connected then 0 else old(putReceivedLength)) &&
        newFileFlag == (old(newFileFlag) && created.None?) &&
        fileName == (if old(newFileFlag) && created.Some? then created.value else old(fileName)) &&
        sentFileLength == old(sentFileLength) + (if o == Stored then bodySegmentLength else 0) &&
        successFlag == (old(successFlag) || (o == Stored && putFinalFlag)) &&
        (o != Stored ==>
          notices == started && updateProgressCounter == old(updateProgressCounter) &&
          transferCompleteFlag == wasComplete) &&
        (o == Stored ==>
          var due := ProgressDue(sentFileLength, old(updateProgressCounter));
          notices == AppendIf(AppendIf(started, due, Progress(sentFileLength)),
            putFinalFlag && !wasComplete, TransferComplete(true, fileName)) &&
          updateProgressCounter == (if due then NextProgressCounter(sentFileLength) else old(updateProgressCounter)) &&
          transferCompleteFlag == (putFinalFlag || wasComplete))
    {
      if newFileFlag {
        StartFileTransfer();
        if created.None? {
          ReplyToPut(putFinalFlag, false);
          return;
        }
        fileName := created.value;
        newFileFlag := false;
      }
      if !writeOk {
        ReplyToPut(putFinalFlag, false);
        return;
      }
      FinishStore();
    }

    /** The body is stored: acknowledge it, count it, report progress, and finish the file on PutFinal. */
    method FinishStore()
      modifies this`lastCommand, this`sent, this`putReceivedLength, this`sentFileLength,
        this`transferCompleteFlag, this`contentType, this`notices, this`updateProgressCounter, this`successFlag
      ensures sent == AppendIf(old(sent), connected, PutResponseCode(putFinalFlag, true))
      ensures putReceivedLength == if connected then 0 else old(putReceivedLength)
      ensures sentFileLength == old(sentFileLength) + bodySegmentLength
      ensures successFlag == (old(successFlag) || putFinalFlag)
      ensures var due := ProgressDue(sentFileLength, old(updateProgressCounter));
        notices == AppendIf(AppendIf(old(notices), due, Progress(sentFileLength)),
          putFinalFlag && !old(transferCompleteFlag), TransferComplete(true, fileName)) &&
        updateProgressCounter == (if due then NextProgressCounter(sentFileLength) else old(updateProgressCounter))
      ensures transferCompleteFlag == (putFinalFlag || old(transferCompleteFlag))
    {
      ReplyToPut(putFinalFlag, true);
      sentFileLength := sentFileLength + bodySegmentLength;
      MaybeUpdateProgress();
      if putFinalFlag {
        successFlag := true;
        FileTransferComplete();
      }
    }

    /**
     * The user's answer to the confirmation request for an incoming file.
     * created and writeOk as for ServerDataHandler. Returns false, changing
     * nothing, when no connected transfer waits for an answer.
     */
    method ConfirmReceivingFile(confirm: bool, created: Option<string>, writeOk: bool) returns (r: bool)
      requires Valid()
      modifies this`waitingForConfirmation, this`transferCompleteFlag, this`notices, this`fileName,
        this`successFlag, this`contentType, this`lastCommand, this`sent, this`putReceivedLength
      ensures Valid()
      ensures r <==> old(connected) && old(waitingForConfirmation)
      ensures !r ==>
        sent == old(sent) && notices == old(notices) && waitingForConfirmation == old(waitingForConfirmation) &&
        putReceivedLength == old(putReceivedLength)
      ensures r ==>
        var stored := confirm && created.Some? && writeOk;
        !waitingForConfirmation && putReceivedLength == 0 &&
        sent == old(sent) + [PutResponseCode(putFinalFlag, stored)] &&
        successFlag == (old(successFlag) || (stored && putFinalFlag)) &&
        fileName == (if confirm && created.Some? then created.value else old(fileName)) &&
        notices == AppendIf(AppendIf(old(notices), confirm, TransferStart(old(fileName))),
          stored && putFinalFlag, TransferComplete(true, fileName)) &&
        transferCompleteFlag == (if stored && putFinalFlag then true else if confirm then false else old(transferCompleteFlag))
    {
      if !connected || !waitingForConfirmation {
        return false;
      }
      waitingForConfirmation := false;
      AnswerConfirmation(confirm, created, writeOk);
      return true;
    }

    /** ConfirmReceivingFile once a connected transfer is known to wait for the answer. */
    method AnswerConfirmation(confirm: bool, created: Option<string>, writeOk: bool)
      requires connected
      modifies this`transferCompleteFlag, this`notices, this`fileName,
        this`successFlag, this`contentType, this`lastCommand, this`sent, this`putReceivedLength
      ensures var stored := confirm && created.Some? && writeOk;
        putReceivedLength == 0 &&
        sent == old(sent) + [PutResponseCode(putFinalFlag, stored)] &&
        successFlag == (old(successFlag) || (stored && putFinalFlag)) &&
        fileName == (if confirm && created.Some? then created.value else old(fileName)) &&
        notices == AppendIf(AppendIf(old(notices), confirm, TransferStart(old(fileName))),
          stored && putFinalFlag, TransferComplete(true, fileName)) &&
        transferCompleteFlag == (if stored && putFinalFlag then true else if confirm then false else old(transferCompleteFlag))
    {
      var success := false;
      if confirm {
        StartFileTransfer();
        if created.Some? {
          fileName := created.value;
          success := writeOk;
        }
      }
      if success && putFinalFlag {
        successFlag := true;
        FileTransferComplete();
      }
      ReplyToPut(putFinalFlag, success);
    }

    // -------------------------------------------------------------------
    // Sending side: one response from the socket

    /**
     * mountLockOk: whether the storage mount lock was obtained when the
     * session opens; readOk: whether the blob's input stream is open (or
     * could be opened) and the task reading its next chunk was dispatched.
     * Runs only while a batch is being sent, so the queue has a head batch.
     */
    method ClientDataHandler(msg: seq<byte>, mountLockOk: bool, readOk: bool)
      requires QueueValid() && |batches| > 0
      modifies this`connected, this`abortFlag, this`waitingForConfirmation,
        this`updateProgressCounter, this`putFinalFlag, this`putReceivedLength,
        this`sentFileLength, this`waitingToSendPutFinal, this`successFlag, this`bodySegmentLength,
        this`lastCommand, this`sent, this`notices, this`transferCompleteFlag, this`contentType,
        this`currentBlobIndex, this`fileName, this`fileLength,
        this`remoteObexVersion, this`remoteConnectionFlags, this`remoteMaxPacketLength
      ensures QueueValid()
      ensures var step := ClientStepFor(msg, old(lastCommand), old(currentBlobIndex), |batches[0].blobs|);
        (step == Ignore || step == Unhandled ==>
          sent == old(sent) && notices == old(notices) && currentBlobIndex == old(currentBlobIndex) &&
          connected == old(connected)) &&
        (step.Failed? ==>
          transferCompleteFlag && currentBlobIndex == old(currentBlobIndex) &&
          sent == AppendIf(old(sent), step.sendDisconnect && old(connected), Disconnect) &&
          notices == AppendIf(old(notices), !old(transferCompleteFlag), TransferComplete(successFlag, fileName))) &&
        (step == FileSent(true) ==>
          successFlag && transferCompleteFlag && currentBlobIndex == old(currentBlobIndex) &&
          sent == AppendIf(old(sent), old(connected), Disconnect) &&
          notices == AppendIf(old(notices), !old(transferCompleteFlag), TransferComplete(true, fileName))) &&
        (step == FileSent(false) ==>
          currentBlobIndex == old(currentBlobIndex) + 1 &&
          var blob := batches[0].blobs[currentBlobIndex];
          fileName == SentFileName(blob) && !transferCompleteFlag &&
          (currentBlobIndex > 0 ==> PutStateReset()) &&
          sent == (if currentBlobIndex == 0
            then AppendIf(old(sent) + OversizeDisconnect(blob, connected), !connected, Connect)
            else AppendIf(old(sent) + OversizeDisconnect(blob, connected), connected, PutHeaderOpcode(fileLength))) &&
          notices == AppendIf(old(notices), !old(transferCompleteFlag), TransferComplete(true, old(fileName))) +
            [TransferStart(fileName)]) &&
        (step == AbortDone ==>
          transferCompleteFlag && currentBlobIndex == old(currentBlobIndex) &&
          sent == AppendIf(old(sent), old(connected), Disconnect) &&
          notices == AppendIf(old(notices), !old(transferCompleteFlag), TransferComplete(successFlag, fileName))) &&
        (step == DisconnectDone ==>
          !connected && lastCommand == 0 && putReceivedLength == 0 &&
          sent == old(sent) && notices == old(notices) && currentBlobIndex == old(currentBlobIndex)) &&
        (step == ConnectDone ==>
          var fits := |msg| >= 7 && NameFitsPacket(|fileName|, ReadUint16(msg[5], msg[6]));
          var afterLock := AppendIf(old(sent), !mountLockOk, Disconnect);
          connected && PutStateReset() && currentBlobIndex == old(currentBlobIndex) && notices == old(notices) &&
          (|msg| >= 7 ==>
            remoteObexVersion == msg[3] && remoteConnectionFlags == msg[4] &&
            remoteMaxPacketLength == ReadUint16(msg[5], msg[6])) &&
          sent == (if fits then afterLock + [PutHeaderOpcode(fileLength)] else afterLock + [Disconnect])) &&
        (step == PutDone ==>
          currentBlobIndex == old(currentBlobIndex) &&
          (old(waitingToSendPutFinal) ==>
            sent == AppendIf(old(sent), connected, PutFinal) && notices == old(notices)) &&
          (!old(waitingToSendPutFinal) ==>
            sent == AppendIf(old(sent), !readOk && connected, Disconnect) &&
            notices == AppendIf(old(notices), ProgressDue(sentFileLength, old(updateProgressCounter)),
              Progress(sentFileLength))))
    {
      var step := ClientStepFor(msg, lastCommand, currentBlobIndex, |batches[0].blobs|);
      match step
      case Ignore =>
      case Unhandled =>
      case Failed(sendDisconnect) => CloseTransfer(sendDisconnect);
      case FileSent(lastInBatch) => FinishSentFile(lastInBatch);
      case AbortDone => CloseTransfer(true);
      case DisconnectDone => AfterOppDisconnected();
      case ConnectDone => ClientConnected(msg, mountLockOk);
      case PutDone => ContinuePut(readOk);
    }

    /** Ends the current transfer as failed or aborted, first asking the peer to disconnect when sendDisconnect holds. */
    method CloseTransfer(sendDisconnect: bool)
      modifies this`lastCommand, this`sent, this`transferCompleteFlag, this`contentType, this`notices
      ensures transferCompleteFlag
      ensures sent == AppendIf(old(sent), sendDisconnect && connected, Disconnect)
      ensures notices == AppendIf(old(notices), !old(transferCompleteFlag), TransferComplete(successFlag, fileName))
    {
      if sendDisconnect {
        SendDisconnectRequest();
      }
      FileTransferComplete();
    }

    /** The peer accepted the PutFinal of the current blob: close the session after the last blob, else send the next. */
    method FinishSentFile(lastInBatch: bool)
      requires QueueValid() && |batches| > 0
      requires !lastInBatch ==> currentBlobIndex + 1 < |batches[0].blobs|
      modifies this`currentBlobIndex, this`fileName, this`contentType, this`fileLength,
        this`lastCommand, this`sent, this`transferCompleteFlag, this`notices,
        this`updateProgressCounter, this`putFinalFlag, this`putReceivedLength,
        this`sentFileLength, this`waitingToSendPutFinal, this`successFlag, this`bodySegmentLength
      ensures QueueValid()
      ensures lastInBatch ==>
        successFlag && transferCompleteFlag && currentBlobIndex == old(currentBlobIndex) &&
        sent == AppendIf(old(sent), connected, Disconnect) &&
        notices == AppendIf(old(notices), !old(transferCompleteFlag), TransferComplete(true, fileName))
      ensures !lastInBatch ==>
        currentBlobIndex == old(currentBlobIndex) + 1 &&
        var blob := batches[0].blobs[currentBlobIndex];
        fileName == SentFileName(blob) && !transferCompleteFlag &&
        (currentBlobIndex > 0 ==> PutStateReset()) &&
        sent == (if currentBlobIndex == 0
          then AppendIf(old(sent) + OversizeDisconnect(blob, connected), !connected, Connect)
          else AppendIf(old(sent) + OversizeDisconnect(blob, connected), connected, PutHeaderOpcode(fileLength))) &&
        notices == AppendIf(old(notices), !old(transferCompleteFlag), TransferComplete(true, old(fileName))) +
          [TransferStart(fileName)]
    {
      successFlag := true;
      FileTransferComplete();
      if lastInBatch {
        SendDisconnectRequest();
      } else {
        StartSendingNextFile();
      }
    }

    /** The peer accepted the Connect: keep its parameters and send the first header PUT if the name fits. */
    method ClientConnected(msg: seq<byte>, mountLockOk: bool)
      modifies this`connected, this`abortFlag, this`waitingForConfirmation,
        this`updateProgressCounter, this`putFinalFlag, this`putReceivedLength,
        this`sentFileLength, this`waitingToSendPutFinal, this`successFlag, this`bodySegmentLength,
        this`lastCommand, this`sent, this`remoteObexVersion, this`remoteConnectionFlags, this`remoteMaxPacketLength
      ensures connected && !abortFlag && waitingForConfirmation && PutStateReset()
      ensures |msg| >= 7 ==>
        remoteObexVersion == msg[3] && remoteConnectionFlags == msg[4] &&
        remoteMaxPacketLength == ReadUint16(msg[5], msg[6])
      ensures var fits := |msg| >= 7 && NameFitsPacket(|fileName|, ReadUint16(msg[5], msg[6]));
        var afterLock := AppendIf(old(sent), !mountLockOk, Disconnect);
        sent == if fits then afterLock + [PutHeaderOpcode(fileLength)] else afterLock + [Disconnect]
    {
      AfterOppConnected(mountLockOk);
      if |msg| < 7 {
        SendDisconnectRequest();
        return;
      }
      remoteObexVersion := msg[3];
      remoteConnectionFlags := msg[4];
      remoteMaxPacketLength := ReadUint16(msg[5], msg[6]);
      if !NameFitsPacket(|fileName|, remoteMaxPacketLength) {
        SendDisconnectRequest();
        return;
      }
      SendPutHeaderRequest(fileName, fileLength);
    }

    /** The peer accepted a body PUT: send the PutFinal once the file is read, else read the next chunk. */
    method ContinuePut(readOk: bool)
      modifies this`lastCommand, this`sent, this`waitingToSendPutFinal, this`notices, this`updateProgressCounter
      ensures old(waitingToSendPutFinal) ==>
        sent == AppendIf(old(sent), connected, PutFinal) && notices == old(notices) &&
        updateProgressCounter == old(updateProgressCounter) && waitingToSendPutFinal == !connected
      ensures !old(waitingToSendPutFinal) ==>
        var due := ProgressDue(sentFileLength, old(updateProgressCounter));
        sent == AppendIf(old(sent), !readOk && connected, Disconnect) &&
        notices == AppendIf(old(notices), due, Progress(sentFileLength)) &&
        updateProgressCounter == (if due then NextProgressCounter(sentFileLength) else old(updateProgressCounter)) &&
        !waitingToSendPutFinal
    {
      if waitingToSendPutFinal {
        SendPutFinalRequest();
        return;
      }
      MaybeUpdateProgress();
      if !readOk {
        SendDisconnectRequest();
      }
    }
  }
}
