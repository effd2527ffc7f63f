# gecko-b2g device services, modelled in Dafny

This project models the self-contained logic of several B2G (Boot to Gecko)
device services and proves properties of it. The services are:

- **Bluetooth OBEX profiles** (`obex.dfy`, `opp_manager.dfy`, `pbap_header.dfy`, `pbap_manager.dfy`):
  - the Object Push Profile manager: its send-batch queue, PUT fragment
    reassembly, the response checker of the sending side, the PUT reply
    table and file-name sanitising;
  - the Phone Book Access server: request dispatch, Single Response Mode
    (SRM) flags, folder navigation, PULL request classification, GET reply
    composition, the property-mask unpacker and digest authentication.

OBEX opcodes, response codes and header sizes follow IrOBEX 1.2. Application
parameter tags and feature bits follow section 6.2.1 of PBAP 1.2.

Stateful source classes are Dafny classes whose fields the methods update.
Their `modifies` clauses name only the fields each method writes. Packets a
manager writes to its socket are recorded in a `sent` field. Broadcast
system messages are recorded in `notices` (OPP) or `signals` (PBAP).
Outcomes of storage, sockets, the header codec and other services the model
cannot see are method parameters:

- `parseOk`: whether the header codec accepted a request's headers;
- `created`: the file name the storage layer created, `None` when creating failed;
- `writeOk`, `readOk`: whether a file write or read succeeded;
- `mountLockOk`: whether the storage mount lock was obtained;
- `serviceUp`: whether the Bluetooth service exists;
- `blob`: the phone-book object the front end handed over, `None` when no stream can be opened on it;
- `readLimit`: how many bytes one read of that stream yields at most;
- `md5`: the hash function.

The other services are:

- **Bluetooth value types** (`bluetooth_common.dfy`): the device address
  with its LAP, UAP and NAP parts, the 128-bit UUID with its 16- and 32-bit
  short forms, the PIN code and the remote name. Each is a class over a
  fixed-size byte array that its setters overwrite in place.
- **Bluetooth IPC child** (`bluetooth_child.dfy`): the shutdown handshake
  of the child actor. `debug` says whether the build defines DEBUG.
- **Cell broadcast IPC child** (`cell_broadcast_child.dfy`): the listener
  list and message fan-out. `unregisters` says which listener, if any, a
  listener's callback unregisters.
- **Gonk audio manager** (`audio_manager.dfy`): the stream tables, volume
  validation, output-device selection, the per-device volume cache with its
  alias propagation, the connected-device map and volume setting names.
- **Wi-Fi supplicant station manager** (`supplicant_sta.dfy`): WPS
  config-method parsing, configuration equality, the configuration cache,
  country-code and roaming checks and the death-notice filter. The HAL's
  answer is the parameter `halResult`.
- **Content-side Wi-Fi manager** (`dom_wifi_manager.dfy`): the state the
  manager keeps and how each message from the parent process updates it.
- **Network geolocation provider** (`geolocation.dfy`): the cached request,
  the rules preferring it over a new server request, the mobile signal
  conversion and the provider's start, watch and shutdown. `cacheEnabled`
  is the cache preference, `serverAccuracy` the accuracy the server answers
  (None when the request fails), and `activeNetwork` and
  `wifiScanningEnabled` are the network and preference state at start-up.
- **Push subscription record** (`push_record.dfy`): the quota, the recent
  message ids, key matching and unregister retries. The clock is `now`,
  the decay formula's value is `decayedQuota`, and `tabOpen` says whether
  a tab of the origin is open.
- **Helper application dialog** (`helper_app_dialog.dfy`): cleaning a
  download's leaf name and making it unique among `existing` names with
  "(2)", "(3)" counters. `usableDirectory` says whether the chosen
  directory is usable.
- **GL cursor images** (`gl_cursor.dfy`): the supported cursors, the
  image and load maps and whether the cursor is drawn. `hasWindow` and
  `documentReady` stand for the window and its document.
- **RIL worker** (`ril_worker.dfy`): the cell-info rate and broadcast
  configuration requests, acknowledgements, forwarding of responses and
  the MVNO and PDP name conversions. `hasRadioProxy` says whether a radio
  HAL is found.

## Model

| member | source | states |
|---|---|---|
| Obex.ClearFinalBit | dom/b2g/bluetooth/bluedroid/BluetoothOppManager.cpp:1351-1352 | clearing the final bit leaves the other seven bits and removes bit 7 |
| Obex.ReadUint16 | dom/b2g/bluetooth/bluedroid/BluetoothOppManager.cpp:868-869 | the big-endian 16-bit value of two bytes: below 2^16, high byte first |
| Obex.ReadUint32 | dom/b2g/bluetooth/bluedroid/BluetoothPbapManager.cpp:338-340 | the big-endian 32-bit value of four bytes: below 2^32, its four base-256 digits are the bytes, most significant first |
| OppManager.EnqueueSameDevice | dom/b2g/bluetooth/bluedroid/BluetoothOppManager.cpp:449-455 | a blob for the last batch's device joins that batch; the batch count and the earlier batches are unchanged |
| OppManager.EnqueueOtherDevice | dom/b2g/bluetooth/bluedroid/BluetoothOppManager.cpp:449-452 | a blob for any other device, or an empty queue, appends a new one-blob batch |
| OppManager.EnqueueKeepsWellFormed | dom/b2g/bluetooth/bluedroid/BluetoothOppManager.cpp:438-456 | enqueueing keeps every batch non-empty and neighbouring batches on different devices |
| OppManager.EnqueueKeepsHead | dom/b2g/bluetooth/bluedroid/BluetoothOppManager.cpp:438-456 | the queue is non-empty afterwards and the head batch only grows |
| OppManager.EnqueueAppendsBlob | dom/b2g/bluetooth/bluedroid/BluetoothOppManager.cpp:438-456 | the blobs in sending order are the old ones followed by the new blob |
| OppManager.DropHeadBatch | dom/b2g/bluetooth/bluedroid/BluetoothOppManager.cpp:481-485 | removing the head batch removes exactly its blobs from the front of the sending order |
| OppManager.SanitizedChar | dom/b2g/bluetooth/bluedroid/BluetoothOppManager.cpp:837-853 | a reserved character becomes a non-reserved one; others are kept |
| OppManager.SanitizedAt | dom/b2g/bluetooth/bluedroid/BluetoothOppManager.cpp:844-853 | character i of the sanitised name is the sanitised character i of the name |
| OppManager.SanitizedLength | dom/b2g/bluetooth/bluedroid/BluetoothOppManager.cpp:844-853 | sanitising keeps the length |
| OppManager.SanitizedHasNoReservedChar | dom/b2g/bluetooth/bluedroid/BluetoothOppManager.cpp:837-853 | the sanitised name has no character below 0x20 nor any of ?\|<>":/*\\, and keeps every other character in place |
| OppManager.SanitizedIdempotent | dom/b2g/bluetooth/bluedroid/BluetoothOppManager.cpp:844-853 | sanitising twice gives the same name as sanitising once |
| OppManager.PutResponseCode | dom/b2g/bluetooth/bluedroid/BluetoothOppManager.cpp:1333-1356 | (continue, final) gives Success, (continue, not final) Continue, otherwise Unauthorized, with the final bit exactly when final |
| OppManager.PutResponseCodeInjective | dom/b2g/bluetooth/bluedroid/BluetoothOppManager.cpp:1340-1352 | the four replies are distinct, so the pair can be read back from the code |
| OppManager.ServerOpcode | dom/b2g/bluetooth/bluedroid/BluetoothOppManager.cpp:916-930 | while a PUT is partly received the opcode is Put or PutFinal by the remembered final flag; otherwise it is the first byte |
| OppManager.ServerOpcodeIgnoresPayload | dom/b2g/bluetooth/bluedroid/BluetoothOppManager.cpp:917-925 | during a partly received PUT the payload's first byte does not affect the opcode |
| OppManager.DeclaredLength | dom/b2g/bluetooth/bluedroid/BluetoothOppManager.cpp:866-870 | the declared body length is bytes 1..2 big-endian minus the 3-byte frame header, between -3 and 2^16 - 4 |
| OppManager.FirstFragmentAsWritten | dom/b2g/bluetooth/bluedroid/BluetoothOppManager.cpp:866-877 | as written, a first fragment under 3 bytes is read past its end, one declaring under 3 bytes asks for a negative allocation, and any other allocates its declared length |
| OppManager.AsWrittenFirstFragmentFaults | dom/b2g/bluetooth/bluedroid/BluetoothOppManager.cpp:866-877 | [0x02] is read past its end and [0x02, 0x00, 0x02] asks for a buffer of -1 |
| OppManager.MalformedFirstFragmentIsRefused | dom/b2g/bluetooth/bluedroid/BluetoothOppManager.cpp:855-889 | in the model such a fragment never passes the length check, and its declared length is negative when it has the 3 header bytes |
| OppManager.ExpectedResponse | dom/b2g/bluetooth/bluedroid/BluetoothOppManager.cpp:1058-1061 | Continue is expected after Put and Success after anything else |
| OppManager.ClientStepFor | dom/b2g/bluetooth/bluedroid/BluetoothOppManager.cpp:1038-1164 | classifies a response: empty or 0 ignored; an unexpected code fails, disconnecting after Put, Abort or PutFinal; a successful PutFinal finishes the file, last in batch exactly when index + 1 is the batch length |
| OppManager.BaseName | dom/b2g/bluetooth/bluedroid/BluetoothOppManager.cpp:804-812 | the base name is no longer than the blob's name, or than "Unknown" when it has none |
| OppManager.BaseNameIsLastSegment | dom/b2g/bluetooth/bluedroid/BluetoothOppManager.cpp:804-812 | the base name contains no '/', is the name itself when it has no '/', and "Unknown" for an unnamed blob |
| OppManager.SentFileName | dom/b2g/bluetooth/bluedroid/BluetoothOppManager.cpp:786-834 | the sent name is the base name, longer by at most '.' and the MIME service's extension |
| OppManager.SentFileNameOfPlainName | dom/b2g/bluetooth/bluedroid/BluetoothOppManager.cpp:814-834 | a '/'-free name with an extension is sent as it is; without one (no '.', or '.' last) it gains '.' and the MIME extension when the service gives one, and stays as it is otherwise |
| OppManager.SentFileNameIsLastSegment | dom/b2g/bluetooth/bluedroid/BluetoothOppManager.cpp:808-834 | the sent name has no '/' unless the extension brings one, and contains a '.' whenever the MIME service gives an extension |
| OppManager.PhotoGetsExtension | dom/b2g/bluetooth/bluedroid/BluetoothOppManager.cpp:814-834 | a blob "photo" of type image/jpeg is sent as "photo.jpg" |
| OppManager.LastCharEnd | dom/b2g/bluetooth/bluedroid/BluetoothOppManager.cpp:808-815 | the position just past the last occurrence of a character among the first i characters (RFindChar + 1) lies in 0..i |
| OppManager.LastCharEndIsLast | dom/b2g/bluetooth/bluedroid/BluetoothOppManager.cpp:808-815 | that position follows an occurrence of the character and none comes after it |
| OppManager.AfterLastSlash | dom/b2g/bluetooth/bluedroid/BluetoothOppManager.cpp:809-812 | the part after the last '/' is no longer than the name |
| OppManager.AfterLastSlashIsLastSegment | dom/b2g/bluetooth/bluedroid/BluetoothOppManager.cpp:809-812 | that part is the longest '/'-free suffix of the name |
| OppManager.PutHeaderOpcode | dom/b2g/bluetooth/bluedroid/BluetoothOppManager.cpp:1212-1219 | a header PUT is PutFinal exactly for an empty file |
| OppManager.OversizeDisconnect | dom/b2g/bluetooth/bluedroid/BluetoothOppManager.cpp:770-776 | a Disconnect is sent exactly for a connected blob over the 4-byte length limit |
| OppManager.DiscardNotices | dom/b2g/bluetooth/bluedroid/BluetoothOppManager.cpp:458-473 | discarding from blob k on broadcasts two messages per remaining blob |
| OppManager.DiscardPair | dom/b2g/bluetooth/bluedroid/BluetoothOppManager.cpp:469-471 | each discarded blob is announced and at once reported finished, under its sent name |
| OppManager.DiscardNoticesAt | dom/b2g/bluetooth/bluedroid/BluetoothOppManager.cpp:465-472 | message 2j and 2j+1 are the start and completion of blob k + j, in queue order |
| OppManager.DiscardSent | dom/b2g/bluetooth/bluedroid/BluetoothOppManager.cpp:465-472 | discarding sends at most one request per remaining blob, and none while disconnected |
| OppManager.DiscardSentOnlyDisconnects | dom/b2g/bluetooth/bluedroid/BluetoothOppManager.cpp:465-472 | every request discarding sends is a Disconnect |
| OppManager.DiscardStep | dom/b2g/bluetooth/bluedroid/BluetoothOppManager.cpp:465-472 | one round of the discard loop moves one blob's messages and requests from the work left to the work done |
| OppManager.ServerStepFor | dom/b2g/bluetooth/bluedroid/BluetoothOppManager.cpp:902-1036 | classifies a request: a bad size is BadRequest; Connect needs 7 bytes and Abort/Disconnect 3 plus parsed headers; a partly received PUT always continues as a PUT fragment; Get, GetFinal and SetPath are BadRequest; unknown opcodes are NotImplemented |
| OppManager.PutOutcomeFor | dom/b2g/bluetooth/bluedroid/BluetoothOppManager.cpp:975-1026 | a complete PUT is aborted, awaits confirmation, fails to create or write, or is stored, in that order of precedence |
| OppManager.NextProgressCounter | dom/b2g/bluetooth/bluedroid/BluetoothOppManager.cpp:1015-1019 | the next progress mark is the first multiple of 50 KiB above the transferred length |
| OppManager.ProgressCounterAdvances | dom/b2g/bluetooth/bluedroid/BluetoothOppManager.cpp:1015-1019 | after a progress message the mark moves forward and no second message is due for the same length |
| OppManager.CopyInto | dom/b2g/bluetooth/bluedroid/BluetoothOppManager.cpp:893-896 | the memcpy at an offset writes the fragment behind the kept prefix and leaves the rest of the buffer alone |
| OppManager.Manager.constructor | dom/b2g/bluetooth/bluedroid/BluetoothOppManager.cpp:174-194 | a new manager is a disconnected server with an empty queue, index -1 and no transfer open |
| OppManager.Manager.SendObexData | dom/b2g/bluetooth/bluedroid/BluetoothOppManager.cpp:1369-1387 | the packet is written, and the sending side remembers its opcode as the last command |
| OppManager.Manager.FileTransferComplete | dom/b2g/bluetooth/bluedroid/BluetoothOppManager.cpp:1389-1408 | the completion message is broadcast once per transfer, and the transfer is then complete |
| OppManager.Manager.StartFileTransfer | dom/b2g/bluetooth/bluedroid/BluetoothOppManager.cpp:1410-1423 | the start message is broadcast and the transfer is open |
| OppManager.Manager.ReceivingFileConfirmation | dom/b2g/bluetooth/bluedroid/BluetoothOppManager.cpp:1437-1449 | the confirmation request is broadcast and the transfer is open |
| OppManager.Manager.UpdateProgress | dom/b2g/bluetooth/bluedroid/BluetoothOppManager.cpp:1425-1435 | a progress message with the transferred length is broadcast |
| OppManager.Manager.MaybeUpdateProgress | dom/b2g/bluetooth/bluedroid/BluetoothOppManager.cpp:1015-1019 | progress is broadcast exactly when the length passed the mark, which then moves |
| OppManager.Manager.SendConnectRequest | dom/b2g/bluetooth/bluedroid/BluetoothOppManager.cpp:1176-1193 | a Connect is sent only when not connected |
| OppManager.Manager.SendPutHeaderRequest | dom/b2g/bluetooth/bluedroid/BluetoothOppManager.cpp:1195-1220 | while connected the header PUT is sent, as PutFinal for an empty file |
| OppManager.Manager.SendPutRequest | dom/b2g/bluetooth/bluedroid/BluetoothOppManager.cpp:1222-1245 | a body chunk is sent and counted only while connected and when it fits the peer's packet |
| OppManager.Manager.SendPutFinalRequest | dom/b2g/bluetooth/bluedroid/BluetoothOppManager.cpp:1247-1267 | while connected the PutFinal is sent and no longer pending |
| OppManager.Manager.SendDisconnectRequest | dom/b2g/bluetooth/bluedroid/BluetoothOppManager.cpp:1269-1280 | a Disconnect is sent only while connected |
| OppManager.Manager.CheckPutFinal | dom/b2g/bluetooth/bluedroid/BluetoothOppManager.cpp:1282-1286 | the PutFinal becomes pending once the sent length with this read reaches the file length |
| OppManager.Manager.ReplyToConnect | dom/b2g/bluetooth/bluedroid/BluetoothOppManager.cpp:1300-1317 | Success is sent only when not already connected |
| OppManager.Manager.ReplyToDisconnectOrAbort | dom/b2g/bluetooth/bluedroid/BluetoothOppManager.cpp:1319-1331 | Success is sent only while connected |
| OppManager.Manager.ReplyToPut | dom/b2g/bluetooth/bluedroid/BluetoothOppManager.cpp:1333-1356 | while connected the reply-table code is sent and the received length restarts at 0 |
| OppManager.Manager.ReplyError | dom/b2g/bluetooth/bluedroid/BluetoothOppManager.cpp:1358-1367 | the error code is sent as a bare response |
| OppManager.Manager.AfterFirstPut | dom/b2g/bluetooth/bluedroid/BluetoothOppManager.cpp:547-555 | the per-file counters and flags return to their initial values |
| OppManager.Manager.AfterOppConnected | dom/b2g/bluetooth/bluedroid/BluetoothOppManager.cpp:557-573 | the session is connected, waits for confirmation, the per-file state is reset, and it is dropped without the mount lock |
| OppManager.Manager.AfterOppDisconnected | dom/b2g/bluetooth/bluedroid/BluetoothOppManager.cpp:575-610 | the session is disconnected, with no last command and nothing received |
| OppManager.Manager.ExtractBlobHeaders | dom/b2g/bluetooth/bluedroid/BluetoothOppManager.cpp:753-834 | takes the blob's sent name and type; a blob over the 4-byte limit keeps the old length and causes a Disconnect |
| OppManager.Manager.ExtractPacketHeaders | dom/b2g/bluetooth/bluedroid/BluetoothOppManager.cpp:733-751 | each header present replaces the corresponding field; absent ones keep it |
| OppManager.Manager.ValidateFileName | dom/b2g/bluetooth/bluedroid/BluetoothOppManager.cpp:844-853 | the loop leaves exactly the sanitised name |
| OppManager.Manager.AppendBlobToSend | dom/b2g/bluetooth/bluedroid/BluetoothOppManager.cpp:438-456 | the queue becomes the enqueued queue, stays well formed, and gains exactly the new blob at the end |
| OppManager.Manager.StartSendingNextFile | dom/b2g/bluetooth/bluedroid/BluetoothOppManager.cpp:402-424 | the index moves up by one; the first blob of a batch sends Connect, later ones their header PUT and reset the per-file state |
| OppManager.Manager.AnnounceNextBlob | dom/b2g/bluetooth/bluedroid/BluetoothOppManager.cpp:408-413 | the next blob's headers are taken and its transfer start broadcast |
| OppManager.Manager.DiscardBlobsToSend | dom/b2g/bluetooth/bluedroid/BluetoothOppManager.cpp:458-473 | every blob after the index is announced and reported finished, in order, and the index reaches the end of the batch |
| OppManager.Manager.DiscardNextBlob | dom/b2g/bluetooth/bluedroid/BluetoothOppManager.cpp:465-472 | one loop round keeps the discard invariant and advances the index |
| OppManager.Manager.ProcessNextBatch | dom/b2g/bluetooth/bluedroid/BluetoothOppManager.cpp:475-495 | the head batch is removed only when its index is at least 0; the index ends at -1; true exactly when a batch remains, whose device is then connected |
| OppManager.Manager.ClearQueue | dom/b2g/bluetooth/bluedroid/BluetoothOppManager.cpp:497-507 | the index is -1 and the head batch loses its blobs; the others are unchanged |
| OppManager.Manager.ConnectInternal | dom/b2g/bluetooth/bluedroid/BluetoothOppManager.cpp:303-320 | the manager becomes the sending side and asks to connect to the device |
| OppManager.Manager.ComposePacket | dom/b2g/bluetooth/bluedroid/BluetoothOppManager.cpp:855-900 | the first fragment sets the declared length; an accepted fragment grows the buffer contents by its data, stays within the declared length and completes exactly at it; an overrunning fragment is answered, closes the transfer and is not copied |
| OppManager.Manager.BeginPacket | dom/b2g/bluetooth/bluedroid/BluetoothOppManager.cpp:862-878 | the first fragment sizes a fresh, empty buffer by the declared length |
| OppManager.Manager.AppendFragment | dom/b2g/bluetooth/bluedroid/BluetoothOppManager.cpp:893-899 | the fragment's data is appended to the received bytes |
| OppManager.Manager.ServerDataHandler | dom/b2g/bluetooth/bluedroid/BluetoothOppManager.cpp:902-1036 | per request class: refusals send their code and change nothing else; Connect opens the session; Abort and Disconnect reply and close; a PUT fragment is reassembled and a complete one answered by its outcome |
| OppManager.Manager.ServeConnect | dom/b2g/bluetooth/bluedroid/BluetoothOppManager.cpp:933-944 | a Connect is answered and the session opened |
| OppManager.Manager.ServeDisconnect | dom/b2g/bluetooth/bluedroid/BluetoothOppManager.cpp:956-967 | a Disconnect is answered, the session closed and the transfer completed |
| OppManager.Manager.ServePut | dom/b2g/bluetooth/bluedroid/BluetoothOppManager.cpp:968-1026 | a PUT after a finished file starts a new one; the fragment is reassembled and a complete packet handled |
| OppManager.Manager.CompletePut | dom/b2g/bluetooth/bluedroid/BluetoothOppManager.cpp:975-1026 | a complete packet's headers are taken over, its name sanitised, and the reply follows the outcome |
| OppManager.Manager.HandleCompletePut | dom/b2g/bluetooth/bluedroid/BluetoothOppManager.cpp:981-1026 | an aborted transfer is refused and completed; an unconfirmed one asks for confirmation; otherwise the body is stored |
| OppManager.Manager.StoreBody | dom/b2g/bluetooth/bluedroid/BluetoothOppManager.cpp:998-1026 | a new file is announced and created; failures are refused; a stored body is acknowledged, counted and finishes the file on PutFinal |
| OppManager.Manager.FinishStore | dom/b2g/bluetooth/bluedroid/BluetoothOppManager.cpp:1012-1026 | the body is acknowledged and counted, progress reported when due, and PutFinal completes the transfer successfully |
| OppManager.Manager.ConfirmReceivingFile | dom/b2g/bluetooth/bluedroid/BluetoothOppManager.cpp:521-545 | true exactly when a connected transfer waits for an answer; the reply says whether the file was stored |
| OppManager.Manager.AnswerConfirmation | dom/b2g/bluetooth/bluedroid/BluetoothOppManager.cpp:527-545 | accepting announces and creates the file; the PUT reply reports success exactly when it was stored |
| OppManager.Manager.ClientDataHandler | dom/b2g/bluetooth/bluedroid/BluetoothOppManager.cpp:1038-1164 | per response class: failures close the transfer; a successful PutFinal disconnects after the last blob, else starts the next; Connect sends the first header PUT when the name fits; a Put reply sends PutFinal when due, else reads on |
| OppManager.Manager.CloseTransfer | dom/b2g/bluetooth/bluedroid/BluetoothOppManager.cpp:1063-1076 | the transfer is completed, after a Disconnect when asked |
| OppManager.Manager.FinishSentFile | dom/b2g/bluetooth/bluedroid/BluetoothOppManager.cpp:1078-1091 | a sent file completes successfully; a Disconnect follows exactly when it was the last blob of the batch, otherwise the next file starts |
| OppManager.Manager.ClientConnected | dom/b2g/bluetooth/bluedroid/BluetoothOppManager.cpp:1104-1131 | the peer's parameters are kept and the header PUT sent when the name fits its packet, else a Disconnect |
| OppManager.Manager.ContinuePut | dom/b2g/bluetooth/bluedroid/BluetoothOppManager.cpp:1132-1160 | PutFinal is sent once pending; otherwise progress is reported when due and a failed read disconnects |
| PbapHeader.AppParameterTagCodes | dom/b2g/bluetooth/bluedroid/BluetoothPbapManager.h:28-46 | the sixteen tags are the distinct bytes 0x01..0x10 in declaration order |
| PbapHeader.BitStep | dom/b2g/bluetooth/bluedroid/BluetoothPbapManager.h:152-154 | bit m + 1 of x is bit m of x / 2 |
| PbapHeader.BitIndicesMembers | dom/b2g/bluetooth/bluedroid/BluetoothPbapManager.cpp:943-965 | a position is listed exactly when that bit is set |
| PbapHeader.BitIndicesIncreasing | dom/b2g/bluetooth/bluedroid/BluetoothPbapManager.cpp:943-965 | the positions are listed in strictly increasing order |
| PbapHeader.BitIndicesBelow | dom/b2g/bluetooth/bluedroid/BluetoothPbapManager.cpp:943-965 | a value below 2^n lists only positions below n |
| PbapHeader.CheckFeatureSupport | dom/b2g/bluetooth/bluedroid/BluetoothPbapManager.h:152-154 | true exactly when the feature bit of the 32-bit mask is set |
| PbapManager.NameOf | dom/b2g/bluetooth/bluedroid/BluetoothPbapManager.cpp:526-527 | the Name header, empty when absent |
| PbapManager.ContentTypeOf | dom/b2g/bluetooth/bluedroid/BluetoothPbapManager.cpp:584-593 | the Type header, empty when absent |
| PbapManager.FindAppParameter | dom/b2g/bluetooth/bluedroid/BluetoothPbapManager.cpp:695-697 | None exactly when no triplet has the tag; otherwise the value of a triplet with it |
| PbapManager.GetAppParameter | dom/b2g/bluetooth/bluedroid/BluetoothPbapManager.cpp:695-697 | a present value overwrites the start of the caller's buffer, the rest keeps its bytes |
| PbapManager.CompareHeaderTarget | dom/b2g/bluetooth/bluedroid/BluetoothPbapManager.cpp:476-498 | true exactly when the Target header is the 16-byte PBAP target |
| PbapManager.IsLegalPath | dom/b2g/bluetooth/bluedroid/BluetoothPbapManager.cpp:758-782 | true exactly for the 14 legal folders |
| PbapManager.IsLegalPhonebookName | dom/b2g/bluetooth/bluedroid/BluetoothPbapManager.cpp:784-799 | true exactly for the 10 legal phone-book objects |
| PbapManager.LastIndexOf | dom/b2g/bluetooth/bluedroid/BluetoothPbapManager.cpp:547-552 | the index of the last occurrence, or -1 exactly when there is none |
| PbapManager.ParentPath | dom/b2g/bluetooth/bluedroid/BluetoothPbapManager.cpp:539-549 | going up from a path without '/' reaches the root; otherwise the result is the part before the last '/' |
| PbapManager.ChildPathShape | dom/b2g/bluetooth/bluedroid/BluetoothPbapManager.cpp:558-564 | going down from the root gives the name; otherwise the path, a '/' and the name |
| PbapManager.SetPathTarget | dom/b2g/bluetooth/bluedroid/BluetoothPbapManager.cpp:531-565 | with bit 0 set the new path is a prefix of the old one, strictly shorter unless at the root; with an empty name it is the root; otherwise it ends with the name, behind the old path and a '/' |
| PbapManager.ParentOfChild | dom/b2g/bluetooth/bluedroid/BluetoothPbapManager.cpp:544-565 | going down into a folder and then up returns to the start |
| PbapManager.LegalPathsAreChildren | dom/b2g/bluetooth/bluedroid/BluetoothPbapManager.cpp:758-782 | every legal folder other than the root is a child of an earlier legal folder |
| PbapManager.ParentOfLegalIsLegal | dom/b2g/bluetooth/bluedroid/BluetoothPbapManager.cpp:544-553 | going up from a legal folder always reaches a legal folder |
| PbapManager.ContainsAppend | dom/b2g/bluetooth/bluedroid/BluetoothPbapManager.cpp:613-615 | a substring of a name stays one after appending |
| PbapManager.CString | dom/b2g/bluetooth/bluedroid/BluetoothPbapManager.cpp:711-714 | the bytes before the first NUL, a prefix of the buffer without NUL |
| PbapManager.PackPropertiesMask | dom/b2g/bluetooth/bluedroid/BluetoothPbapManager.cpp:943-965 | the loop lists the set bits of the big-endian value at bytes 4..7, lowest first |
| PbapManager.PropertiesMaskIsSetBits | dom/b2g/bluetooth/bluedroid/BluetoothPbapManager.cpp:943-965 | the listed indices are exactly the set bits, strictly increasing and below 32 |
| PbapManager.Pow2Is32 | dom/b2g/bluetooth/bluedroid/BluetoothPbapManager.cpp:948-950 | the mask has 32 bit positions |
| PbapManager.MaxListCountDecidesSize | dom/b2g/bluetooth/bluedroid/BluetoothPbapManager.cpp:722-731 | a MaxListCount of 0 requires the phone-book size; any other value clears the requirement |
| PbapManager.EnumeratedValuesInRange | dom/b2g/bluetooth/bluedroid/BluetoothPbapManager.cpp:699-710 | order and search-key values outside their enumerations fall back to 0 |
| PbapManager.VCardSelectorMaskIsSelectors | dom/b2g/bluetooth/bluedroid/BluetoothPbapManager.cpp:741-754 | with an operator of at most four bytes the vCardSelector mask is the selector's own |
| PbapManager.ClassifyPull | dom/b2g/bluetooth/bluedroid/BluetoothPbapManager.cpp:580-670 | phonebook names outside the legal list are NotFound; vcard names without ".vcf" NotAcceptable; other types BadRequest; listings are relative to the current folder; NewMissedCalls exactly for names with "mch" |
| PbapManager.ListingInMissedCallsFolder | dom/b2g/bluetooth/bluedroid/BluetoothPbapManager.cpp:604-617 | a listing inside the missed-calls folder asks for NewMissedCalls whatever its name |
| PbapManager.SrmAfterGet | dom/b2g/bluetooth/bluedroid/BluetoothPbapManager.cpp:413-438 | SRM=1 enables SRM and the pending header, active unless SRMP=1; an enabled SRM without SRMP is active; active and pending imply enabled |
| PbapManager.NonceFromLength | dom/b2g/bluetooth/bluedroid/BluetoothPbapManager.cpp:1368-1391 | the nonce kept is always 16 bytes |
| PbapManager.NonceAfterOptions | dom/b2g/bluetooth/bluedroid/BluetoothPbapManager.cpp:1368-1391 | an options triplet followed by a nonce triplet yields that nonce |
| PbapManager.Utf8Char | dom/b2g/bluetooth/bluedroid/BluetoothPbapManager.cpp:865-866 | a character encodes to 1..4 bytes, one exactly for ASCII |
| PbapManager.Utf16NotLongerThanUtf8 | dom/b2g/bluetooth/bluedroid/BluetoothPbapManager.cpp:860-866 | a password has no more UTF-16 units than UTF-8 bytes, equally many exactly when it is ASCII |
| PbapManager.DigestInputAsWritten | dom/b2g/bluetooth/bluedroid/BluetoothPbapManager.cpp:860-867 | the hashed input holds the nonce, a colon and only as many UTF-8 bytes as the password has UTF-16 units |
| PbapManager.DigestInput | dom/b2g/bluetooth/bluedroid/BluetoothPbapManager.cpp:857-867 | the hashed input is the nonce, a colon and the whole UTF-8 password |
| PbapManager.DigestInputsAgreeOnAscii | dom/b2g/bluetooth/bluedroid/BluetoothPbapManager.cpp:860-867 | the two inputs coincide exactly for ASCII passwords |
| PbapManager.AsWrittenDigestConfusesPasswords | dom/b2g/bluetooth/bluedroid/BluetoothPbapManager.cpp:860-867 | "é" and "è" give the same as-written input |
| PbapManager.DigestInputSeparatesPasswords | dom/b2g/bluetooth/bluedroid/BluetoothPbapManager.cpp:857-867 | passwords with different UTF-8 bytes give different corrected inputs |
| PbapManager.FeatureParams | dom/b2g/bluetooth/bluedroid/BluetoothPbapManager.cpp:1217-1241 | the version counters appear exactly with the folder-version feature and the database identifier exactly with its feature, all zero |
| PbapManager.Uint16Bytes | dom/b2g/bluetooth/bluedroid/BluetoothPbapManager.cpp:1249-1250 | the two bytes read back big-endian to the value |
| PbapManager.BuildGetReply | dom/b2g/bluetooth/bluedroid/BluetoothPbapManager.cpp:1199-1337 | the reply carries the SRM header exactly when owed; with the size required it is Success with the size and no body; an exhausted stream gives End-of-Body and Success; otherwise Continue with the next chunk, the rest kept; it never exceeds the remote maximum |
| PbapManager.StepFor | dom/b2g/bluetooth/bluedroid/BluetoothPbapManager.cpp:279-473 | a size below 1 or above 0xFFFE is malformed; otherwise the opcode selects the handler, Get counting as GetFinal |
| PbapManager.ConnectMaxPacketLength | dom/b2g/bluetooth/bluedroid/BluetoothPbapManager.cpp:315 | the remote maximum is bytes 5..6 big-endian |
| PbapManager.FeaturesOf | dom/b2g/bluetooth/bluedroid/BluetoothPbapManager.cpp:334-340 | the features are 0 without the parameter, else its first four bytes big-endian |
| PbapManager.Manager.constructor | dom/b2g/bluetooth/bluedroid/BluetoothPbapManager.cpp:104-110 | a new server is disconnected at the root, SRM off, with no sockets and no stream |
| PbapManager.Manager.SendObexData | dom/b2g/bluetooth/bluedroid/BluetoothPbapManager.cpp:1402-1413 | the packet is sent exactly when there is a session socket |
| PbapManager.Manager.SendObexDataOwned | dom/b2g/bluetooth/bluedroid/BluetoothPbapManager.cpp:1415-1421 | the packet is written to the session socket |
| PbapManager.Manager.ReplyError | dom/b2g/bluetooth/bluedroid/BluetoothPbapManager.cpp:1393-1400 | a bare response with the code is sent when there is a socket |
| PbapManager.Manager.ReplyToDisconnectOrAbort | dom/b2g/bluetooth/bluedroid/BluetoothPbapManager.cpp:916-928 | Success is sent only while connected |
| PbapManager.Manager.ReplyToSetPath | dom/b2g/bluetooth/bluedroid/BluetoothPbapManager.cpp:930-941 | Success is sent only while connected |
| PbapManager.Manager.AfterPbapConnected | dom/b2g/bluetooth/bluedroid/BluetoothPbapManager.cpp:801-804 | the session is connected at the root folder |
| PbapManager.Manager.AfterPbapDisconnected | dom/b2g/bluetooth/bluedroid/BluetoothPbapManager.cpp:806-817 | the session ends: remote maximum 0, request flags cleared, stream closed |
| PbapManager.Manager.NotifyConnectionRequest | dom/b2g/bluetooth/bluedroid/BluetoothPbapManager.cpp:500-519 | the connection request is signalled with the device address, or PreconditionFailed without the service |
| PbapManager.Manager.NotifyPasswordRequest | dom/b2g/bluetooth/bluedroid/BluetoothPbapManager.cpp:672-688 | the password request is signalled, or PreconditionFailed without the service |
| PbapManager.Manager.ReplyToConnect | dom/b2g/bluetooth/bluedroid/BluetoothPbapManager.cpp:830-885 | already connected sends nothing; otherwise the Connect response goes out, with the digest of nonce, colon and every UTF-8 byte of the password when a password is given: the corrected DigestInput, where the source copies only as many bytes as the password has UTF-16 units (see Findings) |
| PbapManager.Manager.ReplyToAuthChallenge | dom/b2g/bluetooth/bluedroid/BluetoothPbapManager.cpp:967-978 | an empty password replies Unauthorized and leaves the session as it was; a non-empty one answers the Connect and connects |
| PbapManager.Manager.ReplyToConnectionRequest | dom/b2g/bluetooth/bluedroid/BluetoothPbapManager.cpp:980-1004 | a refusal replies Forbidden; with a challenge a password is requested; otherwise the Connect is answered and the session opened when sent |
| PbapManager.Manager.GetRemoteNonce | dom/b2g/bluetooth/bluedroid/BluetoothPbapManager.cpp:1368-1391 | the loop keeps the nonce of the last nonce triplet of the challenge |
| PbapManager.Manager.SetPhoneBookPath | dom/b2g/bluetooth/bluedroid/BluetoothPbapManager.cpp:521-578 | BadRequest unless flags >> 1 is 1; bit 0 goes up, an empty name to the root, a name down; Success exactly when that folder is legal, and only then does the path change |
| PbapManager.Manager.AppendNamedValueByTagId | dom/b2g/bluetooth/bluedroid/BluetoothPbapManager.cpp:690-756 | appends the named value of one tag and updates the size requirement from MaxListCount |
| PbapManager.Manager.AppendTagValues | dom/b2g/bluetooth/bluedroid/BluetoothPbapManager.cpp:640-643 | the loop appends the named values of the request type's tags, in order |
| PbapManager.Manager.NotifyPbapRequest | dom/b2g/bluetooth/bluedroid/BluetoothPbapManager.cpp:580-670 | a refused request returns its code and signals nothing; a valid one is signalled with its name and values, or PreconditionFailed without the service |
| PbapManager.Manager.GetInputStreamFromBlob | dom/b2g/bluetooth/bluedroid/BluetoothPbapManager.cpp:1349-1366 | the stream is the blob's, and opening succeeds exactly when there is one |
| PbapManager.Manager.ReplyToGet | dom/b2g/bluetooth/bluedroid/BluetoothPbapManager.cpp:1168-1347 | outside a session nothing changes; otherwise one GET reply is sent, the SRM header latch drops and the size requirement clears; an SRM task is posted exactly for an active Continue |
| PbapManager.Manager.SendGetReply | dom/b2g/bluetooth/bluedroid/BluetoothPbapManager.cpp:1209-1344 | the flags reset, the stream advances, the reply is sent and an SRM task posted for an active Continue |
| PbapManager.Manager.FillObexBody | dom/b2g/bluetooth/bluedroid/BluetoothPbapManager.cpp:1058-1117 | no stream or no room is InternalServerError; an exhausted stream End-of-Body and Success; otherwise Continue with the next non-empty chunk that fits |
| PbapManager.Manager.RunSrmTask | dom/b2g/bluetooth/bluedroid/BluetoothPbapManager.cpp:1125-1165 | while SRM is active a stream part is sent unasked and the task re-posted exactly after a Continue |
| PbapManager.Manager.ReplyToPull | dom/b2g/bluetooth/bluedroid/BluetoothPbapManager.cpp:1006-1043 | outside a session nothing is sent; an unreadable object is InternalServerError; otherwise the GET reply for the object, or for its size alone |
| PbapManager.Manager.ReplyToPullvCardEntry | dom/b2g/bluetooth/bluedroid/BluetoothPbapManager.cpp:1045-1056 | as ReplyToPull, always from the object's stream |
| PbapManager.Manager.OnSocketConnectSuccess | dom/b2g/bluetooth/bluedroid/BluetoothPbapManager.cpp:1423-1447 | the accepting server socket becomes the session socket and its slot takes the old session socket |
| PbapManager.Manager.OnSocketConnectError | dom/b2g/bluetooth/bluedroid/BluetoothPbapManager.cpp:1449-1458 | all sockets are dropped |
| PbapManager.Manager.OnSocketDisconnect | dom/b2g/bluetooth/bluedroid/BluetoothPbapManager.cpp:1460-1474 | closing the session socket ends the session and clears the address; other sockets change nothing |
| PbapManager.Manager.ReceiveSocketData | dom/b2g/bluetooth/bluedroid/BluetoothPbapManager.cpp:270-474 | bad sizes and PUTs get BadRequest and unknown opcodes NotImplemented, changing nothing else; Connect, Disconnect and Abort turn SRM off; a bad Connect is BadRequest; a parsed GET sets the SRM flags from its headers |
| PbapManager.Manager.HandleConnect | dom/b2g/bluetooth/bluedroid/BluetoothPbapManager.cpp:290-353 | a short, unparsed or mistargeted Connect is BadRequest; a remote maximum below 255 is BadRequest and resets it to 0; otherwise the nonce and features are kept and acceptance requested |
| PbapManager.Manager.AcceptConnect | dom/b2g/bluetooth/bluedroid/BluetoothPbapManager.cpp:325-352 | a challenge keeps its nonce and asks for a password; the features are read and acceptance requested |
| PbapManager.Manager.HandleDisconnectOrAbort | dom/b2g/bluetooth/bluedroid/BluetoothPbapManager.cpp:354-373 | SRM is off; an unparsed request is BadRequest; otherwise it is answered and the session ends |
| PbapManager.Manager.HandleSetPath | dom/b2g/bluetooth/bluedroid/BluetoothPbapManager.cpp:374-391 | an unparsed request is BadRequest; the flags and name decide the folder, entered only when legal |
| PbapManager.Manager.HandleGet | dom/b2g/bluetooth/bluedroid/BluetoothPbapManager.cpp:392-462 | the SRM flags follow the request; an open stream is answered at once; otherwise the request is classified and signalled or refused |
| PbapManager.Manager.ContinueGet | dom/b2g/bluetooth/bluedroid/BluetoothPbapManager.cpp:446-452 | a GET during an open stream sends its next reply, or InternalServerError outside a session |
| BluetoothCommon.ReadUint16LE | dom/b2g/bluetooth/common/BluetoothCommon.h:539 | the little-endian 16-bit value of two bytes: below 2^16, low byte first |
| BluetoothCommon.WriteUint16LE | dom/b2g/bluetooth/common/BluetoothCommon.h:541 | writing a 16-bit value low byte first gives two bytes that read back as the value |
| BluetoothCommon.WriteUint16BE | dom/b2g/bluetooth/common/BluetoothCommon.h:660-665 | writing a 16-bit value high byte first gives two bytes that read back big-endian as the value |
| BluetoothCommon.WriteUint32BE | dom/b2g/bluetooth/common/BluetoothCommon.h:653-658 | writing a 32-bit value most significant byte first gives four bytes that read back as the value |
| BluetoothCommon.LapOf | dom/b2g/bluetooth/common/BluetoothCommon.h:521-525 | bytes 0, 1, 2 shifted by 0, 8, 16 give a value below 2^24 whose base-256 digits, least significant first, are those bytes |
| BluetoothCommon.LapBytes | dom/b2g/bluetooth/common/BluetoothCommon.h:527-533 | the three truncated shifts of a LAP without top byte read back as that LAP |
| BluetoothCommon.Memcmp | dom/b2g/bluetooth/common/BluetoothCommon.h:492-493 | the comparison of two equally long byte strings is -1, 0 or 1, and 0 exactly when they are equal |
| BluetoothCommon.MemcmpAntisymmetric | dom/b2g/bluetooth/common/BluetoothCommon.h:640-642 | swapping the operands negates the comparison |
| BluetoothCommon.MemcmpIsLexicographic | dom/b2g/bluetooth/common/BluetoothCommon.h:640-642 | the comparison is negative exactly when the strings agree up to some k and the first is smaller at k |
| BluetoothCommon.MemcmpTransitive | dom/b2g/bluetooth/common/BluetoothCommon.h:640-642 | a negative comparison is transitive |
| BluetoothCommon.Fill | dom/b2g/bluetooth/common/BluetoothCommon.h:490 | the defaulted assignment copies every byte of the other value |
| BluetoothCommon.PrefixEqualProperties | dom/b2g/bluetooth/common/BluetoothCommon.h:679-683 | the length-then-std::equal test holds exactly when the lengths and the first length bytes agree; it is reflexive, symmetric and transitive |
| BluetoothCommon.Address.constructor | dom/b2g/bluetooth/common/BluetoothCommon.h:474-476 | a new address is ANY() |
| BluetoothCommon.Address.FromBytes | dom/b2g/bluetooth/common/BluetoothCommon.h:480-488 | the six bytes are stored in order |
| BluetoothCommon.Address.Equals | dom/b2g/bluetooth/common/BluetoothCommon.h:492-494 | addresses are equal exactly when all six bytes agree |
| BluetoothCommon.Address.Clear | dom/b2g/bluetooth/common/BluetoothCommon.h:501-503 | the address becomes ANY() and counts as cleared |
| BluetoothCommon.Address.IsCleared | dom/b2g/bluetooth/common/BluetoothCommon.h:505-509 | true exactly when the address is ANY() |
| BluetoothCommon.Address.GetLAP | dom/b2g/bluetooth/common/BluetoothCommon.h:521-525 | the LAP is below 2^24, with byte 0 lowest and byte 2 highest |
| BluetoothCommon.Address.SetLAP | dom/b2g/bluetooth/common/BluetoothCommon.h:527-533 | a LAP without top byte reads back unchanged; bytes 3..5 keep their values |
| BluetoothCommon.Address.GetUAP | dom/b2g/bluetooth/common/BluetoothCommon.h:535 | the UAP is byte 3 |
| BluetoothCommon.Address.SetUAP | dom/b2g/bluetooth/common/BluetoothCommon.h:537 | the UAP reads back; every other byte keeps its value |
| BluetoothCommon.Address.GetNAP | dom/b2g/bluetooth/common/BluetoothCommon.h:539 | the NAP is bytes 4..5 little-endian, below 2^16 |
| BluetoothCommon.Address.SetNAP | dom/b2g/bluetooth/common/BluetoothCommon.h:541 | the NAP reads back; bytes 0..3 keep their values |
| BluetoothCommon.AddressPartsRoundTrip | dom/b2g/bluetooth/common/BluetoothCommon.h:515-541 | an address built from a LAP, a UAP and a NAP yields the three parts again |
| BluetoothCommon.ServiceClassCode | dom/b2g/bluetooth/common/BluetoothCommon.h:559-576 | each service class has a 16-bit identifier, 0 exactly for UNKNOWN |
| BluetoothCommon.ServiceClassCodeInjective | dom/b2g/bluetooth/common/BluetoothCommon.h:559-576 | no two service classes share an identifier |
| BluetoothCommon.Uuid.constructor | dom/b2g/bluetooth/common/BluetoothCommon.h:584 | a new UUID is ZERO() |
| BluetoothCommon.Uuid.FromBytes | dom/b2g/bluetooth/common/BluetoothCommon.h:588-609 | the sixteen bytes are stored in order |
| BluetoothCommon.Uuid.FromUuid32 | dom/b2g/bluetooth/common/BluetoothCommon.h:611 | the 32-bit form reads back; bytes 4..15 are those of BASE() |
| BluetoothCommon.Uuid.FromUuid16 | dom/b2g/bluetooth/common/BluetoothCommon.h:613 | the 16-bit form reads back; the other bytes are those of BASE() |
| BluetoothCommon.Uuid.FromServiceClass | dom/b2g/bluetooth/common/BluetoothCommon.h:615-617 | the 16-bit form is the service class identifier over BASE() |
| BluetoothCommon.Uuid.Clear | dom/b2g/bluetooth/common/BluetoothCommon.h:624 | the UUID becomes ZERO() and counts as cleared |
| BluetoothCommon.Uuid.IsCleared | dom/b2g/bluetooth/common/BluetoothCommon.h:627-630 | true exactly when the UUID is ZERO() |
| BluetoothCommon.Uuid.Equals | dom/b2g/bluetooth/common/BluetoothCommon.h:632-635 | UUIDs are equal exactly when all sixteen bytes agree |
| BluetoothCommon.Uuid.Less | dom/b2g/bluetooth/common/BluetoothCommon.h:640-642 | less exactly when the byte strings agree up to some k and this one is smaller at k; a smaller UUID is not equal |
| BluetoothCommon.Uuid.SetUuid32 | dom/b2g/bluetooth/common/BluetoothCommon.h:653-656 | the value reads back through GetUuid32; bytes 4..15 are those of BASE() |
| BluetoothCommon.Uuid.GetUuid32 | dom/b2g/bluetooth/common/BluetoothCommon.h:658 | the 32-bit form is below 2^32 and reads bytes 0..3 big-endian |
| BluetoothCommon.Uuid.SetUuid16 | dom/b2g/bluetooth/common/BluetoothCommon.h:660-663 | the value reads back through GetUuid16; bytes 0..1 and 4..15 are those of BASE() |
| BluetoothCommon.Uuid.GetUuid16 | dom/b2g/bluetooth/common/BluetoothCommon.h:665 | the 16-bit form is below 2^16 and reads bytes 2..3 big-endian |
| BluetoothCommon.UuidOrder | dom/b2g/bluetooth/common/BluetoothCommon.h:632-642 | operator< is irreflexive, asymmetric and transitive, and exactly one of less, equal and greater holds |
| BluetoothCommon.PinCode.constructor | dom/b2g/bluetooth/common/BluetoothCommon.h:675-677 | a new pin code is empty over sixteen zero bytes |
| BluetoothCommon.PinCode.Equals | dom/b2g/bluetooth/common/BluetoothCommon.h:679-683 | equal exactly when the lengths and the first length bytes agree |
| BluetoothCommon.RemoteName.constructor | dom/b2g/bluetooth/common/BluetoothCommon.h:710 | a new name is empty |
| BluetoothCommon.RemoteName.FromString | dom/b2g/bluetooth/common/BluetoothCommon.h:712-716 | the name holds exactly the string's bytes |
| BluetoothCommon.RemoteName.Equals | dom/b2g/bluetooth/common/BluetoothCommon.h:722-726 | equal exactly when the lengths and the first length bytes agree |
| BluetoothCommon.RemoteName.Assign | dom/b2g/bluetooth/common/BluetoothCommon.h:732-736 | the given bytes are copied to the front and become the name; later bytes keep their values |
| BluetoothCommon.RemoteName.Clear | dom/b2g/bluetooth/common/BluetoothCommon.h:738 | the length becomes 0 and the bytes stay |
| BluetoothCommon.ClearedNamesAreEqual | dom/b2g/bluetooth/common/BluetoothCommon.h:722-740 | two cleared names are equal whatever bytes lie behind them |
| BluetoothChildActor.Step | dom/b2g/bluetooth/ipc/BluetoothChild.cpp:42-98 | each handler's new state, messages and result: BeginShutdown acts only while running; RecvBeginShutdown fails exactly when dead; RecvNotificationsStopped deletes exactly after StopNotifying and fails otherwise; ActorDestroy records Dead only in a debug build |
| BluetoothChildActor.BeginShutdownSendsOnce | dom/b2g/bluetooth/ipc/BluetoothChild.cpp:42-48 | BeginShutdown sends at most one StopNotifying, and a second call sends nothing |
| BluetoothChildActor.DeleteOnlyAfterStopNotifying | dom/b2g/bluetooth/ipc/BluetoothChild.cpp:42-98 | whatever handlers run in whatever order, every Send__delete__ follows a StopNotifying |
| BluetoothChildActor.BluetoothChild.constructor | dom/b2g/bluetooth/ipc/BluetoothChild.cpp:25-32 | a new actor is running and has sent nothing |
| BluetoothChildActor.BluetoothChild.BeginShutdown | dom/b2g/bluetooth/ipc/BluetoothChild.cpp:42-48 | a running actor sends StopNotifying and moves to SentStopNotifying; in any other state nothing changes |
| BluetoothChildActor.BluetoothChild.RecvBeginShutdown | dom/b2g/bluetooth/ipc/BluetoothChild.cpp:78-88 | fails, changing nothing, exactly in the Dead state; otherwise sends StopNotifying and moves to SentStopNotifying |
| BluetoothChildActor.BluetoothChild.RecvNotificationsStopped | dom/b2g/bluetooth/ipc/BluetoothChild.cpp:90-98 | sends Send__delete__ exactly in the SentStopNotifying state and fails otherwise |
| BluetoothChildActor.BluetoothChild.ActorDestroy | dom/b2g/bluetooth/ipc/BluetoothChild.cpp:50-58 | the service notes the dead actor; the state becomes Dead in a debug build and is otherwise kept |
| BluetoothChildActor.BluetoothChild.MayBeDestroyed | dom/b2g/bluetooth/ipc/BluetoothChild.cpp:34-40 | a release build may always destroy the actor; a debug build only in the Dead state |
| BluetoothChildActor.DestroyAfterActorDestroy | dom/b2g/bluetooth/ipc/BluetoothChild.cpp:34-58 | after ActorDestroy a debug-built actor meets the destructor's assertion, from any state |
| CellBroadcastChildActor.FirstIndex | dom/b2g/cellbroadcast/ipc/CellBroadcastChild.cpp:51 | the position of the first occurrence of a listener |
| CellBroadcastChildActor.RemoveFirst | dom/b2g/cellbroadcast/ipc/CellBroadcastChild.cpp:51 | nsTArray::RemoveElement: the first occurrence goes, the rest keep their order; a missing listener leaves the list as it is |
| CellBroadcastChildActor.RemoveFirstOfDistinct | dom/b2g/cellbroadcast/ipc/CellBroadcastChild.cpp:44-54 | in a list without duplicates, removal takes out exactly that listener and keeps the list without duplicates |
| CellBroadcastChildActor.RemovedAt | dom/b2g/cellbroadcast/ipc/CellBroadcastChild.cpp:51 | dropping one position of a list without duplicates keeps it without duplicates and removes only that element |
| CellBroadcastChildActor.CellBroadcastChild.constructor | dom/b2g/cellbroadcast/ipc/CellBroadcastChild.cpp:16-18 | a new child has no listener and is not destroyed |
| CellBroadcastChildActor.CellBroadcastChild.RegisterListener | dom/b2g/cellbroadcast/ipc/CellBroadcastChild.cpp:32-42 | a new listener is appended, unless the actor is destroyed, which returns NS_ERROR_UNEXPECTED and changes nothing |
| CellBroadcastChildActor.CellBroadcastChild.UnregisterListener | dom/b2g/cellbroadcast/ipc/CellBroadcastChild.cpp:44-54 | a registered listener is removed, unless the actor is destroyed, which returns NS_ERROR_UNEXPECTED and changes nothing |
| CellBroadcastChildActor.CellBroadcastChild.RecvNotifyReceivedMessage | dom/b2g/cellbroadcast/ipc/CellBroadcastChild.cpp:72-93 | the listeners notified are exactly those registered when the message arrived, in order, even when callbacks unregister listeners |
| CellBroadcastChildActor.CellBroadcastChild.ActorDestroy | dom/b2g/cellbroadcast/ipc/CellBroadcastChild.cpp:95-97 | the actor is marked destroyed |
| CellBroadcastChildActor.CellBroadcastChild.Destroy | dom/b2g/cellbroadcast/ipc/CellBroadcastChild.cpp:20-26 | Send__delete__ is sent unless the actor is already destroyed, and the listener list is cleared |
| CellBroadcastChildActor.SetCBSearchList | dom/b2g/cellbroadcast/ipc/CellBroadcastChild.cpp:56-61 | always NS_ERROR_NOT_IMPLEMENTED |
| CellBroadcastChildActor.SetCBDisabled | dom/b2g/cellbroadcast/ipc/CellBroadcastChild.cpp:63-66 | always NS_ERROR_NOT_IMPLEMENTED |
| CellBroadcastChildActor.RegisterThenUnregister | dom/b2g/cellbroadcast/ipc/CellBroadcastChild.cpp:32-54 | registering a new listener and unregistering it leaves the list as before |
| AudioManager.DefaultVolumesWithinMaximum | dom/system/gonk/AudioManager.cpp:87-111 | both tables have one entry per stream and every default volume lies between 0 and its stream's maximum |
| AudioManager.AliasTableProperties | dom/system/gonk/AudioManager.cpp:113-124 | every alias is a stream, an alias is its own alias, and a stream and its alias have the same maximum |
| AudioManager.AliasedBy | dom/system/gonk/AudioManager.cpp:1634-1636 | the streams a volume is passed on to are other streams whose alias is the given one |
| AudioManager.AliasedStreamsAliasNothing | dom/system/gonk/AudioManager.cpp:1619-1643 | a stream reached through the alias table passes the volume on to no further stream, so the recursion stops after one level |
| AudioManager.ValidateVolumeIndex | dom/system/gonk/AudioManager.cpp:1234-1245 | InvalidArg exactly for streams outside DEFAULT..CNT, Ok exactly for an index up to the stream's maximum, Failure only above it |
| AudioManager.DefaultVolumesValidate | dom/system/gonk/AudioManager.cpp:832 | every stream accepts its default volume |
| AudioManager.ChooseAmongDevices | dom/system/gonk/AudioManager.cpp:1507-1519 | among several devices the speaker wins, then HDMI ARC |
| AudioManager.SelectDeviceFromDevices | dom/system/gonk/AudioManager.cpp:1494-1530 | never no device; forced speaker or no device gives the speaker; a single device is kept; several are narrowed by the priority list, falling back to the speaker |
| AudioManager.DeviceForStreamIsSpeaker | dom/system/gonk/AudioManager.cpp:1470-1486 | since the device query returns no device, every stream's device is the speaker |
| AudioManager.CachedIndex | dom/system/gonk/AudioManager.cpp:1584-1591 | a device with its own entry reads it; whatever is read is a stored index or 0 |
| AudioManager.IsSharedVolumeStream | dom/system/gonk/AudioManager.cpp:1533-1547 | only stream types are shared, and each shared stream takes its volume from the notification, alarm or enforced-audible stream |
| AudioManager.CachedIndexFallsBack | dom/system/gonk/AudioManager.cpp:1584-1591 | a device with no entry of its own reads the default device's index |
| AudioManager.StoreThenRead | dom/system/gonk/AudioManager.cpp:1673-1681 | a stored index reads back, the device is marked changed and other devices keep their entries |
| AudioManager.ConsistentDevices | dom/system/gonk/AudioManager.cpp:1646-1671 | a shared-volume stream writes only the default device; a device-specific one writes the device, and speaker and earpiece together |
| AudioManager.StoreAllEffect | dom/system/gonk/AudioManager.cpp:1646-1671 | storing to a list of devices gives each the index and leaves every other entry as it was |
| AudioManager.StoreConsistentEffect | dom/system/gonk/AudioManager.cpp:1646-1671 | a shared-volume stream stores under the default device; a device-specific stream stores the device, and speaker and earpiece end with the same index |
| AudioManager.LeafAliasResultIsUnchanged | dom/system/gonk/AudioManager.cpp:1632-1642 | passing the volume to a stream that is itself aliased changes no other stream |
| AudioManager.VolumeStreamState.constructor | dom/system/gonk/AudioManager.cpp:1533-1547 | system, ring, notification, alarm and enforced-audible streams share one volume; every other stream is device-specific; the cache starts empty |
| AudioManager.VolumeStreamState.GetMaxIndex | dom/system/gonk/AudioManager.cpp:1575-1577 | the maximum of a stream is between 1 and 15 |
| AudioManager.VolumeStreamState.SetVolumeIndex | dom/system/gonk/AudioManager.cpp:1673-1693 | with the cache flag the index is stored and the device marked changed; without it the cache is unchanged |
| AudioManager.VolumeStreamState.SetVolumeIndexToConsistentDeviceIfNeeded | dom/system/gonk/AudioManager.cpp:1646-1671 | the cache becomes the consistent store of the index |
| AudioManager.Manager.constructor | dom/system/gonk/AudioManager.cpp:782-840 | one fresh stream state per stream type; after Init every stream holds exactly its default volume under the default device, and the connected devices are those the headphone and then the line-out switch state connect |
| AudioManager.Manager.InitDefaultVolumes | dom/system/gonk/AudioManager.cpp:830-834 | setting each stream's default under the default device, in stream order, leaves every stream with exactly its own default there, although shared streams receive each other's writes |
| AudioManager.Manager.InitStreamVolume | dom/system/gonk/AudioManager.cpp:830-834 | one round of that loop keeps every cache empty or holding its own default, sets the streams so far, and keeps a stream and its alias both set or both empty |
| AudioManager.Manager.UpdateHeadsetConnectionState | dom/system/gonk/AudioManager.cpp:472-498 | the connected devices become those the switch state gives |
| AudioManager.HeadsetConnections | dom/system/gonk/AudioManager.cpp:472-498 | a headset connects the headset output and input, headphones and line-out their output; off disconnects headset output, headphones and line-out, and the headset input only with the headset output; other states change nothing; connecting never drops or readdresses a device |
| AudioManager.Connect | dom/system/gonk/AudioManager.cpp:513-525 | connecting adds the device and keeps every connected device's address |
| AudioManager.DefaultsAgreeWithAlias | dom/system/gonk/AudioManager.cpp:830-834 | a stream and the stream it shares its volume with have the same default |
| AudioManager.StoreConsistentAtDefault | dom/system/gonk/AudioManager.cpp:1646-1671 | storing under the default device writes that one entry, for both kinds of stream |
| AudioManager.AliasResultOfInit | dom/system/gonk/AudioManager.cpp:830-834 | when a stream's default reaches its alias group, every stream of the group ends with its own default under the default device |
| AudioManager.Manager.SetVolumeIndexToAliasStreams | dom/system/gonk/AudioManager.cpp:1619-1643 | nothing changes when the device already holds the index; otherwise the stream and every stream aliased to it store it consistently, and all other streams keep their caches |
| AudioManager.Manager.SetStreamVolumeForDevice | dom/system/gonk/AudioManager.cpp:1247-1257 | an invalid stream or index is InvalidArg and changes nothing; a valid one goes to the stream's alias and the streams sharing it |
| AudioManager.Manager.SetStreamVolumeIndex | dom/system/gonk/AudioManager.cpp:1259-1276 | Ok exactly when the stream and index are valid, InvalidArg otherwise |
| AudioManager.Manager.GetStreamVolumeIndex | dom/system/gonk/AudioManager.cpp:1278-1289 | no value exactly for streams outside DEFAULT..CNT; otherwise the stream's cached index for the speaker |
| AudioManager.Manager.UpdateDeviceConnectionState | dom/system/gonk/AudioManager.cpp:513-525 | the device is connected afterwards exactly when asked; an unchanged state leaves the map; a new connection adds the address; a disconnection removes the device |
| AudioManager.Int32AsUint32 | dom/system/gonk/AudioManager.cpp:1423 | the signed setting value converted to 32-bit unsigned is congruent to it modulo 2^32 and equal to it when not negative |
| AudioManager.ParseVolumeSetting | dom/system/gonk/AudioManager.cpp:1418-1445 | a non-number fails; a name matching no channel prefix is unknown; otherwise the first matching channel gives the stream, the first matching device suffix the device (none when no suffix matches), and the value the index |
| AudioManager.ChannelNamesArePrefixFree | dom/system/gonk/AudioManager.cpp:177-182 | no name begins with two different channel names, so the channel found is the only one |
| SupplicantSta.MethodFlag | dom/b2g/wifi/gonk/hal/SupplicantStaManagerAidl.cpp:1144-1174 | a token contributes no flag exactly when it is none of the fourteen recognised config-method names |
| SupplicantSta.SpaceIndex | dom/b2g/wifi/gonk/hal/SupplicantStaManagerAidl.cpp:1143 | the position of the first space, or the end when there is none |
| SupplicantSta.Tokens | dom/b2g/wifi/gonk/hal/SupplicantStaManagerAidl.cpp:1142-1143 | the pieces std::getline reads between spaces contain no space, and there are none exactly for the empty string |
| SupplicantSta.TokensOfJoin | dom/b2g/wifi/gonk/hal/SupplicantStaManagerAidl.cpp:1142-1143 | splitting space-joined tokens gives the tokens back when none holds a space and the last is not empty |
| SupplicantSta.SpaceIndexOfSpaceFree | dom/b2g/wifi/gonk/hal/SupplicantStaManagerAidl.cpp:1143 | after a space-free piece the first space is right behind it |
| SupplicantSta.ConvertToWpsConfigMethod | dom/b2g/wifi/gonk/hal/SupplicantStaManagerAidl.cpp:1138-1177 | the mask is the OR of the flags of the space-separated tokens, from left to right |
| SupplicantSta.MaskOfAppend | dom/b2g/wifi/gonk/hal/SupplicantStaManagerAidl.cpp:1143-1175 | the mask of two token lists in a row is the OR of their masks |
| SupplicantSta.MaskHoldsEachFlag | dom/b2g/wifi/gonk/hal/SupplicantStaManagerAidl.cpp:1143-1175 | every token's flag is set in the mask |
| SupplicantSta.MaskOfSubset | dom/b2g/wifi/gonk/hal/SupplicantStaManagerAidl.cpp:1143-1175 | the mask of a list lies inside the mask of any list holding all its tokens |
| SupplicantSta.WpsMaskIgnoresOrderAndRepeats | dom/b2g/wifi/gonk/hal/SupplicantStaManagerAidl.cpp:1143-1175 | two lists with the same tokens give the same mask, whatever the order and repetitions |
| SupplicantSta.UnknownMethodAddsNothing | dom/b2g/wifi/gonk/hal/SupplicantStaManagerAidl.cpp:1172-1174 | an unrecognised token leaves the mask as it is |
| SupplicantSta.CompareCredential | dom/b2g/wifi/gonk/hal/SupplicantStaManagerAidl.cpp:1251-1262 | true exactly when key management and pre-shared key agree |
| SupplicantSta.CompareConfiguration | dom/b2g/wifi/gonk/hal/SupplicantStaManagerAidl.cpp:1236-1249 | true exactly when network id, SSID, key management and pre-shared key agree |
| SupplicantSta.CompareConfigurationIsEquivalence | dom/b2g/wifi/gonk/hal/SupplicantStaManagerAidl.cpp:1236-1262 | the comparison is reflexive, symmetric and transitive |
| SupplicantSta.ModifiedHashEffect | dom/b2g/wifi/gonk/hal/SupplicantStaManagerAidl.cpp:581-595 | CLEAN_ALL empties the map, ERASE_CONFIG removes the interface's entry, ADD_CONFIG inserts only when the interface has none; other interfaces keep theirs |
| SupplicantSta.EraseThenAddReplaces | dom/b2g/wifi/gonk/hal/SupplicantStaManagerAidl.cpp:641-644 | erasing then adding makes the new configuration the interface's, whatever was there |
| SupplicantSta.StaManager.constructor | dom/b2g/wifi/gonk/hal/SupplicantStaManagerAidl.cpp:42-51 | no interface, no death handler, cookie 0 and an empty configuration map |
| SupplicantSta.StaManager.GetCurrentConfiguration | dom/b2g/wifi/gonk/hal/SupplicantStaManagerAidl.cpp:571-579 | the current interface's configuration, or the dummy one when it has none |
| SupplicantSta.StaManager.ModifyConfigurationHash | dom/b2g/wifi/gonk/hal/SupplicantStaManagerAidl.cpp:581-595 | the map becomes the edited map for the current interface |
| SupplicantSta.StaManager.EraseCurrentConfiguration | dom/b2g/wifi/gonk/hal/SupplicantStaManagerAidl.cpp:588-589 | after ERASE_CONFIG the interface's entry is gone and the current configuration is the dummy one |
| SupplicantSta.StaManager.SetCountryCode | dom/b2g/wifi/gonk/hal/SupplicantStaManagerAidl.cpp:374-389 | no station interface is ERROR_INVALID_INTERFACE, a code not two characters long ERROR_INVALID_ARGS; otherwise exactly the two characters go to the HAL |
| SupplicantSta.StaManager.RoamToNetwork | dom/b2g/wifi/gonk/hal/SupplicantStaManagerAidl.cpp:794-817 | an invalid requested id is rejected; the manager roams exactly when the id is valid and id and network key match the current configuration; otherwise it connects |
| SupplicantSta.StaManager.RegisterDeathHandler | dom/b2g/wifi/gonk/hal/SupplicantStaManagerAidl.cpp:1215-1218 | a death handler is set |
| SupplicantSta.StaManager.UnregisterDeathHandler | dom/b2g/wifi/gonk/hal/SupplicantStaManagerAidl.cpp:1220-1222 | no death handler is set |
| SupplicantSta.StaManager.SupplicantServiceDiedHandler | dom/b2g/wifi/gonk/hal/SupplicantStaManagerAidl.cpp:1224-1234 | a stale cookie changes nothing; a current one tells the death handler once when one is registered |
| DomWifiManager.Lookup | dom/b2g/wifi/DOMWifiManager.sys.mjs:211 | a property read finds a value listed under the key, and undefined when the key is not listed |
| DomWifiManager.LookupFindsListed | dom/b2g/wifi/DOMWifiManager.sys.mjs:208-213 | with distinct keys, reading a listed key gives the value listed with it |
| DomWifiManager.ConvertWifiNetworkToJson | dom/b2g/wifi/DOMWifiManager.sys.mjs:205-216 | the JSON holds exactly the keys whose value is neither undefined nor null, each with the network's value |
| DomWifiManager.WifiDownAndUp | dom/b2g/wifi/DOMWifiManager.sys.mjs:412-422 | wifiDown disables and drops the network; wifiUp enables and records the MAC address; no other field moves |
| DomWifiManager.ProgressEventsSetNetworkAndStatus | dom/b2g/wifi/DOMWifiManager.sys.mjs:424-440 | connecting, associate, connect and authenticating set the carried network and their own status, keeping connection information and reachability |
| DomWifiManager.DisconnectClears | dom/b2g/wifi/DOMWifiManager.sys.mjs:442-448 | ondisconnect clears network, connection information and reachability and reports "disconnected" |
| DomWifiManager.FailureEventsKeepReachability | dom/b2g/wifi/DOMWifiManager.sys.mjs:450-495 | WPS and connection failures clear network and connection information and report their own status, keeping reachability and the enabled flag |
| DomWifiManager.RequestRepliesKeepState | dom/b2g/wifi/DOMWifiManager.sys.mjs:269-410 | the replies to requests change none of the maintained fields |
| DomWifiManager.InitialWifiState | dom/b2g/wifi/DOMWifiManager.sys.mjs:115-202 | without a parent state the manager is disabled, disconnected, without network or MAC address; with one it takes network, status, enabled flag and MAC address from it, and reachability from the network's hasInternet |
| DomWifiManager.WifiManager.constructor | dom/b2g/wifi/DOMWifiManager.sys.mjs:115-202 | the manager has its id, no pending request and the initial state |
| DomWifiManager.WifiManager.Store | dom/b2g/wifi/DOMWifiManager.sys.mjs:183-202 | every maintained field takes the value of the given state; the pending requests stay as they were |
| DomWifiManager.WifiManager.AddRequest | dom/b2g/wifi/DOMWifiManager.sys.mjs:248-251 | the request id is pending afterwards |
| DomWifiManager.WifiManager.ReceiveMessage | dom/b2g/wifi/DOMWifiManager.sys.mjs:254-531 | a message for another manager or for a request that is not pending changes nothing; otherwise its request is taken and the state moves by the message |
| Geolocation.CellKeyAsWritten | dom/system/gonk/geolocation/GonkNetworkGeolocationProvider.sys.mjs:70-82 | the key as written has no radio part, since towers carry radioType and not radio, and keeps the other four fields |
| Geolocation.AsWrittenKeyIgnoresRadio | dom/system/gonk/geolocation/GonkNetworkGeolocationProvider.sys.mjs:70-82 | a gsm and an lte tower with the same codes and cell id get the same key as written |
| Geolocation.MakeCellKey | dom/system/gonk/geolocation/GonkNetworkGeolocationProvider.sys.mjs:70-82 | the key carries the tower's radio type, and agrees with the key as written exactly when the tower has none |
| Geolocation.MakeCellKeyIdentifiesCell | dom/system/gonk/geolocation/GonkNetworkGeolocationProvider.sys.mjs:70-82 | with the radio type in the key, two towers share a key exactly when they agree in everything but the signal strength |
| Geolocation.NewCachedRequest | dom/system/gonk/geolocation/GonkNetworkGeolocationProvider.sys.mjs:58-91 | the cached request keeps the accuracy, the set of access point addresses and the set of cell keys, each empty when the list is missing; the cell keys are the corrected MakeCellKey keys with the radio type, not the radio-less keys of makeCellKey as written (see Findings) |
| Geolocation.IsGeoip | dom/system/gonk/geolocation/GonkNetworkGeolocationProvider.sys.mjs:135-137 | a GeoIP request has neither cell keys nor access point addresses |
| Geolocation.IsCellAndWifi | dom/system/gonk/geolocation/GonkNetworkGeolocationProvider.sys.mjs:139-141 | a cell and Wi-Fi request has both |
| Geolocation.IsCellOnly | dom/system/gonk/geolocation/GonkNetworkGeolocationProvider.sys.mjs:143-145 | a cell-only request has cell keys and no addresses |
| Geolocation.IsWifiOnly | dom/system/gonk/geolocation/GonkNetworkGeolocationProvider.sys.mjs:147-149 | a Wi-Fi-only request has addresses and no cell keys |
| Geolocation.ExactlyOneClass | dom/system/gonk/geolocation/GonkNetworkGeolocationProvider.sys.mjs:93-149 | every cached request is exactly one of GeoIP, cell and Wi-Fi, cell only and Wi-Fi only |
| Geolocation.AllCellsCached | dom/system/gonk/geolocation/GonkNetworkGeolocationProvider.sys.mjs:110-114 | the loop succeeds exactly when every remaining tower's corrected key (MakeCellKey, with the radio type) is cached; as written the source looks up radio-less keys (see Findings) |
| Geolocation.IsCellEqual | dom/system/gonk/geolocation/GonkNetworkGeolocationProvider.sys.mjs:97-116 | true exactly when there are cached cells, as many as the towers, and every tower's corrected key is cached; as written, towers that differ only in radio type compare equal in the source (see Findings) |
| Geolocation.DistinctCellKeysCount | dom/system/gonk/geolocation/GonkNetworkGeolocationProvider.sys.mjs:85-90 | towers with distinct keys give as many keys as towers |
| Geolocation.CellEqualIsSetEquality | dom/system/gonk/geolocation/GonkNetworkGeolocationProvider.sys.mjs:97-116 | for towers with distinct keys, the cells are equal exactly when the cached key set is non-empty and is the towers' key set |
| Geolocation.CommonCount | dom/system/gonk/geolocation/GonkNetworkGeolocationProvider.sys.mjs:124-130 | the number of access points with a cached address is at most the list's length |
| Geolocation.IsWifiApproxEqual | dom/system/gonk/geolocation/GonkNetworkGeolocationProvider.sys.mjs:119-133 | true exactly when there are cached access points and at least half of the larger of the two counts are common |
| Geolocation.CommonCountIsIntersection | dom/system/gonk/geolocation/GonkNetworkGeolocationProvider.sys.mjs:119-133 | with distinct addresses, the common count is the size of the intersection of the two address sets |
| Geolocation.SameAccessPointsAreApproxEqual | dom/system/gonk/geolocation/GonkNetworkGeolocationProvider.sys.mjs:119-133 | a list of distinct access points that are exactly the cached ones is approximately equal |
| Geolocation.IsCachedRequestMoreAccurate | dom/system/gonk/geolocation/GonkNetworkGeolocationProvider.sys.mjs:164-239 | the cache wins only when there is one and it is enabled, and a GeoIP cache never wins over a request with a source; cells are compared by the corrected IsCellEqual (see Findings) |
| Geolocation.CacheDecisionBasics | dom/system/gonk/geolocation/GonkNetworkGeolocationProvider.sys.mjs:164-194 | no cache or a disabled cache never wins; a request with no source always takes the cache; a request with both sources never takes a single-source cache |
| Geolocation.CellOnlyCacheNeedsEqualCells | dom/system/gonk/geolocation/GonkNetworkGeolocationProvider.sys.mjs:206-223 | a cell-only cache serves a request with sources exactly when it is cell-only with equal cells |
| Geolocation.WifiOnlyCacheDecision | dom/system/gonk/geolocation/GonkNetworkGeolocationProvider.sys.mjs:196-226 | a Wi-Fi-only cache serves a Wi-Fi-only request with approximately equal access points, or a cell-only request when its accuracy is below 5000 |
| Geolocation.CellAndWifiCacheDecision | dom/system/gonk/geolocation/GonkNetworkGeolocationProvider.sys.mjs:206-236 | a cell and Wi-Fi cache serves a request exactly when every source the request has matches |
| Geolocation.GeoipCacheDecision | dom/system/gonk/geolocation/GonkNetworkGeolocationProvider.sys.mjs:164-238 | a GeoIP cache serves exactly the requests without sources |
| Geolocation.RequestSources | dom/system/gonk/geolocation/GonkNetworkGeolocationProvider.sys.mjs:569-584 | access points are sent only when there are at least two, towers only when there is one, each unchanged |
| Geolocation.RadioTechFamily | dom/system/gonk/geolocation/GonkNetworkGeolocationProvider.sys.mjs:468-504 | a connection type maps to gsm, wcdma or lte, and to lte exactly for "lte" |
| Geolocation.MobileSignal | dom/system/gonk/geolocation/GonkNetworkGeolocationProvider.sys.mjs:468-504 | GSM and WCDMA convert ASU to dBm; LTE converts a valid ASU, else takes an RSRP in -140..-44, else none; other types have none |
| Geolocation.AsuToDbm | dom/system/gonk/geolocation/GonkNetworkGeolocationProvider.sys.mjs:473-488 | a valid ASU reading of 0..31 converts to a signal of -113..-51 dBm |
| Geolocation.LteSignalInRsrpRange | dom/system/gonk/geolocation/GonkNetworkGeolocationProvider.sys.mjs:483-502 | a defined LTE signal lies in -140..-44 dBm |
| Geolocation.TowersOf | dom/system/gonk/geolocation/GonkNetworkGeolocationProvider.sys.mjs:450-524 | at most one tower per slot, and none with cell id -1 |
| Geolocation.GetMobileInfo | dom/system/gonk/geolocation/GonkNetworkGeolocationProvider.sys.mjs:450-524 | the towers of the usable slots, in slot order |
| Geolocation.Provider.constructor | dom/system/gonk/geolocation/GonkNetworkGeolocationProvider.sys.mjs:269-311 | a new provider is not started and has no network, timer, Wi-Fi watch, listener or cache |
| Geolocation.Provider.ResetTimer | dom/system/gonk/geolocation/GonkNetworkGeolocationProvider.sys.mjs:354-373 | the timer runs exactly when there is a network |
| Geolocation.Provider.Startup | dom/system/gonk/geolocation/GonkNetworkGeolocationProvider.sys.mjs:375-402 | a second call changes nothing; the first records the network, watches Wi-Fi when a network and scanning are there, and arms the timer exactly with a network |
| Geolocation.Provider.Watch | dom/system/gonk/geolocation/GonkNetworkGeolocationProvider.sys.mjs:404-406 | a listener is set |
| Geolocation.Provider.Shutdown | dom/system/gonk/geolocation/GonkNetworkGeolocationProvider.sys.mjs:408-430 | when started, the cache, timer, Wi-Fi watch and listener are dropped; afterwards the provider is not started |
| Geolocation.Provider.SendLocationRequest | dom/system/gonk/geolocation/GonkNetworkGeolocationProvider.sys.mjs:569-643 | a better cache is used; no source sends nothing; a failed request keeps the cache; a located answer becomes the new cache with the request's corrected cell keys and addresses |
| PushRecordModel.QuotaFor | dom/push/PushRecord.sys.mjs:41-45 | a suggestion that converts to a non-negative number is the quota; NaN, -Infinity and negative numbers give the maximum; +Infinity gives Infinity |
| PushRecordModel.DecrementQuota | dom/push/PushRecord.sys.mjs:121 | a quota of at least one loses one, a smaller one becomes 0, Infinity stays |
| PushRecordModel.DecrementQuotaBounds | dom/push/PushRecord.sys.mjs:121 | a decremented finite quota is never negative, is lower than a positive quota, and is 0 from 0 or below |
| PushRecordModel.QuotaRunsOutAfterItsSize | dom/push/PushRecord.sys.mjs:117-122 | a whole quota of n messages is 0, so expired, after n or more decrements |
| PushRecordModel.NotedIds | dom/push/PushRecord.sys.mjs:99-111 | the id goes in front of the old list, which is cut to min(length, max(pref, 0)) entries |
| PushRecordModel.NotedIdsKeepNewestFirst | dom/push/PushRecord.sys.mjs:99-111 | with a positive preference the id is first and present, the list has at most that many entries, and the rest are the newest old ones in order |
| PushRecordModel.OrZero | dom/push/PushRecord.sys.mjs:26-28 | a missing integer property reads as 0, a present one as itself |
| PushRecordModel.PushRecord.constructor | dom/push/PushRecord.sys.mjs:22-38 | the record takes its endpoint, scope, keys, secret, recent ids and flags as given; pushCount, lastPush, lastVisit, ctime and unregisterTries are 0 when missing and kept otherwise; the quota is that setQuota gives |
| PushRecordModel.PushRecord.SetQuota | dom/push/PushRecord.sys.mjs:41-49 | a record subject to quota gets the converted suggestion; a system record Infinity |
| PushRecordModel.PushRecord.ResetQuota | dom/push/PushRecord.sys.mjs:51-55 | a record subject to quota gets the maximum; a system record Infinity |
| PushRecordModel.PushRecord.SystemRecordsNeverExpire | dom/push/PushRecord.sys.mjs:268-274 | a system record's quota is never 0 |
| PushRecordModel.PushRecord.ReduceQuota | dom/push/PushRecord.sys.mjs:117-122 | exempt records keep their quota; others lose one message, never going below 0 |
| PushRecordModel.PushRecord.UpdateQuota | dom/push/PushRecord.sys.mjs:57-86 | expired or exempt records keep their quota; a cleared history expires the record; a visit since the last push sets the decayed quota; otherwise nothing changes |
| PushRecordModel.PushRecord.ReceivedPush | dom/push/PushRecord.sys.mjs:57-92 | the quota is updated as by updateQuota against the previous push time (kept when expired or exempt, 0 after a cleared history, the decayed quota after a visit since that push), the push counted and stamped with the current time |
| PushRecordModel.PushRecord.QuotaApplies | dom/push/PushRecord.sys.mjs:268-270 | a record not subject to quota has an infinite quota |
| PushRecordModel.PushRecord.IsExpired | dom/push/PushRecord.sys.mjs:272-274 | an expired record has a quota of exactly 0, so is subject to quota |
| PushRecordModel.PushRecord.HasRecentMessageID | dom/push/PushRecord.sys.mjs:113-115 | only a record with a non-empty recent list has a recent id, and its newest id is always one |
| PushRecordModel.PushRecord.NoteRecentMessageID | dom/push/PushRecord.sys.mjs:99-111 | the recent list becomes the old one with the id in front, cut to the preference |
| PushRecordModel.PushRecord.MatchesAppServerKey | dom/push/PushRecord.sys.mjs:292-304 | true exactly when the stored and the given key are both missing or are equal element by element |
| PushRecordModel.PushRecord.ToSubscription | dom/push/PushRecord.sys.mjs:305-317 | endpoint, counters, key and system flag are reported as stored; the quota is -1 for system records |
| PushRecordModel.PushRecord.HasAuthenticationSecret | dom/push/PushRecord.sys.mjs:286-290 | true exactly when there is a secret of 16 bytes |
| PushRecordModel.PushRecord.MatchesOriginAttributes | dom/push/PushRecord.sys.mjs:276-284 | system records match no pattern; other records match exactly when their attributes do |
| PushRecordModel.PushRecord.ReachMaxUnregisterTries | dom/push/PushRecord.sys.mjs:319-324 | true exactly when there were at least 3 unregister attempts |
| PushRecordModel.PushRecord.GetLastVisit | dom/push/PushRecord.sys.mjs:132-145 | exempt records and open tabs give the current time; otherwise the last visit, or the creation time before the first visit |
| PushRecordModel.NotedIdIsRecent | dom/push/PushRecord.sys.mjs:99-115 | once an id is noted with a positive preference, the record has it as a recent message |
| HelperAppDialog.DigitChar | b2g/components/HelperAppDialog.sys.mjs:98 | a digit below ten is written as the digit character of that value |
| HelperAppDialog.Digits | b2g/components/HelperAppDialog.sys.mjs:98 | a counter is written as one or more decimal digits |
| HelperAppDialog.ParseDigits | b2g/components/HelperAppDialog.sys.mjs:98 | reading the written counter back gives the counter |
| HelperAppDialog.DigitsInjective | b2g/components/HelperAppDialog.sys.mjs:98 | different counters are written differently |
| HelperAppDialog.DigitRunEnd | b2g/components/HelperAppDialog.sys.mjs:97 | a run of digits ends at the first non-digit |
| HelperAppDialog.LastCounterBefore | b2g/components/HelperAppDialog.sys.mjs:96-99 | the greedy prefix pattern finds a "(digits)" before the position it is given (the end of the name for the intended rewrite, the end of the first line for the rewrite as written), or none |
| HelperAppDialog.LastCounterIsRightmost | b2g/components/HelperAppDialog.sys.mjs:96-99 | the counter found is the rightmost one before that position, and none is found exactly when there is none |
| HelperAppDialog.LastCounterIsFound | b2g/components/HelperAppDialog.sys.mjs:96-99 | conversely, a counter with no counter after it before that position is the one found |
| HelperAppDialog.DigitRunEndOfConcat | b2g/components/HelperAppDialog.sys.mjs:97 | a digit run inside the second of two strings ends where it ends in that string |
| HelperAppDialog.CounterIsLocal | b2g/components/HelperAppDialog.sys.mjs:97 | whether a counter starts at a position depends only on what follows it |
| HelperAppDialog.DigitRunOfCounter | b2g/components/HelperAppDialog.sys.mjs:97 | the digit run after the "(" of a counter ends at its ")" |
| HelperAppDialog.LastCounterOfShape | b2g/components/HelperAppDialog.sys.mjs:96-99 | in a name whose tail after a counter holds none, that counter is the one replaced |
| HelperAppDialog.ReplaceLastCounterEffect | b2g/components/HelperAppDialog.sys.mjs:96-99 | a name without counter is kept; otherwise everything up to the "(" of the last counter is kept and the digits after it are the new count |
| HelperAppDialog.FirstLineEnd | b2g/components/HelperAppDialog.sys.mjs:97 | the first line of a name ends at its first line feed, carriage return, line or paragraph separator, or at its end |
| HelperAppDialog.LineEndFrom | b2g/components/HelperAppDialog.sys.mjs:97 | the first line terminator at or after a position, or the end; none before it |
| HelperAppDialog.ReplaceLastCounterAsWritten | b2g/components/HelperAppDialog.sys.mjs:96-99 | as written, a name whose first line holds no counter is kept unchanged |
| HelperAppDialog.AsWrittenAgreesOnOneLine | b2g/components/HelperAppDialog.sys.mjs:96-99 | on a name of one line the rewrite as written is the intended one |
| HelperAppDialog.AsWrittenLoopNeverEnds | b2g/components/HelperAppDialog.sys.mjs:77-101 | as written, the leaf "a\nb" is renamed "a\nb(2)" and then stays so for every later collision |
| HelperAppDialog.AsWrittenRewritesFirstLine | b2g/components/HelperAppDialog.sys.mjs:96-99 | as written, "x(3)\ny(2)" with count 4 becomes "x(4)\ny(2)" |
| HelperAppDialog.IntendedRewritesLastCounter | b2g/components/HelperAppDialog.sys.mjs:96-99 | the intended rewrite of "x(3)\ny(2)" with count 4 is "x(3)\ny(4)" |
| HelperAppDialog.ReplaceCounterOfShape | b2g/components/HelperAppDialog.sys.mjs:96-99 | replacing rewrites exactly that counter's digits to the new count |
| HelperAppDialog.LastDotBefore | b2g/components/HelperAppDialog.sys.mjs:90 | the last '.' before a position, none exactly when there is no dot |
| HelperAppDialog.CompoundSuffixFor | b2g/components/HelperAppDialog.sys.mjs:83-85 | a match of a dot, one to three non-dots, a dot and the given extension ending the name, none exactly when there is no such match |
| HelperAppDialog.CompoundSuffixStart | b2g/components/HelperAppDialog.sys.mjs:83-85 | the start of a .x.gz, .x.bz2 or .x.Z suffix, case-insensitively; none exactly when there is no such suffix |
| HelperAppDialog.SameExtension | b2g/components/HelperAppDialog.sys.mjs:83 | only one of gz, bz2 and Z can end a name behind a dot |
| HelperAppDialog.CompoundSuffixIsUnique | b2g/components/HelperAppDialog.sys.mjs:83-85 | the compound suffix, when there is one, starts at one place |
| HelperAppDialog.ExtensionStart | b2g/components/HelperAppDialog.sys.mjs:89-92 | the last '.', or the end of a name without dot |
| HelperAppDialog.FirstCounterPosition | b2g/components/HelperAppDialog.sys.mjs:80-93 | "(2)" goes before the compound suffix when there is one, else before the last extension |
| HelperAppDialog.FirstRename | b2g/components/HelperAppDialog.sys.mjs:80-93 | the first rename inserts "(2)" at that position and keeps both sides |
| HelperAppDialog.CounterSplit | b2g/components/HelperAppDialog.sys.mjs:96-99 | a name with a counter is its prefix, "(digits)" and a suffix without counter |
| HelperAppDialog.FirstRenameHasCounter | b2g/components/HelperAppDialog.sys.mjs:80-93 | the first rename always leaves a counter in the name |
| HelperAppDialog.RewriteStep | b2g/components/HelperAppDialog.sys.mjs:94-100 | from the first rename on, rewriting the last counter to c + 2 takes the name tried after c collisions to the one tried after c + 1: the first rename with its rightmost counter written as c + 2 (the inserted "(2)", or a counter already behind the extension: "a.txt(7)" becomes "a(2).txt(7)", then "a(2).txt(3)") |
| HelperAppDialog.CounterShapeInjective | b2g/components/HelperAppDialog.sys.mjs:96-99 | two names of the same shape differ exactly in their counters |
| HelperAppDialog.LaterNamesDistinct | b2g/components/HelperAppDialog.sys.mjs:77-101 | no name comes back after the second rename |
| HelperAppDialog.LaterNamesCount | b2g/components/HelperAppDialog.sys.mjs:77-101 | the c - 2 names tried after the first rename are distinct |
| HelperAppDialog.MakeFileUnique | b2g/components/HelperAppDialog.sys.mjs:71-102 | with the intended rewrite of the last counter (see Findings), the loop ends, the final name exists nowhere in the directory, and every name tried before it was taken |
| HelperAppDialog.StripLeadingDots | b2g/components/HelperAppDialog.sys.mjs:60 | the leaf loses exactly its leading dots: the rest is a suffix of it, does not start with a dot, and everything removed was a dot |
| HelperAppDialog.CleanLeafName | b2g/components/HelperAppDialog.sys.mjs:58-64 | a leaf of only dots becomes "unnamed" with the extension when there is one; otherwise the leaf without its dots; never empty or starting with a dot |
| HelperAppDialog.ValidateLeafName | b2g/components/HelperAppDialog.sys.mjs:53-69 | nothing for a directory that is missing or not usable; otherwise a name that does not exist, reached by renaming the cleaned leaf |
| HelperAppDialog.FirstCollisionRules | b2g/components/HelperAppDialog.sys.mjs:77-93 | without collision the leaf is kept; the first collision puts "(2)" before the compound suffix or the last extension |
| GLCursor.MapCursorState | widget/gonk/GLCursorImageManager.cpp:69-84 | the seven supported cursors map to themselves, every other cursor to the standard one |
| GLCursor.MapCursorStateIdempotent | widget/gonk/GLCursorImageManager.cpp:69-84 | mapping a mapped cursor changes nothing |
| GLCursor.CursorClassId | widget/gonk/GLCursorImageManager.cpp:39-67 | unsupported cursors get the "std" class, the hyperlink cursor "link" |
| GLCursor.ClassIdsFollowMapping | widget/gonk/GLCursorImageManager.cpp:39-84 | a cursor's class is that of the cursor it maps to, and distinct supported cursors have distinct classes |
| GLCursor.GLCursorImageManager.constructor | widget/gonk/GLCursorImageManager.cpp:155-158 | a new manager has no image, no load, no cursor set and the offscreen position |
| GLCursor.GLCursorImageManager.IsCursorImageReady | widget/gonk/GLCursorImageManager.cpp:171-178 | ready exactly when the cursor is not "none" and its mapped cursor has an image |
| GLCursor.GLCursorImageManager.IsCursorImageLoading | widget/gonk/GLCursorImageManager.cpp:180-183 | loading exactly when the mapped cursor has a pending load |
| GLCursor.GLCursorImageManager.GetGLCursorImage | widget/gonk/GLCursorImageManager.cpp:160-169 | the stored image of the mapped cursor, or the empty image exactly when it has none |
| GLCursor.GLCursorImageManager.NotifyCursorImageLoadDone | widget/gonk/GLCursorImageManager.cpp:185-189 | the image is stored unless one is already stored for that cursor |
| GLCursor.GLCursorImageManager.PrepareCursorImage | widget/gonk/GLCursorImageManager.cpp:191-261 | nothing happens for "none", without a window, or when the mapped cursor is ready, loading or has no document; otherwise a load for the mapped cursor with the css hotspot is added |
| GLCursor.GLCursorImageManager.RemoveCursorLoadRequest | widget/gonk/GLCursorImageManager.cpp:263-269 | the cursor's load is erased and no other |
| GLCursor.GLCursorImageManager.LoadFinished | widget/gonk/GLCursorImageManager.cpp:88-153 | a DECODE_COMPLETE notification stores the task's image (cursor, size, hotspot) unless that cursor already has one, which is kept, and then erases its load; other notifications change nothing |
| GLCursor.GLCursorImageManager.HasSetCursor | widget/gonk/GLCursorImageManager.cpp:271-274 | a cursor has been set afterwards |
| GLCursor.GLCursorImageManager.SetGLCursorPosition | widget/gonk/GLCursorImageManager.cpp:276-279 | the position is the one given |
| GLCursor.GLCursorImageManager.GetGLCursorPosition | widget/gonk/GLCursorImageManager.cpp:281-284 | the current cursor position |
| GLCursor.PositionReadsBack | widget/gonk/GLCursorImageManager.cpp:276-284 | a new manager reports (-1, -1); after a position is set it reports that position |
| GLCursor.GLCursorImageManager.ShouldDrawGLCursor | widget/gonk/GLCursorImageManager.cpp:286-289 | draw exactly when a cursor has been set and the position is not (-1, -1) |
| GLCursor.DrawingNeedsCursorAndPosition | widget/gonk/GLCursorImageManager.cpp:271-289 | a new manager draws nothing; once a cursor is set at p it draws exactly when p is on screen |
| GLCursor.PrepareThenLoad | widget/gonk/GLCursorImageManager.cpp:120-269 | a prepared cursor is loading, and after its decode completes it is ready and no longer loading, while "none" is never ready |
| RilWorker.Decrement | dom/system/gonk/radio/nsRilWorker.cpp:1395 | `to - 1` on an int32: one less, except that INT32_MIN wraps to INT32_MAX |
| RilWorker.Increment | dom/system/gonk/radio/nsRilWorker.cpp:1395 | the inverse step on an int32: one more, INT32_MAX wrapping to INT32_MIN |
| RilWorker.IncrementUndoesDecrement | dom/system/gonk/radio/nsRilWorker.cpp:1393-1395 | turning an exclusive upper bound into an inclusive one loses nothing, even at INT32_MIN |
| RilWorker.RangesOf | dom/system/gonk/radio/nsRilWorker.cpp:1390-1400 | a configuration of n entries stands for 2n range bounds |
| RilWorker.HalCellInfoListRate | dom/system/gonk/radio/nsRilWorker.cpp:244-246 | a rate of 0 is sent as INT32_MAX, any other rate unchanged |
| RilWorker.HalCellInfoListRateNeverZero | dom/system/gonk/radio/nsRilWorker.cpp:244-247 | the HAL is never asked for a zero rate, and distinct non-zero rates stay distinct |
| RilWorker.RilWorkerModel.constructor | dom/system/gonk/radio/nsRilWorker.cpp:40-49 | a new worker has made no HAL call and dispatched nothing |
| RilWorker.RilWorkerModel.SetCellInfoListRate | dom/system/gonk/radio/nsRilWorker.cpp:232-253 | without a radio HAL nothing is sent; otherwise exactly one setCellInfoListRate call with the adjusted rate |
| RilWorker.RilWorkerModel.SetGsmBroadcastConfig | dom/system/gonk/radio/nsRilWorker.cpp:1382-1408 | without a radio HAL nothing is sent; otherwise one setGsmBroadcastConfig call whose entries are the input pairs, one per pair, standing for exactly the input ranges |
| RilWorker.BroadcastInfo | dom/system/gonk/radio/nsRilWorker.cpp:1390-1400 | the loop turns each [from, to) pair into the entry [from, to - 1] with code schemes 0x00-0xFF selected, and the entries' ranges are exactly the input |
| RilWorker.RangesOfAppend | dom/system/gonk/radio/nsRilWorker.cpp:1390-1400 | appending one entry appends its two bounds to the ranges the configuration stands for |
| RilWorker.RilWorkerModel.ProcessIndication | dom/system/gonk/radio/nsRilWorker.cpp:1677-1685 | an acknowledgement goes to the radio exactly for an UNSOLICITED_ACK_EXP indication when a radio HAL exists |
| RilWorker.RilWorkerModel.ProcessResponse | dom/system/gonk/radio/nsRilWorker.cpp:1687-1695 | an acknowledgement goes to the radio exactly for a SOLICITED_ACK_EXP response when a radio HAL exists |
| RilWorker.RilWorkerModel.SendAck | dom/system/gonk/radio/nsRilWorker.cpp:1697-1705 | responseAcknowledgement is called exactly when a radio HAL exists |
| RilWorker.RilWorkerModel.SendRilResponseResult | dom/system/gonk/radio/nsRilWorker.cpp:1723-1741 | a response is forwarded exactly when its token is positive, so internal requests never reach the callback |
| RilWorker.RilWorkerModel.SendRilIndicationResult | dom/system/gonk/radio/nsRilWorker.cpp:1707-1721 | every indication is forwarded |
| RilWorker.ConvertToHalMvnoType | dom/system/gonk/radio/nsRilWorker.cpp:1744-1754 | IMSI, GID and SPN each come from exactly their own name |
| RilWorker.MvnoTypeRoundTrip | dom/system/gonk/radio/nsRilWorker.cpp:1744-1754 | each named MVNO type comes back from its name, and any other string gives NONE |
| RilWorker.ConvertToHalPdpTypeAsWritten | dom/system/gonk/radio/nsRilWorker.cpp:1757-1771 | the conversion as written: IPV4V6 comes only from the string "IPV4V6n" |
| RilWorker.AsWrittenDualStackIsUnknown | dom/system/gonk/radio/nsRilWorker.cpp:1762 | as written, the dual-stack name "IPV4V6" converts to UNKNOWN |
| RilWorker.ConvertToHalPdpType | dom/system/gonk/radio/nsRilWorker.cpp:1757-1771 | the corrected conversion: IPV4V6 comes exactly from "IPV4V6", IP exactly from "IP" |
| RilWorker.PdpTypeRoundTrip | dom/system/gonk/radio/nsRilWorker.cpp:1757-1771 | every protocol type comes back from its name, and names outside the five give UNKNOWN |

## Left out

- Sockets, fd watchers, I/O threads, SDP records, Listen and Connect of the transport: outside the model; their outcomes are parameters.
- File storage, device-storage renames, MIME lookups, the mount lock and blob input streams: parameters (`created`, `writeOk`, `readOk`, `mountLockOk`, `blob`, `readLimit`).
- ObexBase header codec (`ParseHeaders`, `AppendHeader*`): it is not part of this model; parsed header sets are datatypes and parsing success is a parameter. `kObexLeastMaxSize`, `kObexRespHeaderSize`, `kObexBodyHeaderSize` and `FINAL_BIT` are not defined in the repository; the model uses the IrOBEX 1.2 values 255, 3, 3 and 0x80.
- OppManager.SentFileName: the MIME service's `GetPrimaryExtension` answer for the blob's type is the field `primaryExtension` (None when there is no MIME service or the lookup fails); the lossy UTF-16 to ASCII conversion of the type is not modelled.
- OppManager.DeclaredLength and OppManager.Manager.BeginPacket: the source reads bytes 1..2 of a first fragment of any size and allocates `new uint8_t[length - 3]` (see Findings); the model reads missing bytes as 0 and gives a negative length an empty buffer, and ComposePacket then refuses the fragment.
- OppManager.NameFitsPacket: the name's length is counted in Unicode scalar values, where the source counts UTF-16 units (`mFileName.Length()`, BluetoothOppManager.cpp:1123); a name with a character outside the Basic Multilingual Plane is shorter in the model, so it may fit the packet where the source's does not.
- OPP packets are recorded by opcode only; the header bytes inside them are not modelled.
- OppManager.Manager.SendPutRequest and ContinuePut: the ReadFileTask thread that reads and sends body chunks is not modelled; only its success (`readOk`) and the decision to send PutFinal are.
- OPP `StopSendingFile`, `ConfirmReceivingFile`'s DeviceStorage rename, `Send`/`Connect`/`Disconnect` of the profile controller and the mount-lock acquisition: platform plumbing.
- PbapManager.Manager.ReplyToGet: a failing `Available()` or `Read()` of the stream is not modelled; a read returns at least one and at most `readLimit` bytes.
- PbapManager.Manager.ReplyToConnect: MD5 is the parameter `md5`; a failing hash leaves the old digest, modelled as a result of the wrong length. It hashes the corrected input DigestInput, the whole UTF-8 password, not the source's DigestInputAsWritten, which copies only `aPassword.Length()` bytes (see Findings). The two agree exactly on ASCII passwords (DigestInputsAgreeOnAscii); for any other password the modelled digest and AuthResponse header are not the program's.
- PbapManager.Manager.GetRemoteNonce: the triplet walk has no bounds check against the packet, so it is modelled only on well-formed challenges (every triplet's tag, length and nonce bytes present, offsets below 256).
- PbapManager.CString: reading a search value that fills the 64-byte buffer without a NUL goes past the buffer in the source; the model stops at the buffer's end.
- PbapManager.Manager.ReceiveSocketData, HandleGet and ContinueGet require a remote maximum of at least 255 while a stream is open. A second Connect with a too small maximum resets it to 0 while a stream may stay open, and the source's assertion in ReplyToGet would then fail.
- PbapManager.Manager.RunSrmTask: the delayed re-posting is modelled as a counter of posted tasks; the timer is not.
- PbapManager.Manager.ReplyToPull models both ReplyToPullPhonebook and ReplyToPullvCardListing, whose bodies are the same.
- PBAP socket ownership: the rule that a connected session socket and a server socket are not both held is proved only for the accepting slot (OnSocketConnectSuccess); re-listening after a disconnect is not modelled.
- PBAP `Disconnect(controller)`, the observer, Init/Uninit, the singleton and its null checks: platform plumbing.
- PBAP GET reply sizes use the IrOBEX 1.2 header encodings (SRM header 2 bytes, Application Parameters and Body headers 3 bytes plus data), since the encoders are not in the repository.
- Bluetooth value types: the Bluetooth Base UUID and the "any" and cleared addresses use the Bluetooth Core Specification values; the `Convertible` casting helpers are not modelled.
- Audio manager: Android's AUDIO_* stream and device constants are not part of the repository; the model uses Android's values.
- Audio manager: volume curves, the FM radio volume, the audio HAL calls, settings observers and telemetry are platform plumbing.
- Audio manager Init: the HAL switch states are the constructor's parameters; hal::SwitchState is not part of the repository, so only the values UpdateHeadsetConnectionState tests are named. AUDIO_DEVICE_OUT_LINE and AUDIO_DEVICE_IN_WIRED_HEADSET use Android's values 0x20000 and 0x80000010. The error callback, master volume, forced use, InitStreamVolume's AudioSystem call, the switch observers and NotifyHeadphonesStatus are platform plumbing.
- AudioManager.Manager.SetStreamVolumeForDevice: the status the source leaves uninitialised when no HAL call is made is taken as success.
- AudioManager.Manager.SetStreamVolumeIndex: it only validates, because SetVolumeIndexToActiveDevices and GetDevicesForStream are stubs in the source.
- SupplicantSta.MethodFlag: the WpsConfigMethods bit values come from Android's supplicant AIDL interface, which is not part of the repository; the model uses Android's values.
- Supplicant: HAL calls other than their results (`halResult`), the AIDL binder, mutexes and the event callbacks are not modelled.
- SupplicantSta.StaManager.SetCountryCode: the source returns the HAL call's `isOk()` boolean as its result code; the model returns the HAL's result as given.
- Supplicant ConnectToNetwork: only its edits of the configuration cache are modelled, not the network creation and selection calls. INVALID_NETWORK_ID is -1.
- Content-side Wi-Fi manager: DOM events, DOMRequest firing, capabilities and the message manager are not modelled; only the state updates are.
- Geolocation: fetch, timers, telemetry and the Wi-Fi scanning service are outside the model; their outcomes are parameters.
- Geolocation: accuracies are reals, not IEEE doubles. A cell key is a tuple, not the ":"-joined string; decimal fields hold no ":", so both tell cells apart alike.
- Geolocation.IsCellEqual: it compares towers by the corrected MakeCellKey, which includes the tower's radio type, and not by makeCellKey as written, whose radio part is always undefined (CellKeyAsWritten, see Findings). The two keys differ for every tower that carries a radio type (MakeCellKey's contract), so where the source finds a gsm cache entry and an lte request with mcc 208, mnc 1, lac 100 and cell id 42 equal, the model does not.
- Geolocation.AllCellsCached: it looks up the corrected MakeCellKey keys, not the source's radio-less ones, with the same consequence as IsCellEqual.
- Geolocation.NewCachedRequest: the cached cell keys are the corrected MakeCellKey keys, not the source's radio-less ones.
- Geolocation.IsCachedRequestMoreAccurate: its cell comparisons go through the corrected IsCellEqual and AllCellsCached, so for towers that differ only in radio type the model's cache decision differs from the program's.
- Geolocation.Provider.SendLocationRequest: it builds and consults the cache with the corrected keys, so it sends a request where the program, matching radio-less keys, can answer from the cache.
- Geolocation: `parseInt` of the signal strings and the URL of the Wi-Fi comparison are not modelled.
- PushRecord: the quota decay formula is the parameter `decayedQuota` and `Date.now()` the parameter `now`; whether a tab of the origin is open is `tabOpen`.
- PushRecord: `isInstalledAppNotPWA` is a flag fixed at construction. The browser-history `getLastVisit` is replaced by the B2G branch only.
- PushRecord: p256dh key generation, origin-attribute pattern matching (a parameter) and IndexedDB storage are not modelled.
- BluetoothChildActor.Step: a RecvBeginShutdown or RecvNotificationsStopped in a bad state returns IpcFail in every build; a debug build aborts first on MOZ_ASSERT(false, "Bad state!") (BluetoothChild.cpp:80 and :92), which the model does not capture.
- HelperAppDialog.MakeFileUnique: follows the intended rewrite of the last counter of the whole name (ReplaceLastCounter), not the first-line-only rewrite of the regular expression as written (ReplaceLastCounterAsWritten); for a leaf with a line terminator the source's loop can run forever (AsWrittenLoopNeverEnds), so the termination it proves holds of the source only for leaves of one line (AsWrittenAgreesOnOneLine).
- HelperAppDialog.ValidateLeafName: it renames through MakeFileUnique and so follows the same intended rewrite; on a leaf with a line terminator it ends with a free name where the source's loop can run forever.
- HelperAppDialog: the file is a leaf name plus the set of names that exist; the `create()` exception path is not modelled, and `usableDirectory` stands for isUsableDirectory.
- GL cursor: the monitor lock, the anonymous-content element, css lookup and image decoding are platform plumbing. The main-thread removal dispatched by LoadCursorTask::Notify is folded into LoadFinished.
- GLCursor.GLCursorImageManager.GetGLCursorImage: the empty GLCursorImage is modelled as None.
- GLCursor.GLCursorImageManager.RemoveCursorLoadRequest: it requires a pending load, because the source dereferences the request it finds.
- Bluetooth IPC child: RecvNotify, RecvEnabled, request actor allocation and the static service reference are not modelled.
- Cell broadcast IPC child: the message fields and the listener objects are not modelled; listeners are ids. The callbacks are modelled only as unregistering, not registering.
- Cell broadcast IPC child: the MOZ_ASSERTs on (un)registering are preconditions.
- RilWorker.RilWorkerModel.SetGsmBroadcastConfig: it requires an even number of bounds; with an odd number the source's bounds-checked array access aborts on the missing last bound.
- RIL worker: `ret.isOk()` errors of the proxy calls only log, so they are not modelled. The callback's null check is not modelled: every dispatched result is recorded.
- RIL worker: the other RIL requests, GetRadioProxy's service lookup, the death recipient and the JS result objects are not modelled.

## Findings

| source | as written | input that shows it | evidently intended | confidence | as-written member | corrected member |
|---|---|---|---|---|---|---|
| dom/b2g/bluetooth/bluedroid/BluetoothPbapManager.cpp:860-867 | the request-digest input copies `aPassword.Length()` bytes of the UTF-8 password, counting UTF-16 units | password "é" (UTF-8 C3 A9, one UTF-16 unit) hashes only C3, the same as "è" | hash the nonce, a colon and every UTF-8 byte of the password (H(nonce ":" password), section 3.5.2.1 of PBAP 1.2) | not executed | PbapManager.AsWrittenDigestConfusesPasswords | PbapManager.DigestInputSeparatesPasswords |
| dom/system/gonk/geolocation/GonkNetworkGeolocationProvider.sys.mjs:70-82 | makeCellKey reads `cell.radio`, but the towers from getMobileInfo carry `radioType`, so every key has an undefined radio | a gsm and an lte tower with the same mcc 208, mnc 1, lac 100 and cellId 42 get the same key | the key includes the tower's radio type | not executed | Geolocation.AsWrittenKeyIgnoresRadio | Geolocation.MakeCellKeyIdentifiesCell |
| b2g/components/HelperAppDialog.sys.mjs:96-99 | `/^(.*\()\d+\)/` has no `s` flag, so `.*` stops at the first line terminator and only a counter in the first line of the name is rewritten | leaf "a\nb" with "a\nb" and "a\nb(2)" both taken: every later try is "a\nb(2)" again and the loop never ends; "x(3)\ny(2)" has its "(3)" rewritten | rewrite the last "(n)" of the whole name, as the comment above the loop says | not executed | HelperAppDialog.AsWrittenLoopNeverEnds | HelperAppDialog.LaterNamesDistinct |
| dom/b2g/bluetooth/bluedroid/BluetoothOppManager.cpp:866-877 | the first fragment of a PUT has its length field at bytes 1..2 read and `new uint8_t[length - 3]` allocated, while ServerDataHandler only demands one byte | [0x02] is read past its end; [0x02, 0x00, 0x02] asks for a buffer of -1 bytes | refuse a first fragment shorter than the 3-byte header or declaring fewer than 3 bytes | not executed | OppManager.AsWrittenFirstFragmentFaults | OppManager.MalformedFirstFragmentIsRefused |
| dom/system/gonk/radio/nsRilWorker.cpp:1762 | convertToHalPdpType compares with "IPV4V6n" | "IPV4V6" converts to UNKNOWN | "IPV4V6" converts to IPV4V6 | not executed | RilWorker.AsWrittenDualStackIsUnknown | RilWorker.PdpTypeRoundTrip |
