# Verification of the UAV TESLA authentication system

This project models the state machines and codecs of the UAV TESLA broadcast-authentication system and proves
properties of them. Sockets, JSON text, hash functions and clocks are inputs: a hash is any function on byte strings,
"is one JSON object" is any predicate on byte strings, and time and the success of a send are parameters of each step.
Code that changes state in place is modelled by classes and loops; each such method is proved equal to a transition
function, and the results below are proved about those functions over all inputs and all runs.

* **File transport** (`TcpFrame`, `FileUpload`, `FileUploadSession`, `FileDelivery`): frames, the stream decoder, the
  back-pressured upload pump, the receiving session and the dispatch of decoded frames, up to one theorem from file to
  file (`UploadDelivers`).
* **UDP authentication packets** (`UdpPacket`, `UdpCodec`, `SenderRound`, `KeyChain`, `CommunicationCost`, `MacInput`):
  a codec without type or length fields that is a bijection for each context, the round a sender builds, where each
  chain key travels, what the round costs, and the separation of MAC inputs.
* **KS+RS location** (`Primes`, `Polynomials`, `KsRsMatrix`, `KsRsBuilder`, `KsRsVerifier`): parameter search, matrix
  construction, and exactly when the verifier locates corrupted packets.
* **Robustness-test admission** (`ManagerExperiment`, `ManagerController`, `ManagerAnswers`, `AttackEndpoint`,
  `Admission`, `AdmissionRuns`, `SendScheduler`): the handshake between manager, test endpoint and Receivers under every
  interleaving, exactly when each message is sent, that a usable attack can always be brought to run and a stop ends it
  for good, and the earliest-due scheduler.
* **Round control** (`RoundTimeline`, `RoundGate`, `RoundRuns`, `RoundControl`, `Authority`): pause and resume, preparation
  and the acknowledgement gate, exactly when a round starts and ends over whole runs, and unique issued material.
* **Bounded queues** (`SendQueue`, `MonitorQueues`, `MetricStore`).
* `Arithmetic` and `Bytes` hold shared facts about division, big-endian numbers and blocks.

`dafny verify dfyconfig.toml` checks the whole project.

## Where the code does less than it suggests

* **KS+RS location.** The plan dialog (apps/attack_test_gui/AttackExecutionController.cpp:224-244) asks for confirmation
  only beyond the detection threshold t, which suggests that up to t positions are always located. With the parameters
  the search chooses this holds for a group if and only if t*(j-1) < k+2t, for message length k and the number j of
  base-q digits that the positions of the group need (`LocatesIff`). In a full group j is k, and the guard reads
  (t-1)*(k-3) < 3. For 4096 positions and t = 4 it fails (`LargeGroupFails`): then some intact packet is reported bad. A
  short last group of that round is still located (`ShortGroupLocated`).
* **Disclosure delay.** A round whose delay exceeds its number of data intervals passes the parameter checks, but its
  datagrams cannot be built (`BuildRound`): the first trailing interval would disclose a key that does not exist. One
  packet with a delay of two is such a round (`DelayBeyondRound`).
* **Pause points.** The elapsed interval count is truncated to 32 bits before it is used. A pause is sound exactly when
  the interval it lands on fits (`PauseSoundIff`); beyond that it can lie in the past (`PauseInThePast`).
* **Ready flag.** A ready report raises the ready flag of the manager whether or not the mappings of the plan are still
  in place. The flag is backed by installed mappings exactly when those of the held plan were not cleared before
  (`ReadyIsBackedIff`); `ReadyFlagCanBeStale` is a run in which they were. Admission is therefore stated at the endpoint.
* **Preparing while a round runs.** The main window disables its button then
  (apps/manager_gui/ManagerMainWindow.cpp:1128-1130), so only a direct call of the controller gets there. The preparation
  is refused, but it first clears what the running round needs: its identifier, participants and interval length. The round then never ends by itself, even when every owed result arrives
  (`AbandonedRound`), a stop reaches no node, and a pause divides by zero (`AbandonedUntilStopped`). A round ends with
  its last owed result exactly when no preparation was attempted while it ran (`EndsExactlyWhenComplete`).
* **Upload after an upload.** A file is handed on exactly when no earlier upload of its connection is still in progress
  at the node; otherwise the node refuses it and forgets both (`UploadDelivers`). A failed write makes the manager drop
  an upload without telling the node, so the next upload of that connection is lost (`NextUploadLost`).

## Model

| member | source | states |
|---|---|---|
| Bytes.ReadWritten | common/protocol/src/BinaryCodecUtilities.h:13-27 | A number below 256^n that is written big-endian on n bytes reads back as itself |
| Bytes.WrittenRead | common/protocol/src/BinaryCodecUtilities.h:47-75 | Any n bytes are the big-endian form of the number they read as, so the integer codec is a bijection |
| Bytes.BigEndianAt | common/protocol/src/BinaryCodecUtilities.h:13-27 | The most significant byte comes first: byte i of n counts 256^(n-1-i) |
| Bytes.ByteBuffer.AppendUint32 | common/protocol/src/BinaryCodecUtilities.h:13-19 | Appends exactly the four network-order bytes of a 32-bit value |
| Bytes.ByteBuffer.AppendUint | common/protocol/src/BinaryCodecUtilities.h:21-27 | One shift per byte appends exactly the big-endian form |
| Bytes.BinaryReader.ReadUint | common/protocol/src/BinaryCodecUtilities.h:47-75 | Reads the next bytes as one big-endian number and advances, or changes nothing when too few are left |
| Bytes.BinaryReader.ReadBytes | common/protocol/src/BinaryCodecUtilities.h:77-99 | Returns exactly the next n bytes and advances, or changes nothing when too few are left |
| Bytes.SplitJoin | common/protocol/src/UdpAuthenticationPacketCodec.cpp:82-85 | Blocks laid end to end split back into the same blocks |
| Bytes.JoinSplit | common/protocol/src/UdpAuthenticationPacketCodec.cpp:325-333 | Splitting a run of 32-byte fields and joining them again gives the same bytes |
| Bytes.JoinAt | common/protocol/src/UdpAuthenticationPacketCodec.cpp:82-85 | Block k lies at 32*k |
| TcpFrame.EncodeFrame | common/protocol/src/TcpFrame.cpp:115-150 | Produces the length prefix, type byte and payload of a valid frame; refuses a payload beyond 32 bits |
| TcpFrame.DecodeFrame | common/protocol/src/TcpFrame.cpp:152-249 | Whole-frame decoding with every rejection of the codec |
| TcpFrame.DecodeChunkPayload | common/protocol/src/TcpFrame.cpp:204-240 | A file-chunk payload is accepted only with its exact declared length, non-zero chain and index and some data |
| TcpFrame.DecodeWire | common/protocol/src/TcpFrame.cpp:115-249 | decode(encode(f)) == f for every encodable frame |
| TcpFrame.WireDecoded | common/protocol/src/TcpFrame.cpp:115-249 | Whatever decodes is the one encoding of the frame it decodes to |
| TcpFrame.FrameLayout | common/protocol/src/TcpFrame.cpp:115-150 | A frame is the length of what follows in network order, the type byte 1 or 2, and for control text the text itself |
| TcpFrame.ChunkLayout | common/protocol/src/TcpFrame.cpp:115-150 | A chunk carries chain, index and data length in network order at 5, 13 and 17, then its data |
| TcpFrame.DecodeErrorIff | common/protocol/src/TcpFrame.cpp:152-249 | Exactly when which error is reported; a chunk is accepted if and only if it is the encoding of a valid one |
| TcpFrame.HeadExactly | common/protocol/src/TcpFrame.cpp:288-341 | A stream waits exactly until the declared length has arrived; a length of 0 or above the limit is reported before that |
| TcpFrame.StreamDecoder.ScanFront | common/protocol/src/TcpFrame.cpp:288-341 | What the front of the kept-back bytes holds: too little, a violation, or one frame and its size |
| TcpFrame.StreamDecoder.Consume | common/protocol/src/TcpFrame.cpp:280-348 | One call yields the frames, error and leftover that the whole byte stream so far determines |
| TcpFrame.DrainResumes | common/protocol/src/TcpFrame.cpp:280-348 | Bytes after an error-free prefix decode as if the leftover of the prefix came first |
| TcpFrame.DrainErrorFinal | common/protocol/src/TcpFrame.cpp:280-348 | Nothing received after a violation changes what was reported |
| TcpFrame.PendingIncomplete | common/protocol/src/TcpFrame.cpp:280-348 | Bytes kept back hold no complete frame and stay shorter than a length prefix plus the longest frame |
| TcpFrame.FeedIsDrain | common/protocol/src/TcpFrame.cpp:280-348 | Feeding any chunks one by one up to the first error equals decoding their concatenation at once |
| TcpFrame.SegmentationIndependence | common/protocol/src/TcpFrame.cpp:280-348 | Two segmentations of the same bytes give the same frames, error and leftover |
| TcpFrame.DrainConserves | common/protocol/src/TcpFrame.cpp:280-348 | Input bytes = re-encoded frames, then the leftover; frames found before an error are a prefix of the input |
| TcpFrame.DrainWires | common/protocol/src/TcpFrame.cpp:280-348 | Encoded frames are recovered exactly, whatever follows them |
| FileUpload.ManagedEndpoint.PumpFileUpload | apps/manager_gui/ManagerNetworkController.cpp:687-765 | The pump loop: chunks while the backlog allows, then the End frame, with every early return |
| FileUpload.ManagedEndpoint.QueueFileUpload | apps/manager_gui/ManagerNetworkController.cpp:506-552 | Rejects an unusable request without any change; otherwise announces the file and starts the pump |
| FileUpload.PumpChunksSends | apps/manager_gui/ManagerNetworkController.cpp:700-737 | The chunk loop appends exactly the next chunks of the file, without gaps, also when a write is refused |
| FileUpload.PumpSends | apps/manager_gui/ManagerNetworkController.cpp:687-765 | A pump that ends an upload successfully has sent all chunks and then the End frame with the true totals |
| FileUpload.PumpBackpressure | apps/manager_gui/ManagerNetworkController.cpp:700-746 | Whatever is written leaves the backlog at or below 256 KiB, and a pending upload leaves bytes whose departure wakes it |
| FileUpload.PumpStops | apps/manager_gui/ManagerNetworkController.cpp:700-765 | A pump writes at most what the socket takes, grows the backlog by exactly those bytes, leaves an upload pending only when the next chunk exceeds 256 KiB or the End reserve is not free, and gives it up only at a refused write |
| FileUpload.OtherSteps | apps/manager_gui/ManagerNetworkController.cpp:687-765 | What other control frames, drains and a disconnect do to the connection of an upload |
| FileUpload.PlaySends | apps/manager_gui/ManagerNetworkController.cpp:687-765 | The same over every run of pumps, socket drains, other control frames and disconnects |
| FileUpload.DrainingSocketCompletes | apps/manager_gui/ManagerNetworkController.cpp:700-765 | Over an accepting socket an upload completes in every run with one pump for each remaining chunk, plus one, that finds at most 196587 bytes waiting, whatever other pumps, drains and control frames come in between |
| FileUploadSession.UploadSession.BeginUpload | common/tesla/src/FileUploadSession.cpp:9-40 | Opens a session or reports why not, unchanged on error |
| FileUploadSession.UploadSession.AppendChunk | common/tesla/src/FileUploadSession.cpp:42-77 | Takes only the next chunk of the right chain with exactly the expected size |
| FileUploadSession.UploadSession.CompleteUpload | common/tesla/src/FileUploadSession.cpp:79-112 | Returns the bytes and resets only when identity, chunk count and byte count all match |
| FileUploadSession.AcceptedIsChunking | common/tesla/src/FileUploadSession.cpp:42-77 | Accepted chunks are the unique chunking of the bytes received |
| FileUploadSession.ReceiveExactly | common/tesla/src/FileUploadSession.cpp:9-112 | The node returns a file if and only if it was sent all chunks of that file in order with matching totals |
| FileUploadSession.ErrorsIff | common/tesla/src/FileUploadSession.cpp:9-112 | Exactly when each operation of the session reports which error |
| FileDelivery.Delivered | common/protocol/src/TcpFrame.cpp:280-348 | Every segmentation of the bytes of valid frames decodes to those frames with nothing left over |
| FileDelivery.Connection.HandleFrame | apps/node_agent/src/TcpManagementServer.cpp:634-846 | What one decoded frame of a greeted manager does to the connection: chunk, begin, end, other message or malformed text, with a reset after every upload error |
| FileDelivery.HandleQuiet | apps/node_agent/src/TcpManagementServer.cpp:634-691 | While an upload is open, chunks mixed with unrelated messages do to the session exactly what the chunks alone do |
| FileDelivery.PlayQuiet | apps/manager_gui/ManagerNetworkController.cpp:687-765 | Over every run that completes an upload, only its chunks and unrelated messages lie between the Begin and the End frame |
| FileDelivery.NodeReceives | apps/node_agent/src/TcpManagementServer.cpp:724-846 | The frames of a completed upload make an idle node hand on exactly the file, once |
| FileDelivery.NodeRefuses | apps/node_agent/src/TcpManagementServer.cpp:753-799 | The same frames make a node with an upload in progress hand on nothing and become idle |
| FileDelivery.RefusedChunkEndsUpload | apps/node_agent/src/TcpManagementServer.cpp:677-704 | A refused chunk leaves the node idle, and what follows up to the next announcement hands on nothing |
| FileDelivery.MalformedEnds | apps/node_agent/src/TcpManagementServer.cpp:634-691 | After a malformed control message no frame has any effect |
| FileDelivery.HandsOnIff | apps/node_agent/src/TcpManagementServer.cpp:677-846 | For any announcement, chunks and end: an idle node hands on the file, once, if and only if both messages name the same upload, the chunks are those of the file in order and all totals are right; it is idle afterwards in any case |
| FileDelivery.UploadDelivers | apps/manager_gui/ManagerNetworkController.cpp:506-765 | End to end: file, chunks, frames, any pump and drain schedule, any segmentation, frame by frame dispatch, file; handed on if and only if no earlier upload was in progress |
| FileDelivery.NextUploadLost | apps/manager_gui/ManagerNetworkController.cpp:727-733 | After an upload dropped by a failed write, the next upload of the connection completes at the manager and hands on nothing |
| Primes.TestPrime | common/tesla/src/KsRsMatrix.cpp:60-86 | Trial division by odd numbers decides primality |
| Primes.NextPrime | common/tesla/src/KsRsMatrix.cpp:107-122 | The least prime at or above a value |
| Polynomials.AgreementBound | common/tesla/src/KsRsMatrix.cpp:174-191 | Two different polynomials with k coefficients agree at fewer than k points of the field |
| KsRsMatrix.FindMinExponent | common/tesla/src/KsRsMatrix.cpp:88-105 | The least positive exponent whose power covers the group, or 0 exactly when none fits a machine word |
| KsRsMatrix.FindBestParameters | common/tesla/src/KsRsMatrix.cpp:194-240 | A feasible parameter set with the fewest rows over all prime field sizes up to 10000, or none exactly when none exists |
| KsRsBuilder.PowMod | common/tesla/src/KsRsMatrix.cpp:124-146 | Square and multiply computes the modular power |
| KsRsBuilder.Coefficients | common/tesla/src/KsRsMatrix.cpp:161-170 | The in-place digit loop leaves the base-q digits of the position |
| KsRsBuilder.EvaluateSymbol | common/tesla/src/KsRsMatrix.cpp:177-187 | The evaluation loop computes the polynomial at the point, modulo q |
| KsRsBuilder.MarkColumn | common/tesla/src/KsRsMatrix.cpp:159-191 | Marks one column: one row for each evaluation point and nothing else |
| KsRsBuilder.BuildRows | common/tesla/src/KsRsMatrix.cpp:148-192 | The built matrix holds row r, column c exactly when the symbol of column c at point r/q is r mod q |
| KsRsMatrix.ContainsIff | common/tesla/src/KsRsMatrix.cpp:148-192 | Row x*q+s holds a column exactly when the sum of its base-q digits times the powers of x is s modulo q |
| KsRsBuilder.Matrix.Create | common/tesla/src/KsRsMatrix.cpp:18-33 | Construction succeeds exactly for a sane threshold and some feasible parameters, with the fewest rows, and names the failing check |
| KsRsMatrix.CoveredBound | common/tesla/src/KsRsMatrix.cpp:148-192 | A set of m columns can hide another column at no more than m*(k-1) points |
| KsRsMatrix.IsolatedByRootBound | common/tesla/src/KsRsMatrix.cpp:148-192 | With t*(k-1) below the code length some row holds a given column and none of any t others |
| KsRsMatrix.NotIsolated | common/tesla/src/KsRsMatrix.cpp:148-192 | Otherwise some t columns cover every row of column q^(k-1) |
| KsRsMatrix.ShortContains | common/tesla/src/KsRsMatrix.cpp:157-191 | On columns below q^j the matrix is the one of messages of length j: the digits beyond are zero |
| KsRsMatrix.SeparatesIff | common/tesla/src/KsRsMatrix.cpp:148-240 | Of the first n columns the chosen matrix separates each from every t others if and only if t*(j-1) < k+2t, for the j digits that n positions need |
| KsRsVerifier.AggregateInputInjective | common/tesla/src/SamdAggregator.cpp:12-22 | The tagged concatenation of MACs determines the MACs |
| KsRsVerifier.AggregateLayout | common/tesla/src/SamdAggregator.cpp:12-22 | MAC i lies at 33*i behind a byte of value 1 |
| KsRsVerifier.AggregateMacList | common/tesla/src/SamdAggregator.cpp:7-23 | Hashes every MAC behind its domain byte |
| KsRsVerifier.Aggregate | common/tesla/src/SamdAggregator.cpp:25-58 | One tag for each row over the MACs that the row selects; an empty or oversized list is refused |
| KsRsVerifier.ScanRow | common/tesla/src/KsRsMatrix.cpp:333-361 | Reports a missing slot, or the positions of the row and their MACs |
| KsRsVerifier.ScanAndMark | common/tesla/src/KsRsMatrix.cpp:332-402 | One row of the scan marks what a passing row holds and extends the location trace |
| KsRsVerifier.Verify | common/tesla/src/KsRsMatrix.cpp:308-428 | Good positions, bad positions, threshold flag and trace, for exactly the inputs that are not refused |
| KsRsVerifier.GoodIsIntact | common/tesla/src/KsRsMatrix.cpp:363-383 | Unless two compared row inputs collide, a position reported good has the MAC the sender aggregated |
| KsRsVerifier.IntactRowPasses | common/tesla/src/KsRsMatrix.cpp:356-383 | A row that holds an intact position and no corrupted one passes |
| KsRsVerifier.LocatesIff | common/tesla/src/KsRsMatrix.cpp:308-428 | In a group of any accepted size, short last groups included, every loss of at most t positions is located exactly if and only if t*(j-1) < k+2t; in a full group j is k |
| KsRsVerifier.ThresholdFlagExact | common/tesla/src/KsRsMatrix.cpp:407-428 | Under that guard the flag is raised exactly when more than t positions are corrupted, and otherwise the bad list is the corrupted set |
| KsRsVerifier.GuardForm | common/tesla/src/KsRsMatrix.cpp:194-240 | The guard of a full group in terms a caller can compute: (t-1)*(k-3) < 3 |
| KsRsVerifier.LargeGroupFails | common/tesla/src/KsRsMatrix.cpp:194-240 | For 4096 positions and threshold 4 the search picks (13, 4, 12), and some loss of at most four positions is then not located, whatever the MACs and the hash are |
| KsRsVerifier.ShortGroupLocated | common/tesla/src/KsRsMatrix.cpp:308-320 | With those parameters every group of at most 2197 positions is located |
| UdpPacket.IntervalPackets | common/protocol/src/UdpAuthenticationPacket.cpp:139-149 | Interval i holds exactly packets (i-1)*ppi+1 to i*ppi |
| UdpPacket.OneEndPerGroup | common/protocol/src/UdpAuthenticationPacket.cpp:161-173 | Each group, also a short last one, has exactly one group-end packet |
| UdpPacket.GroupInsideInterval | common/protocol/src/UdpAuthenticationPacket.cpp:90-97 | No group crosses an interval boundary |
| UdpCodec.Encode | common/protocol/src/UdpAuthenticationPacketCodec.cpp:88-159 | Encodes exactly the packets the context accepts and names the failing check otherwise |
| UdpCodec.ValidateData | common/protocol/src/UdpAuthenticationPacketCodec.cpp:22-79 | The field-by-field checks of a data packet name the first violation, or none exactly for the packets that are encoded |
| UdpCodec.EncodeData | common/protocol/src/UdpAuthenticationPacketCodec.cpp:120-159 | Appends the conditional fields that the packet has, in wire order |
| UdpCodec.DecodePacket | common/protocol/src/UdpAuthenticationPacketCodec.cpp:194-300 | Imperative decoding agrees with the decoding function on every datagram, including every error |
| UdpCodec.ReadData | common/protocol/src/UdpAuthenticationPacketCodec.cpp:303-347 | Reads message, key, MAC or tags in order from the announced length |
| UdpCodec.DecodeEncode | common/protocol/src/UdpAuthenticationPacketCodec.cpp:88-348 | decode(encode(p)) == p for every encodable packet |
| UdpCodec.EncodeDecode | common/protocol/src/UdpAuthenticationPacketCodec.cpp:88-348 | Every accepted datagram is the encoding of the packet it decodes to |
| UdpCodec.CodecBijection | common/protocol/src/UdpAuthenticationPacketCodec.cpp:88-348 | For each context: decode(b) is p if and only if p is encodable and b is its encoding |
| UdpCodec.HeaderLayout | common/protocol/src/UdpAuthenticationPacketCodec.cpp:88-156 | Chain, interval and index in network order at 0, 8 and 12; a disclosure has index 0 |
| UdpCodec.WireLayout | common/protocol/src/UdpAuthenticationPacketCodec.cpp:88-156 | The disclosed key or the message at 16, the key at 48 if there is one, and the MAC or fast tag in the last 32 bytes |
| UdpCodec.TagLayout | common/protocol/src/UdpAuthenticationPacketCodec.cpp:82-85 | The tag of row k lies k blocks behind the start of the group details |
| UdpCodec.DecodeErrorIff | common/protocol/src/UdpAuthenticationPacketCodec.cpp:158-364 | Exactly when decoding reports which error, in terms of the chain, interval, index and length of the datagram |
| UdpCodec.EncodeErrorIff | common/protocol/src/UdpAuthenticationPacketCodec.cpp:21-113 | Exactly when encoding refuses a packet and why |
| UdpCodec.TamperedMessage | apps/attack_test_gui/AttackExecutionController.cpp:451-465 | Overwriting one message byte of an accepted datagram gives an accepted packet that differs in that byte only |
| UdpCodec.FitsDatagramIff | common/protocol/src/UdpAuthenticationPacket.cpp:99-103 | Every packet of every round fits 65507 bytes if and only if the tag cap is at most 2043 |
| KeyChain.Create | common/crypto/src/KeyChain.cpp:10-39 | The array filled from the tail is a chain: each key is the hash of the next, the last the hash of the seed; both refusals |
| KeyChain.VerifyDisclosedKey | common/crypto/src/KeyChain.cpp:66-82 | Accepts exactly when index hashes of the key reach the commitment |
| KeyChain.KeysVerify | common/crypto/src/KeyChain.cpp:10-82 | Every key of a created chain verifies against K0 |
| KeyChain.EarlierKeys | common/crypto/src/KeyChain.cpp:30-36 | A disclosed key determines every earlier key |
| KeyChain.ForgeryIsCollision | common/crypto/src/KeyChain.cpp:66-82 | Another key that verifies at the same index yields an explicit hash collision |
| KeyChain.VerifiesIff | common/crypto/src/KeyChain.cpp:66-82 | Under an injective hash a key verifies at index i exactly when it is key i |
| SenderRound.FirstCarriesKey | common/tesla/src/AuthenticationSenderRuntime.cpp:593-611 | The rule of the builder for disclosing a key picks exactly the packets for which the context demands one |
| SenderRound.DisclosureForPacket | common/tesla/src/AuthenticationSenderRuntime.cpp:593-611 | The key the builder attaches to a packet is the one the context expects there |
| SenderRound.BuildNativeInterval | common/tesla/src/AuthenticationSenderRuntime.cpp:613-669 | The datagrams of an interval are the encodings of exactly its packets, in order |
| SenderRound.BuilderGroup | common/tesla/src/AuthenticationSenderRuntime.cpp:691-705 | The builder ends each group where the context places the group end, also at the end of the round |
| SenderRound.BuildImprovedInterval | common/tesla/src/AuthenticationSenderRuntime.cpp:671-764 | Group by group, the encodings of exactly the packets of the interval, tags on the group ends only |
| SenderRound.BuildTail | common/tesla/src/AuthenticationSenderRuntime.cpp:480-507 | A trailing disclosure is built exactly when its key exists |
| SenderRound.ComputedLastValue | common/tesla/src/AuthenticationSenderRuntime.cpp:182-190 | Under the cap of 200000 packets the 32-bit product of the builder never wraps, so the end it computes is the last packet of the interval |
| SenderRound.BuildDataInterval | common/tesla/src/AuthenticationSenderRuntime.cpp:510-560 | The datagrams of an interval are the encodings of exactly its packets, in both modes |
| SenderRound.BuildRound | common/tesla/src/AuthenticationSenderRuntime.cpp:440-508 | The round is built if and only if the delay does not exceed the number of data intervals; then every interval holds its datagrams and every trailing interval its disclosure |
| SenderRound.ConfigureSender | common/tesla/src/AuthenticationSenderRuntime.cpp:182-198 | An oversized round is refused before anything is built; otherwise the delay decides |
| SenderRound.DelayBeyondRound | common/tesla/src/AuthenticationSenderRuntime.cpp:480-507 | One packet with a delay of two is accepted as a context and asks for key number 0 |
| SenderRound.SlotContents | common/tesla/src/AuthenticationSenderRuntime.cpp:613-764 | What a receiver decodes from slot k of data interval i: the packet with index (i-1)*ppi+1+k and the message of that index; in native mode the MAC of that index, in improved mode the group details exactly at multiples of the group size and at the end of the round, for the packets since the previous multiple |
| SenderRound.PacketTravels | common/tesla/src/AuthenticationSenderRuntime.cpp:613-764 | Each packet of the round travels in slot (index-1) mod ppi of interval (index-1)/ppi + 1 |
| SenderRound.IntervalSlots | common/tesla/src/AuthenticationSenderRuntime.cpp:515-531 | A data interval sends a full interval of packets, the last one what is left, and nothing else |
| SenderRound.TailContents | common/tesla/src/AuthenticationSenderRuntime.cpp:480-507 | A trailing interval sends one datagram, which discloses the key of the interval one delay before it |
| SenderRound.AcceptedKeyInRange | common/protocol/src/UdpAuthenticationPacketCodec.cpp:194-300 | Whatever datagram is accepted, forged or genuine: it carries a key exactly if it is a disclosure or the first packet of an interval after the delay, and the key has a number between 1 and the last interval |
| SenderRound.KeyInSlot | common/protocol/src/UdpAuthenticationPacket.cpp:151-159 | In a built round a datagram discloses a key exactly in the first slot of an interval after the delay, and then key interval-delay |
| SenderRound.KeyDisclosed | common/tesla/src/AuthenticationSenderRuntime.cpp:480-507 | Each key 1..F is disclosed in the first slot of interval key+delay and verifies against the commitment |
| CommunicationCost.MultiplyFieldCount | common/metrics/src/CommunicationCost.cpp:11-20 | A field count is accepted exactly when 32 times it fits 64 bits |
| CommunicationCost.Accumulator.AddNativeDataPacket | common/metrics/src/CommunicationCost.cpp:103-112 | Adds a message and a MAC, refused in improved mode without any change |
| CommunicationCost.Accumulator.AddImprovedDataPacket | common/metrics/src/CommunicationCost.cpp:114-133 | Adds a message, the tags and the group tag, refused in native mode without any change |
| CommunicationCost.Accumulator.RecordSent | common/tesla/src/AuthenticationSenderRuntime.cpp:1154-1221 | A sent datagram adds the fields of the packet it decodes to, and nothing if it does not decode |
| CommunicationCost.Accumulator.RecordAll | common/tesla/src/AuthenticationSenderRuntime.cpp:1154-1221 | After a run of datagrams the 64-bit counters are the sums of their fields |
| CommunicationCost.RoundCost | common/metrics/src/CommunicationCost.cpp:23-145 | Over a whole round the counters reach the closed form for F=ceil(N/ppi) and G=ceil(N/g), without wrapping |
| CommunicationCost.RoundBytes | common/metrics/src/CommunicationCost.cpp:23-145 | The bytes on the wire are the closed form plus sixteen header bytes per datagram |
| CommunicationCost.AccountRound | common/tesla/src/AuthenticationSenderRuntime.cpp:440-508 | A round is built and recorded exactly when its delay fits, and then the counters hold the closed form |
| MacInput.EncodePacket | common/tesla/src/AuthenticationInputEncoder.cpp:8-29 | The packet MAC input, field by field |
| MacInput.EncodeGroup | common/tesla/src/AuthenticationInputEncoder.cpp:31-72 | The fast-group input of a complete group; a missing packet or too many tags is refused |
| MacInput.PacketLayout | common/tesla/src/AuthenticationInputEncoder.cpp:8-29 | Where each field of a packet input lies |
| MacInput.GroupParts | common/tesla/src/AuthenticationInputEncoder.cpp:31-72 | Where the sender, the fixed fields, the slots and the tags of a group input lie |
| MacInput.HeadLayout | common/tesla/src/AuthenticationInputEncoder.cpp:31-72 | Chain, interval, group and number of slots in this order |
| MacInput.SlotLayout | common/tesla/src/AuthenticationInputEncoder.cpp:31-72 | Slot k is packet index first+k and its message |
| MacInput.PacketInjective | common/tesla/src/AuthenticationInputEncoder.cpp:8-29 | Different packets never share a MAC input |
| MacInput.GroupInjective | common/tesla/src/AuthenticationInputEncoder.cpp:31-72 | Different complete groups or tag vectors never share a fast-group input |
| MacInput.KindsSeparate | common/tesla/src/AuthenticationInputEncoder.cpp:8-72 | No packet MAC input is ever a fast-group input |
| MacInput.LabelSeparates | common/tesla/src/TeslaMac.cpp:47-60 | No packet MAC input equals the label from which the fast-group key is derived under the same key |
| ManagerController.ExperimentController.ClearSourceMappings | apps/manager_gui/ManagerAttackExperimentController.cpp:673-704 | Forgets open requests and attempts a Clear for every Receiver while a context is held |
| ManagerController.ExperimentController.RejectCurrentPlan | apps/manager_gui/ManagerAttackExperimentController.cpp:706-723 | Sends the refusal, clears the mappings and drops the plan |
| ManagerController.ExperimentController.ClearPreparedState | apps/manager_gui/ManagerAttackExperimentController.cpp:725-745 | Back to the initial state, with Clears when asked |
| ManagerController.ExperimentController.InstallSourceMappings | apps/manager_gui/ManagerAttackExperimentController.cpp:566-620 | Installs on every Receiver or, at the first failing send, clears everything |
| ManagerController.ExperimentController.PrepareContext | apps/manager_gui/ManagerAttackExperimentController.cpp:87-167 | Replaces the prepared state and keeps the new context only if it could be sent |
| ManagerController.ExperimentController.ProcessPlan | apps/manager_gui/ManagerAttackExperimentController.cpp:331-385 | Refuses a second or mismatching plan, installs mappings or decides at once for a DoS plan |
| ManagerController.ExperimentController.ProcessReady | apps/manager_gui/ManagerAttackExperimentController.cpp:387-404 | A ready report of the held plan raises the ready flag |
| ManagerController.ExperimentController.ProcessStatus | apps/manager_gui/ManagerAttackExperimentController.cpp:406-429 | A status report of the held plan updates the running flag; a terminal one clears the mappings |
| ManagerController.ExperimentController.ProcessAcknowledgement | apps/manager_gui/ManagerAttackExperimentController.cpp:465-500 | A matching answer is taken off; a negative one rejects the plan, the last positive one accepts it |
| ManagerController.ExperimentController.HandleNodesChanged | apps/manager_gui/ManagerAttackExperimentController.cpp:503-564 | Losing the test endpoint or a chosen Receiver cleans up; while running it also stops |
| ManagerController.ExperimentController.StartPrepared | apps/manager_gui/ManagerAttackExperimentController.cpp:169-196 | Starts only a ready plan far enough ahead |
| ManagerController.ExperimentController.StopPrepared | apps/manager_gui/ManagerAttackExperimentController.cpp:198-226 | Stops the held plan and clears its mappings, or clears a mere context |
| ManagerController.ExperimentController.Handle | apps/manager_gui/ManagerAttackExperimentController.cpp:310-500 | Every event keeps the manager invariant and the tracking of installed mappings |
| ManagerExperiment.StepKeepsValid | apps/manager_gui/ManagerAttackExperimentController.cpp:331-745 | Every handler keeps: a held plan matches the context; no plan means no Receivers and no open requests; Receivers need a context |
| ManagerExperiment.StepTracksInstalls | apps/manager_gui/ManagerAttackExperimentController.cpp:566-704 | A Receiver that was sent an Install stays in the set until a Clear was attempted for it |
| ManagerAnswers.SendsIff | apps/manager_gui/ManagerAttackExperimentController.cpp:87-745 | In a valid state a step sends a message to the test endpoint if and only if the event calls for it: each kind of message with its exact condition, identity and urgency |
| ManagerAnswers.OneMessage | apps/manager_gui/ManagerAttackExperimentController.cpp:87-745 | Never more than one message to the test endpoint in one step |
| ManagerAnswers.StopReachesEndpoint | apps/manager_gui/ManagerAttackExperimentController.cpp:198-226 | In any state with a held plan a stop sends exactly that stop while the link is up, lowers every flag and keeps the plan |
| ManagerAnswers.LostReceiverStops | apps/manager_gui/ManagerAttackExperimentController.cpp:530-555 | The same with the emergency stop when a picked Receiver is gone while the attack runs |
| ManagerAnswers.InstallSentIff | apps/manager_gui/ManagerAttackExperimentController.cpp:566-620 | The picked Receivers are asked in order, each with its own request, exactly up to the first that cannot be reached |
| ManagerAnswers.ClearSentIff | apps/manager_gui/ManagerAttackExperimentController.cpp:673-745 | A Clear is attempted exactly for the Receivers of mappings that end, and for those of an installation that is taken back |
| ManagerAnswers.HoldsIff | apps/manager_gui/ManagerAttackExperimentController.cpp:87-745 | What a step makes of the context and the held plan, whatever arrives |
| ManagerAnswers.FlagsIff | apps/manager_gui/ManagerAttackExperimentController.cpp:87-745 | Exactly what raises and lowers the ready, pending and running flags |
| ManagerAnswers.MappingsIff | apps/manager_gui/ManagerAttackExperimentController.cpp:465-745 | What a step makes of the Receivers, the open requests and the installed mark |
| ManagerAnswers.RequestsAreNew | apps/manager_gui/ManagerAttackExperimentController.cpp:566-620 | No request number is used twice |
| AttackEndpoint.CheckIndexes | apps/attack_test_gui/AttackExecutionController.cpp:196-209 | True exactly when every target lies in the round |
| AttackEndpoint.ExceedsThreshold | apps/attack_test_gui/AttackExecutionController.cpp:226-242 | True exactly when some group has more targets than the threshold |
| AttackEndpoint.TargetsCounted | apps/attack_test_gui/AttackExecutionController.cpp:226-242 | The count of group g is the number of targets above (g-1)*size up to g*size |
| AttackEndpoint.ExecutionController.ConfigureContext | apps/attack_test_gui/AttackExecutionController.cpp:139-167 | A context drops any plan |
| AttackEndpoint.ExecutionController.PreparePlan | apps/attack_test_gui/AttackExecutionController.cpp:169-272 | Takes a plan exactly when the state, identity, index range and confirmed threshold allow it |
| AttackEndpoint.ExecutionController.SubmitPlan | apps/attack_test_gui/AttackTestNetworkController.cpp:307-368 | Uses up an identifier, prepares and sends the plan, and takes it back when the send fails |
| AttackEndpoint.ExecutionController.AcceptPlan | apps/attack_test_gui/AttackExecutionController.cpp:274-298 | Only the pending plan with the same identity becomes ready |
| AttackEndpoint.ExecutionController.ScheduleStart | apps/attack_test_gui/AttackExecutionController.cpp:324-359 | Only the ready plan with the same identity is scheduled, far enough ahead |
| AttackEndpoint.ExecutionController.HandleMessage | apps/attack_test_gui/AttackTestNetworkController.cpp:603-699 | Dispatch of control messages and the reply each one triggers |
| AttackEndpoint.AdvancesIff | apps/attack_test_gui/AttackExecutionController.cpp:274-369 | Exactly which message takes the endpoint to Ready, Scheduled or on, and that a stop, a refusal or a new context takes it off the way to execution |
| AttackEndpoint.AnswersIff | apps/attack_test_gui/AttackTestNetworkController.cpp:603-699 | A ready report answers exactly the acceptance, a status exactly a start or a stop |
| AttackEndpoint.StopTakesEffect | apps/attack_test_gui/AttackExecutionController.cpp:845-868 | A stop from any state with a plan on its way or in execution leaves it Stopped with plan and context, never admitted, and is answered so |
| AttackEndpoint.DropTakesEffect | apps/attack_test_gui/AttackExecutionController.cpp:300-322 | A new context or a refusal leaves the endpoint waiting for a plan, or idle |
| AttackEndpoint.StatusChannel.BroadcastExecutionStatus | apps/attack_test_gui/AttackTestNetworkController.cpp:780-803 | The status goes out only with a plan, and at most once in 250 ms unless forced |
| AttackEndpoint.StatusChannel.OnStateChanged | apps/attack_test_gui/AttackTestNetworkController.cpp:187-199 | Every change of state broadcasts the status, and a final state always |
| AttackEndpoint.BroadcastsAreSpaced | apps/attack_test_gui/AttackTestNetworkController.cpp:780-803 | Over every history of changes a status that is not final follows the one before by at least 250 ms |
| AttackEndpoint.BroadcastIff | apps/attack_test_gui/AttackTestNetworkController.cpp:780-803 | The latest change is broadcast, with identifier and new state, if and only if it is final or the last broadcast is 250 ms old |
| Admission.ManagerPendingOk | apps/manager_gui/ManagerAttackExperimentController.cpp:566-620 | Every Receiver chosen for the held plan still owes its answer or gave a positive one |
| Admission.ManagerDecisionsOk | apps/manager_gui/ManagerAttackExperimentController.cpp:465-500 | A tamper or replay plan is accepted only after every chosen Receiver answered positively |
| Admission.ApplyKeepsInv | apps/attack_test_gui/AttackTestNetworkController.cpp:603-699 | The invariant of manager, endpoint, Receivers and messages in flight survives every event, status broadcasts included |
| Admission.RunKeepsInv | apps/manager_gui/ManagerAttackExperimentController.cpp:310-500 | It holds in every run |
| Admission.ManagerKeepsHeld | apps/manager_gui/ManagerAttackExperimentController.cpp:465-500 | A held tamper or replay plan keeps its chosen Receivers until its mappings are cleared, and once accepted they are marked as installed until then |
| Admission.ScheduledOnlyWhenConfirmed | apps/attack_test_gui/AttackExecutionController.cpp:324-359 | At the moment the endpoint is scheduled for a tamper or replay plan every chosen Receiver had already acknowledged its Install |
| Admission.ReadyIsBackedIff | apps/manager_gui/ManagerAttackExperimentController.cpp:387-424 | In every run, after a ready report of the held tamper or replay plan the flag is up and every chosen Receiver has answered positively, and the mappings are in place on all of them if and only if they were not cleared before by a stop, the end of the round, a terminal status or the loss of a Receiver |
| Admission.ReadyFlagCanBeStale | apps/manager_gui/ManagerAttackExperimentController.cpp:387-404 | A run from the start, stopped between acceptance and the ready report, that ends with the flag up and no mapping |
| AdmissionRuns.AttackCanRun | apps/manager_gui/ManagerAttackExperimentController.cpp:87-500 | From every run any usable attack, on any number of Receivers, can be prepared, submitted, confirmed, accepted and started; then the endpoint executes that plan and the manager knows it |
| AdmissionRuns.AttackCompletes | apps/manager_gui/ManagerAttackExperimentController.cpp:406-429 | A running attack can complete: the endpoint reports it, and the manager lowers its flags and attempts to clear every picked Receiver |
| AdmissionRuns.SubmittedIff | apps/attack_test_gui/AttackTestNetworkController.cpp:307-368 | A submission puts a plan in flight if and only if it fits the context and the link is up; the plan names that context and a new number |
| AdmissionRuns.StopArrives | apps/manager_gui/ManagerAttackExperimentController.cpp:198-226 | A stop at the manager reaches the endpoint in two steps: it is Stopped and says so |
| AdmissionRuns.StartsAnew | apps/attack_test_gui/AttackExecutionController.cpp:845-868 | In every run, what is scheduled or executed after a stop is a plan with a new number that was submitted, then accepted, then started after that stop |
| AdmissionRuns.NothingStartsAfterStop | apps/attack_test_gui/AttackExecutionController.cpp:845-868 | So a stopped endpoint starts nothing until such a handshake has been made again |
| SendQueue.AuthenticationSendQueue.QueueDatagram | apps/pc_node_gui/PcNodeNetworkController.cpp:1111-1151 | Accepts below 8192 without a fault, flags an overflow, and asks for a drain exactly when none is scheduled |
| SendQueue.AuthenticationSendQueue.BeginDrain | apps/pc_node_gui/PcNodeNetworkController.cpp:1153-1177 | Takes up to 256 datagrams from the front; the scheduled flag stays only if more are waiting |
| SendQueue.AuthenticationSendQueue.RecordWriteFailure | apps/pc_node_gui/PcNodeNetworkController.cpp:1186-1197 | A short write drops the queue and raises the fault |
| SendQueue.AuthenticationSendQueue.PrepareRoundStart | apps/pc_node_gui/PcNodeNetworkController.cpp:886-895 | The fault is cleared only when nothing is waiting |
| SendQueue.AuthenticationSendQueue.JudgeCompletedResult | apps/pc_node_gui/PcNodeNetworkController.cpp:971-1027 | A completed result is deferred, replaced by an overrun, or passed |
| SendQueue.NextKeepsInv | apps/pc_node_gui/PcNodeNetworkController.cpp:1111-1208 | The queue invariant survives every interleaving of producers, drains, stops and starts |
| SendQueue.QueueSafety | apps/pc_node_gui/PcNodeNetworkController.cpp:1111-1208 | At most 8192 wait, batches are at most 256, a waiting datagram has a drain coming, and writes are the accepted datagrams in order |
| SendQueue.CompletedMeansWritten | apps/pc_node_gui/PcNodeNetworkController.cpp:971-1027 | A completed result means every datagram offered since the fault was last cleared was accepted and written |
| SendQueue.RefusalIsReported | apps/pc_node_gui/PcNodeNetworkController.cpp:1006-1027 | From the first refused datagram until a new start or stop no verdict is completed |
| SendQueue.VerdictIff | apps/pc_node_gui/PcNodeNetworkController.cpp:971-1027 | In every run a result waits exactly while datagrams wait, and is completed if and only if everything offered was written |
| SendQueue.AcceptedIff | apps/pc_node_gui/PcNodeNetworkController.cpp:1111-1150 | In every run a running node accepts a datagram if and only if none was refused or lost since the fault was last cleared and fewer than 8192 wait; it then waits last, with a drain posted by the first that waits |
| SendQueue.DeferredHasDrain | apps/pc_node_gui/PcNodeNetworkController.cpp:992-1004 | A result is deferred only while a drain is on its way |
| SendQueue.LossIsReported | apps/pc_node_gui/PcNodeNetworkController.cpp:1006-1027 | Once accepted datagrams are lost, no completed result is sent before a new start or stop |
| SendQueue.FailedWriteDrops | apps/pc_node_gui/PcNodeNetworkController.cpp:1177-1194 | A failed write gives up its batch and everything waiting, counts none of it as written, and raises the fault |
| SendQueue.DrainingCompletes | apps/pc_node_gui/PcNodeNetworkController.cpp:1153-1208 | Without new datagrams or failures the posted drains empty the queue and the waiting result passes |
| SendQueue.RoundGoesThrough | apps/pc_node_gui/PcNodeNetworkController.cpp:886-1208 | From every run that leaves the event thread idle, after a stop and a start a round of up to 8192 datagrams can be written completely and in order, and its result passes |
| RoundTimeline.RoundTimeline.StartRoundAt | apps/manager_gui/ManagerAuthenticationController.cpp:768-821 | Start of the timeline, with the rollback of a failed broadcast |
| RoundTimeline.RoundTimeline.PauseRound | apps/manager_gui/ManagerAuthenticationController.cpp:823-869 | Pause point and time in 32-bit arithmetic, refused near the end |
| RoundTimeline.RoundTimeline.ResumeRound | apps/manager_gui/ManagerAuthenticationController.cpp:871-901 | Continues with the next interval, two seconds after both now and the pause |
| RoundTimeline.RoundTimeline.StopRound | apps/manager_gui/ManagerAuthenticationController.cpp:903-925 | Ends a running round once the stop was sent |
| RoundTimeline.PauseSoundIff | apps/manager_gui/ManagerAuthenticationController.cpp:831-855 | An accepted pause lands after the first interval and more than one interval ahead if and only if its interval number fits 32 bits |
| RoundTimeline.PauseInThePast | apps/manager_gui/ManagerAuthenticationController.cpp:831-855 | 2^32 milliseconds into a round of one-millisecond intervals a pause is accepted for an instant that has passed |
| RoundTimeline.StartExactly | apps/manager_gui/ManagerAuthenticationController.cpp:768-821 | When a start is accepted or which error it gives, and the timeline it leaves |
| RoundTimeline.PauseExactly | apps/manager_gui/ManagerAuthenticationController.cpp:823-869 | The same for a pause, with point and time in plain arithmetic while interval numbers fit 32 bits |
| RoundTimeline.ResumeExactly | apps/manager_gui/ManagerAuthenticationController.cpp:871-901 | The same for a resume: the interval after the pause point, two seconds after the later of now and the pause |
| RoundTimeline.StopExactly | apps/manager_gui/ManagerAuthenticationController.cpp:903-925 | The same for a stop |
| RoundTimeline.AdvanceKeepsInv | apps/manager_gui/ManagerAuthenticationController.cpp:768-901 | Finished stretches stay consecutive and at least two seconds apart |
| RoundTimeline.AcceptedIff | apps/manager_gui/ManagerAuthenticationController.cpp:768-925 | Which commands a round takes: exactly when a start, a pause, a resume and a stop are accepted in any reachable state |
| RoundTimeline.WindowsOrdered | apps/manager_gui/ManagerAuthenticationController.cpp:794-901 | In every run the real-time windows of all scheduled intervals, up to the last of the round, are disjoint and in interval order |
| RoundTimeline.ScheduledOnce | apps/manager_gui/ManagerAuthenticationController.cpp:794-901 | Every interval of the round, or up to the pause point while paused, lies in exactly one stretch |
| RoundTimeline.PausesBounded | apps/manager_gui/ManagerAuthenticationController.cpp:841-847 | A round of n intervals is paused fewer than n/2 times |
| RoundTimeline.PauseReachesSender | common/tesla/src/AuthenticationSenderRuntime.cpp:346-370 | A pause arriving within the interval it was issued in is accepted by a sender that has run one interval ahead |
| RoundTimeline.ResumeReachesSender | common/tesla/src/AuthenticationSenderRuntime.cpp:372-392 | A resume arriving within 1.9 seconds is accepted |
| RoundTimeline.PauseTakenIff | common/tesla/src/AuthenticationSenderRuntime.cpp:346-370 | Exactly when a sender takes an issued pause |
| RoundTimeline.ResumeTakenIff | common/tesla/src/AuthenticationSenderRuntime.cpp:372-392 | A sender that took the pause takes an issued resume if and only if it arrives more than 100 ms ahead |
| RoundTimeline.ResumeMustFollow | common/tesla/src/AuthenticationSenderRuntime.cpp:372-392 | A sender takes no resume that skips or repeats an interval or lies before its pause |
| MonitorQueues.MonitorQueue.EnqueueObservation | apps/node_agent/src/TcpManagementServer.cpp:333-385 | Appends, evicts the first plain packet event for a failure, or drops |
| MonitorQueues.MonitorQueue.EnqueueMetric | apps/node_agent/src/TcpManagementServer.cpp:387-407 | Appends or drops at 8192 |
| MonitorQueues.MonitorQueue.SelectNext | apps/node_agent/src/TcpManagementServer.cpp:431-448 | Chooses between observation, batch and merging wait, and alternates |
| MonitorQueues.MonitorQueue.TakeBatch | apps/node_agent/src/TcpManagementServer.cpp:466-477 | Takes up to 64 metrics from the front |
| MonitorQueues.MonitorQueue.BroadcastNext | apps/node_agent/src/TcpManagementServer.cpp:431-484 | One round of the loop: what it sends and what it leaves, up to the merging wait |
| MonitorQueues.MonitorQueue.FinishWait | apps/node_agent/src/TcpManagementServer.cpp:451-477 | After the wait waiting observations go next and the batch is taken |
| MonitorQueues.NextKeepsInv | apps/node_agent/src/TcpManagementServer.cpp:333-484 | The accounting, ordering and alternation invariant survives every step |
| MonitorQueues.QueueSafety | apps/node_agent/src/TcpManagementServer.cpp:333-484 | Bounded queues, offered = sent + queued + dropped, offered order kept, metrics first-in first-out in batches of 1 to 64 |
| MonitorQueues.FailuresKept | apps/node_agent/src/TcpManagementServer.cpp:348-374 | A queued failure is never evicted |
| MonitorQueues.FailureTurnedAwayIff | apps/node_agent/src/TcpManagementServer.cpp:348-379 | A failure leaves the queue as it was if and only if the queue is full and holds no plain packet event; otherwise it is queued last and no other failure is lost |
| MonitorQueues.OfferExactly | apps/node_agent/src/TcpManagementServer.cpp:333-385 | With fewer than 4096 waiting every observation is queued last and nothing dropped; a full queue drops it or evicts exactly the first plain packet event for a failure |
| MonitorQueues.OfferMetricExactly | apps/node_agent/src/TcpManagementServer.cpp:387-407 | With fewer than 8192 waiting a metric is queued last, otherwise dropped and counted |
| MonitorQueues.SelectsExactly | apps/node_agent/src/TcpManagementServer.cpp:431-484 | What a selection sends in every run: the oldest observation or up to 64 of the oldest metrics, and exactly when it waits for more |
| MonitorQueues.WaitEndsExactly | apps/node_agent/src/TcpManagementServer.cpp:451-477 | The end of the merging wait sends up to 64 of the oldest metrics and gives the next turn to observations exactly if some have arrived |
| MonitorQueues.NotPassedTwice | apps/node_agent/src/TcpManagementServer.cpp:431-463 | Neither kind is passed over twice in a row while it waits |
| MonitorQueues.TurnsAlternate | apps/node_agent/src/TcpManagementServer.cpp:431-448 | While both kinds wait they take turns, whatever producers add in between |
| MonitorQueues.ArrivedDuringWaitGoNext | apps/node_agent/src/TcpManagementServer.cpp:451-463 | Observations that arrive during the merging wait go right after the batch that waited |
| MonitorQueues.BroadcastDrains | apps/node_agent/src/TcpManagementServer.cpp:431-484 | From every run the broadcaster can send everything that is queued, in order |
| SendScheduler.AttackScheduler.ProcessCapturedDatagram | apps/attack_test_gui/AttackExecutionController.cpp:371-517 | Every filter of a captured datagram, from the running state, plan kind and source address to the target list, then the tampering and one send task per repetition |
| SendScheduler.AttackScheduler.TakeDue | apps/attack_test_gui/AttackExecutionController.cpp:667-703 | Takes the first send task that is due earliest, never before its time and never after a stop request |
| SendScheduler.AttackScheduler.RecordSend | apps/attack_test_gui/AttackExecutionController.cpp:785-803 | Counts a send or an error |
| SendScheduler.AttackScheduler.BeginExecution | apps/attack_test_gui/AttackExecutionController.cpp:631-650 | A scheduled execution starts running unless a stop was requested |
| SendScheduler.AttackScheduler.AskWorkerToStop | apps/attack_test_gui/AttackExecutionController.cpp:845-852 | A stop request forgets what waits and what was captured |
| SendScheduler.AttackScheduler.WorkerEnded | apps/attack_test_gui/AttackExecutionController.cpp:853-868 | Once the worker has ended the execution counts as stopped |
| SendScheduler.TamperedPayload | apps/attack_test_gui/AttackExecutionController.cpp:451-465 | The tampered copy is accepted as the same packet with exactly one message byte changed |
| SendScheduler.XorBit | apps/attack_test_gui/AttackExecutionController.cpp:451-465 | The exclusive or with the mask flips exactly the bits of the mask |
| SendScheduler.TargetedIff | apps/attack_test_gui/AttackExecutionController.cpp:395-450 | The byte-level filters find exactly the datagrams that decode to a targeted data packet of the chain |
| SendScheduler.CaptureExactly | apps/attack_test_gui/AttackExecutionController.cpp:371-517 | What a datagram does: nothing, or its repetitions wait behind the others with their due times, or it counts as an error when they do not fit |
| SendScheduler.NextKeepsInv | apps/attack_test_gui/AttackExecutionController.cpp:486-515 | One step keeps sent + failed + pending + in hand + dropped = captured * repetitions |
| SendScheduler.RunAccounts | apps/attack_test_gui/AttackExecutionController.cpp:371-517 | In every run that equation holds, at most 4096 tasks wait and each index is captured once between stop requests |
| SendScheduler.SentInDueOrder | apps/attack_test_gui/AttackExecutionController.cpp:677-703 | In every run, with captures interleaved: a send task taken later but due earlier was captured after the other was taken, send tasks due together are taken in the order of capture, and none before its time |
| SendScheduler.TakenIsGenuine | apps/attack_test_gui/AttackExecutionController.cpp:479-510 | In every run each send task taken is the repetition that its number says of a targeted packet: a replay of the datagram itself, not before the delay and its gaps have passed, or a copy that decodes to the packet with one other message byte |
| SendScheduler.PhaseIff | apps/attack_test_gui/AttackExecutionController.cpp:631-650 | In every run the execution runs if and only if it began before any stop request and its worker has not ended |
| SendScheduler.NothingTakenAfterStop | apps/attack_test_gui/AttackExecutionController.cpp:845-868 | After a stop request nothing is taken, whatever follows |
| SendScheduler.TakesIff | apps/attack_test_gui/AttackExecutionController.cpp:667-703 | A send task is taken as soon as one is due, while the execution runs and no stop is pending |
| SendScheduler.RepetitionsGoOut | apps/attack_test_gui/AttackExecutionController.cpp:371-703 | Every execution of a plan with at most 4096 repetitions that sees a targeted packet can send all its repetitions, in order and each when it is due |
| SendScheduler.StopEnds | apps/attack_test_gui/AttackExecutionController.cpp:845-868 | Every execution can be stopped: what waits is forgotten, the task in hand is still sent, and then it ends |
| SendScheduler.DrainIsStableSort | apps/attack_test_gui/AttackExecutionController.cpp:677-703 | The order of sending what waits is the stable sort by due time |
| RoundGate.Controller.PrepareRound | apps/manager_gui/ManagerAuthenticationController.cpp:335-550 | Checks the request, issues material, sends every configuration or resets; while a round runs it clears that round |
| RoundGate.Controller.IssueMaterials | apps/manager_gui/ManagerAuthenticationController.cpp:409-431 | One new material for each selected sender, under its node name; the first sender that is not connected or gets none ends it and leaves those issued used up |
| RoundGate.Controller.ProcessConfigurationAck | apps/manager_gui/ManagerAuthenticationController.cpp:1123-1153 | Ready exactly when the last open request is answered and none was refused |
| RoundGate.Controller.ConfigureFaultPlan | apps/manager_gui/ManagerAuthenticationController.cpp:927-986 | One fault plan at a time, only for an idle ready round and an existing sender |
| RoundGate.Controller.ProcessFaultAck | apps/manager_gui/ManagerAuthenticationController.cpp:1172-1206 | Confirms or refuses the fault plan |
| RoundGate.Controller.HandleNodesChanged | apps/manager_gui/ManagerAuthenticationController.cpp:1348-1391 | A lost participant cancels what is still unanswered |
| RoundGate.Controller.StartRoundAt | apps/manager_gui/ManagerAuthenticationController.cpp:768-821 | Starts only through the gate and only when every participant was reached |
| RoundGate.Controller.StopRound | apps/manager_gui/ManagerAuthenticationController.cpp:903-925 | Ends a running round once every participant was told, and tells exactly the participants it can reach |
| RoundGate.Controller.ProcessResult | apps/manager_gui/ManagerAuthenticationController.cpp:1208-1225 | Counts distinct results of the current round only and ends the round when enough arrived |
| RoundRuns.StartedOnlyWhenAcknowledged | apps/manager_gui/ManagerAuthenticationController.cpp:773-783 | A round begins only after every request of the preparation was accepted and the latest fault plan confirmed |
| RoundGate.Controller.SendConfigurations | apps/manager_gui/ManagerAuthenticationController.cpp:434-535 | Sends two requests for each sender and one for each listening participant up to the first failure; the counting loops yield senders times participants |
| RoundRuns.OwedCount | apps/manager_gui/ManagerAuthenticationController.cpp:481-535 | With unique chain identifiers the owed results are that many |
| RoundRuns.IssuedChainsDiffer | apps/manager_gui/ManagerAuthenticationController.cpp:409-431 | The senders of one preparation have different chain identifiers because the authority never issues one twice |
| RoundRuns.EndsExactlyWhenComplete | apps/manager_gui/ManagerAuthenticationController.cpp:1334-1340 | In every run a begun round that the user has not stopped still runs if and only if a preparation was attempted while it ran or fewer distinct results arrived than are owed; while nodes report only what they owe, the latter means an owed result is missing |
| RoundRuns.AbandonedUntilStopped | apps/manager_gui/ManagerAuthenticationController.cpp:543-548 | After a preparation during the round nothing but a user stop ends it, and that stop tells no node |
| RoundRuns.AbandonedRound | apps/manager_gui/ManagerAuthenticationController.cpp:344-349 | A run in which every owed result arrives and the round still runs |
| RoundControl.ListeningCount | apps/manager_gui/ManagerAuthenticationController.cpp:434-535 | The participants that are sent receiver contexts are those with a sender hosted elsewhere |
| RoundControl.PreparesExactly | apps/manager_gui/ManagerAuthenticationController.cpp:335-550 | Exactly when a preparation succeeds, what it then selects, asks for and expects, and that it leaves nothing prepared otherwise |
| RoundControl.RunShows | apps/manager_gui/ManagerAuthenticationController.cpp:1123-1206 | In every run the flags of the gate say how the requests and the latest fault plan stand in a simpler reference |
| RoundControl.StartsIff | apps/manager_gui/ManagerAuthenticationController.cpp:768-821 | In every run a round begins if and only if the start is early enough and reaches everyone, every request was accepted, no participant was lost while an answer was missing, and the latest fault plan, if any, was confirmed |
| RoundControl.RunsOnIff | apps/manager_gui/ManagerAuthenticationController.cpp:903-1225 | A running round goes on until a stop that reaches everyone or the result that completes it |
| RoundControl.FaultAskedIff | apps/manager_gui/ManagerAuthenticationController.cpp:927-986 | Exactly when a fault plan is asked of a node |
| RoundControl.TellsReachable | apps/manager_gui/ManagerAuthenticationController.cpp:768-925 | A command goes to every participant that can be reached and to nobody else |
| RoundControl.RoundCompletes | apps/manager_gui/ManagerAuthenticationController.cpp:335-1225 | From every run, after a stop, any acceptable round can be prepared, accepted, started, and completed by its owed results in any order and however often repeated |
| Authority.DecodeChainId | common/tesla/src/AuthenticationAuthority.cpp:130-148 | The identifier is the big-endian value of the random bytes |
| Authority.CandidateCommits | common/tesla/src/AuthenticationAuthority.cpp:37-83 | The commitment of an attempt is the head of the key chain of its seed, so every key of the chain verifies against it; the identifier is the big-endian value of the random bytes |
| Authority.CertificateAuthority.TryAttempt | common/tesla/src/AuthenticationAuthority.cpp:37-83 | An attempt issues its material exactly when nothing of it was used before |
| Authority.CertificateAuthority.IssueSenderMaterial | common/tesla/src/AuthenticationAuthority.cpp:25-90 | Issues the first unused material of at most 128 attempts; all identifiers, seeds and commitments ever issued are distinct |
| MetricStore.AuthenticationMetricStore.Append | common/metrics/src/AuthenticationMetrics.cpp:692-711 | Accepts exactly a key absent from the window; afterwards the window is the last accepted records |
| MetricStore.AuthenticationMetricStore.Evict | common/metrics/src/AuthenticationMetrics.cpp:705-709 | Drops oldest records with their keys until the limit holds |
| MetricStore.AuthenticationMetricStore.Clear | common/metrics/src/AuthenticationMetrics.cpp:713-718 | Empties deque and key set |
| MetricStore.AuthenticationMetricStore.Snapshot | common/metrics/src/AuthenticationMetrics.cpp:720-730 | The last min(n, max) accepted records in order |
| MetricStore.WindowDistinct | common/metrics/src/AuthenticationMetrics.cpp:692-711 | After any run of appends and clears the window has no duplicate key |
| MetricStore.AcceptedIff | common/metrics/src/AuthenticationMetrics.cpp:692-718 | A record is accepted if and only if none of the last accepted ones has its key, and the window holds that key afterwards |

## Left out

- RoundGate.Controller.PrepareRound: whether the round parameters are accepted is one input, the parameters inside the requests are not modelled, and the two preparation paths for text and files share this model.
- FileUpload.PumpBackpressure: assumes that the encoded End frame fits its 4096-byte reserve, because JSON text is not modelled.
- FileDelivery.UploadDelivers: assumes that the control frames are valid objects within the frame limit, that parsing recovers the Begin and End messages the manager wrote, and that its other messages during the upload concern no upload, because JSON text is not modelled; the greeting and the replies of the node are not modelled.
- SendQueue.CompletedMeansWritten: assumes that posting a drain to the event loop never fails.
- MonitorQueues.QueueSafety: covers runs in which the server is not stopped; a stop during the merging wait can leave an empty batch.
- Admission.ScheduledOnlyWhenConfirmed: one manager and one test endpoint without restart; each handler runs to its end before the next event, so signals raised inside a handler are not modelled; plans are delivered at most once, all other messages may be repeated, reordered or lost.
- SenderRound.ConfigureSender: the payload mode, the packet count of the workload and the time needed to build an interval, which are also checked there, are not modelled.
- JSON text, OpenSSL, Qt sockets and threads, multicast joins, discovery, heartbeats and persistence are inputs or absent.
- Receiver runtimes, strategies, fault policies, observation stores and the floating-point energy and rate figures are not modelled.
- The constant-rate invalid-traffic loop of DoS plans is not modelled beyond its admission.
- Names of nodes, rounds and senders are abstract values that are only compared; request identifiers are fresh numbers instead of UUIDs.
- The rows of the execution log and user-interface messages are not modelled.
- Control-message classes appear only as the values their constructors accept.
- ManagerController.ExperimentController.PrepareContext: whether a context may be prepared (configuration, connection, address and listening checks) is one input; the addresses and expiry time inside mapping messages are not modelled.
- RoundTimeline.RoundTimeline.StartRoundAt: whether the round may start is an input here, which `RoundGate` models; the interval length stays fixed, so no preparation is attempted during the round (see `AbandonedUntilStopped`).
- SendScheduler.RunAccounts: one execution of one plan; the counters of bytes and the injection delay are not modelled, and preparing the next plan, which clears what still waits, is not a step.
