# NearbySend native engine in Dafny

This project models the Rust native engine of NearbySend, a nearby file-sharing tool. It covers five parts:

- **Transfer protocol** (`transfer/protocol.rs`). A lockstep exchange of typed messages: request, response, data chunk, chunk acknowledgement and completion. It feeds a process-wide registry of transfer records that the host application polls.
- **File chunker and assembler** (`transfer/chunking.rs`).
- **Wi-Fi Direct / TCP session manager** (`connection/wifi_direct.rs`). A connection status and a single stored stream.
- **Two discovery directories**: mDNS / DNS-SD (`discovery/mdns.rs`) and Bluetooth LE (`discovery/ble.rs`). Each is a running flag plus a list of peers deduplicated by id.

Every core file updates state in place, so the state lives in Dafny classes whose methods carry `modifies` clauses:

- `TransferRegistry.Registry`: the transfer list;
- `Protocol.Channel`: the peer connection;
- `Chunking.FileChunker` and `Chunking.FileAssembler`;
- `WifiDirect.ConnectionManager`;
- `Mdns.MdnsDiscovery` and `Ble.BleDiscovery`.

Loops that update variables step by step become `while` loops with invariants: the two chunk loops, the accept loop, the BLE scan loop and the BLE consumer. The mDNS listener is one `HandleEvent` call per event it receives. The in-place `retain` of the mDNS list becomes the function `RemoveId`.

The two chunk loops of the protocol are proved against reference functions in module `ProtocolSpec`:

- `SendLoop`: what the sender does, given the replies the peer sends;
- `RecvLoop`: what the receiver does, given the messages the peer sends.

Each returns a run record with five parts:

- the messages sent;
- the messages left unread;
- the bytes written (receiver only);
- the progress values recorded;
- whether Completed was set, and the result.

The imperative methods `Protocol.SendFileChunks` and `Protocol.ReceiveFileChunks` are proved to produce exactly that run on the channel and the registry. The lemmas of `ProtocolSpec` then state, over every possible sequence of peer messages, the properties the protocol relies on:

- index sequencing;
- acknowledgement matching;
- progress accumulation;
- when Completed is written;
- why a run fails.

Two lemmas close the loop between the two sides:

- `SenderHappyPath` and `ReceiverHappyPath` describe each side when the peer behaves;
- `LockstepTransfer` shows that a receiver fed the sender's messages writes exactly the file, and that a sender fed the receiver's acknowledgements completes.

Outside effects are parameters. A file is the byte sequence its reads return. A socket, daemon or Bluetooth call is the outcome it reported (`Outcome`, `ConnectAttempt`, `DaemonAttempt`, ...). The fresh transfer id is an argument.

Spawned tasks (`tokio::spawn`) are handled in two ways:

- The protocol's chunk tasks and the server's accept loop run to their end before the spawning call returns. `SendFile` and `ReceiveFile` return what the chunk task ended with beside their own result.
- The discovery tasks are separate methods that a caller may interleave with the stop and get calls. The mDNS listener is `HandleEvent`, one call per event. The BLE scan task is `RunScanTask` and the BLE consumer is `ConsumeDevices`. `StartMdnsDiscovery` and `StartBleDiscovery` only report whether the task was started.

The model follows the code as written, including three behaviours a reader might not expect:

- The receiver records the announced file size but never compares it with the bytes received.
- Status updates are not restricted to moving forward: any status may overwrite any other.
- Records are pushed with no uniqueness check. An update lands on the first record with the id (`SlotAfterPush`).

Further consequences of the code as written, stated in the contracts:

- A sender whose file reads return no bytes ends its chunk loop with Ok, without sending a completion and without marking Completed (`SendLoopCompletes`).
- The receiver accepts a successful completion at any point of its loop, even before any chunk (`RecvLoopEnds`).
- A failed mDNS start leaves the running flag set (`Mdns.MdnsDiscovery.StartMdnsDiscovery`).

## Model

| member | source | states |
|---|---|---|
| TransferRegistry.FirstIndex | nearbysend/native/src/transfer/protocol.rs:362-367 | the record an update by id lands on: none exactly when no record has the id, otherwise the first one that has it |
| TransferRegistry.FirstIndexStable | nearbysend/native/src/transfer/protocol.rs:362-367 | rewriting a record's fields without changing its id moves no lookup by id |
| TransferRegistry.FirstIndexAppend | nearbysend/native/src/transfer/protocol.rs:81-84 | after a push without a uniqueness check, the pushed id resolves to an earlier record with that id when there is one, else to the new record |
| TransferRegistry.Registry.constructor | nearbysend/native/src/transfer/protocol.rs:46-48 | the registry starts empty |
| TransferRegistry.Registry.Push | nearbysend/native/src/transfer/protocol.rs:81-84 | appends the record whatever ids are already present |
| TransferRegistry.Registry.UpdateTransferStatus | nearbysend/native/src/transfer/protocol.rs:359-370 | sets only the status of the first record with the id, with no forward-only rule; TransferNotFound and no change when no record has it |
| TransferRegistry.Registry.UpdateTransferProgress | nearbysend/native/src/transfer/protocol.rs:373-384 | sets only the transferred byte count of the first record with the id; TransferNotFound and no change when no record has it |
| TransferRegistry.Registry.GetTransfers | nearbysend/native/src/transfer/protocol.rs:386-390 | returns every record, in push order |
| Protocol.Channel.Send | nearbysend/native/src/transfer/protocol.rs:97 | a sent message is appended to the log of messages sent to the peer |
| Protocol.Channel.Receive | nearbysend/native/src/transfer/protocol.rs:103-104 | a wait for the peer's next message takes it off the incoming queue, or fails once the peer has nothing more to send |
| Protocol.SlotAfterPush | nearbysend/native/src/transfer/protocol.rs:72-84 | updates for a pushed record land on the record itself exactly when no earlier record has its id |
| Protocol.RecordProgress | nearbysend/native/src/transfer/protocol.rs:242-243 | a progress update for a pushed id cannot miss: it extends the recorded progress of that transfer's slot |
| Protocol.RecordStatus | nearbysend/native/src/transfer/protocol.rs:259 | a status update for a pushed id cannot miss: it replaces the status of that transfer's slot |
| Protocol.SendNextChunk | nearbysend/native/src/transfer/protocol.rs:209-267 | one pass of the sender loop: either the loop stops having done exactly what `SendLoop` does from here, or the next chunk (never flagged last) was sent, acknowledged with its own index and recorded |
| Protocol.SendFileChunks | nearbysend/native/src/transfer/protocol.rs:190-271 | marks Transferring, then sends, reads and records exactly what `SendLoop` from byte 0 and index 0 does, marking Completed when that run completes; TransferNotFound when no record has the id |
| Protocol.SendFile | nearbysend/native/src/transfer/protocol.rs:51-130 | pushes one Pending record with transferred bytes 0 before sending the request, then marks Connecting; on an acceptance it runs the chunk loop and a failing loop marks Failed; a refusal, a foreign id or another message kind marks Failed with no chunk sent; a missing path or file name changes nothing |
| Protocol.ReceiveNextChunk | nearbysend/native/src/transfer/protocol.rs:285-352 | one pass of the receiver loop: either the loop stops having done exactly what `RecvLoop` does from here, or the expected chunk (not flagged last) was written, recorded and acknowledged with its own index |
| Protocol.ReceiveFileChunks | nearbysend/native/src/transfer/protocol.rs:274-356 | a failed create writes nothing and returns its error; otherwise marks Transferring, then writes, acknowledges, reads and records exactly what `RecvLoop` from index 0 does, marking Completed when that run completes |
| Protocol.ReceiveFile | nearbysend/native/src/transfer/protocol.rs:133-187 | on a request, pushes a Pending record with the announced name and size, accepts, marks Transferring and runs the chunk loop into the save directory joined with the name; the transfer ends Completed exactly when the run succeeded, otherwise Failed; any other first message is refused with nothing recorded |
| ProtocolSpec.SendLoop | nearbysend/native/src/transfer/protocol.rs:209-268 | reference definition of the sender loop over any replies: progress is recorded only per reply it reads, and a run that marks Completed succeeded and sent one message more than it recorded progress, its completion |
| ProtocolSpec.RecvLoop | nearbysend/native/src/transfer/protocol.rs:285-353 | reference definition of the receiver loop over any incoming messages: a run that marks Completed succeeded |
| ProtocolSpec.ChunkMessagesAt | nearbysend/native/src/transfer/protocol.rs:219-227 | the j-th chunk message carries the j-th chunk with index base + j, flagged last exactly when it is the final chunk |
| ProtocolSpec.AcksAt | nearbysend/native/src/transfer/protocol.rs:304-307 | the j-th acknowledgement names chunk base + j |
| ProtocolSpec.RunningTotalsAccumulate | nearbysend/native/src/transfer/protocol.rs:242-243 | recorded progress is the running byte total: each value counts the bytes of every chunk up to it, values never decrease, they strictly increase when no chunk is empty, and the last counts every byte |
| ProtocolSpec.SendLoopAcks | nearbysend/native/src/transfer/protocol.rs:239-246 | the sender advances only on an acknowledgement of the chunk just sent: the accepted replies acknowledge indices 0, 1, 2, ... in order |
| ProtocolSpec.SendLoopProgress | nearbysend/native/src/transfer/protocol.rs:205-206 | the sender records, per accepted acknowledgement, the running total of the acknowledged chunks' lengths |
| ProtocolSpec.SendLoopCompletes | nearbysend/native/src/transfer/protocol.rs:213-216 | Completed is marked exactly when the last chunk was acknowledged, and then every chunk went out in order followed by one successful completion; a file with nothing to read ends with Ok, nothing sent and no Completed |
| ProtocolSpec.SendLoopFailsSent | nearbysend/native/src/transfer/protocol.rs:233-266 | a failed send run sent the chunks up to and including the unacknowledged one, and nothing else; no completion is sent |
| ProtocolSpec.SendLoopFails | nearbysend/native/src/transfer/protocol.rs:264-266 | a failed send run failed with InvalidAcknowledgment on a reply that is not the expected acknowledgement, or with a failed receive when no reply came |
| ProtocolSpec.RecvLoopAccepts | nearbysend/native/src/transfer/protocol.rs:290-294 | the accepted chunks are the first messages, of this transfer, with indices 0, 1, 2, ... in order |
| ProtocolSpec.RecvLoopAcked | nearbysend/native/src/transfer/protocol.rs:303-313 | the receiver sends one acknowledgement per accepted chunk, naming that chunk's index, and nothing else |
| ProtocolSpec.RecvLoopWritten | nearbysend/native/src/transfer/protocol.rs:296-297 | the bytes written are exactly the accepted chunks' payloads, in order. A refused chunk, such as one with another index, contributes nothing: it is refused before anything of it is written |
| ProtocolSpec.RecvLoopProgress | nearbysend/native/src/transfer/protocol.rs:299-301 | the receiver records, per accepted chunk, the running total of the accepted payload lengths |
| ProtocolSpec.RecvLoopEnds | nearbysend/native/src/transfer/protocol.rs:316-351 | a receive run is Ok exactly when it marks Completed, which happens only on a successful completion of this transfer, after a chunk flagged last or at any point; otherwise it fails with InvalidCompletion, UnexpectedChunkIndex, TransferFailed, InvalidMessage or a failed receive, depending on the first message it refused |
| ProtocolSpec.SenderHappyPath | nearbysend/native/src/transfer/protocol.rs:209-268 | when each chunk is acknowledged in turn, the sender sends every chunk in order then a successful completion, records the running totals, marks Completed and reads nothing beyond the acknowledgements |
| ProtocolSpec.ReceiverHappyPath | nearbysend/native/src/transfer/protocol.rs:285-353 | fed any chunk list in order with the last flagged and then a successful completion, the receiver acknowledges each chunk, writes their concatenation, records the running totals and marks Completed |
| ProtocolSpec.LockstepTransfer | nearbysend/native/src/transfer/protocol.rs:190-356 | sender and receiver in lockstep: the receiver writes exactly the file's bytes, both mark Completed, both record the same progress, and the final progress is the file size |
| ProtocolSpec.EmptyFileNeverCompletes | nearbysend/native/src/transfer/protocol.rs:209-216 | an empty file: the sender ends Ok with nothing sent, no completion and no Completed, whatever the peer replies; a receiver fed what it sent fails its receive and never completes |
| ProtocolSpec.FourChunksFor200KiB | nearbysend/native/src/transfer/protocol.rs:201-211 | with 64 KiB reads, a 200 KiB file goes as three full chunks and one of 8 KiB |
| Chunking.Chunks | nearbysend/native/src/transfer/chunking.rs:55-79 | the chunks successive reads return: none exactly at the end of the file (or with a zero-sized buffer), each of 1 to chunk_size bytes |
| Chunking.ChunksConcatenate | nearbysend/native/src/transfer/chunking.rs:55-79 | round trip: the chunks from a position concatenate back to the rest of the file |
| Chunking.ChunksAreFull | nearbysend/native/src/transfer/chunking.rs:60-76 | every chunk but the last is exactly chunk_size bytes |
| Chunking.FileChunker.constructor | nearbysend/native/src/transfer/chunking.rs:18-27 | a new chunker is at position 0, sized from the file, with chunk_size defaulting to 64 KiB |
| Chunking.FileChunker.IsComplete | nearbysend/native/src/transfer/chunking.rs:50-52 | with a non-empty buffer, the chunker is complete exactly when no chunk is left to read |
| Chunking.FileChunker.NextChunk | nearbysend/native/src/transfer/chunking.rs:55-79 | when complete (position at or past the file size) returns None and stays put; otherwise returns the bytes from the position, 1 to chunk_size of them, advances by exactly their count, and they are the head of the remaining chunks |
| Chunking.FileChunker.Reset | nearbysend/native/src/transfer/chunking.rs:82-86 | position back to 0, so every chunk is to come again; file size and chunk size unchanged |
| Chunking.WriteAt | nearbysend/native/src/transfer/chunking.rs:143-149 | a write at an offset overwrites what was there, grows the file past its end, and a gap reads as zero bytes |
| Chunking.WriteAtEndAppends | nearbysend/native/src/transfer/chunking.rs:148-149 | a write at the end of the file appends |
| Chunking.FileAssembler.constructor | nearbysend/native/src/transfer/chunking.rs:99-115 | a new assembler has written nothing, into an empty file |
| Chunking.FileAssembler.WriteChunk | nearbysend/native/src/transfer/chunking.rs:142-155 | the byte count grows by exactly the chunk's length whether or not a position is given; the file holds the chunk at that position, or appended when writes stayed sequential |
| Chunking.FileAssembler.IsComplete | nearbysend/native/src/transfer/chunking.rs:137-139 | an incomplete assembly cannot finish; after sequential writes it is complete exactly when the file holds at least the expected bytes |
| Chunking.FileAssembler.Finish | nearbysend/native/src/transfer/chunking.rs:158-168 | fails with a size mismatch exactly when the byte count differs from the expected size, otherwise returns the file path |
| WifiDirect.BoundPort | nearbysend/native/src/connection/wifi_direct.rs:93-102 | a successful bind of a non-zero port listens on it; port 0 listens on the port the OS chose |
| WifiDirect.AcceptedPrefix | nearbysend/native/src/connection/wifi_direct.rs:107 | the accept loop runs while accepts succeed and stops at the first failure |
| WifiDirect.ConnectionManager.constructor | nearbysend/native/src/connection/wifi_direct.rs:19-22 | the session starts Disconnected with no stream |
| WifiDirect.ConnectionManager.ConnectToDevice | nearbysend/native/src/connection/wifi_direct.rs:25-64 | success stores the new stream and ends Connected; failure ends Failed with the error and leaves the stored stream untouched |
| WifiDirect.ConnectionManager.Disconnect | nearbysend/native/src/connection/wifi_direct.rs:67-82 | ends Disconnected with no stored stream |
| WifiDirect.ConnectionManager.GetConnectionStatus | nearbysend/native/src/connection/wifi_direct.rs:85-88 | returns the current status and changes nothing |
| WifiDirect.ConnectionManager.StartServer | nearbysend/native/src/connection/wifi_direct.rs:91-125 | binds the requested port, falls back to an ephemeral port when that bind fails, and returns the port bound; when both binds fail nothing changes |
| WifiDirect.ConnectionManager.AcceptConnections | nearbysend/native/src/connection/wifi_direct.rs:106-122 | each accepted connection marks Connected and replaces the stored stream, so the last accepted one is stored; with none accepted nothing changes |
| WifiDirect.ConnectionManager.SendData | nearbysend/native/src/connection/wifi_direct.rs:128-143 | "No active connection" when no stream is stored, otherwise the write's outcome |
| WifiDirect.ConnectionManager.ReceiveData | nearbysend/native/src/connection/wifi_direct.rs:146-164 | "No active connection" when no stream is stored; otherwise the first min(read, max_size) bytes the peer sent, never more than max_size |
| Mdns.InsertNew | nearbysend/native/src/discovery/mdns.rs:85-90 | a resolved device is appended only when no listed device has its id (the first sighting wins), keeping ids unique |
| Mdns.RemoveId | nearbysend/native/src/discovery/mdns.rs:97-99 | removal keeps exactly the devices with another id |
| Mdns.RemoveIdDistributes | nearbysend/native/src/discovery/mdns.rs:98 | removal works device by device, so it keeps the order of what it keeps |
| Mdns.RemoveAbsentId | nearbysend/native/src/discovery/mdns.rs:98 | removing an id no device has changes nothing |
| Mdns.RemoveIdKeepsUnique | nearbysend/native/src/discovery/mdns.rs:98 | removal keeps ids unique |
| Mdns.DeviceFromInfo | nearbysend/native/src/discovery/mdns.rs:65-82 | the device of a resolved service: id the full name, address the first one, name and device type from the properties with defaults "Unknown Device" and "unknown" |
| Mdns.OsDeviceType | nearbysend/native/src/discovery/mdns.rs:160-166 | the advertised platform tag is the OS name for macos, android, ios and windows, and "unknown" for anything else |
| Mdns.LookupDaemonAsWritten | nearbysend/native/src/discovery/mdns.rs:141-153 | as written, obtaining a daemon never returns (deadlock or panic) exactly when none is stored and creating one succeeds; a stored daemon is reused |
| Mdns.RegisterWithoutDaemonBlocks | nearbysend/native/src/discovery/mdns.rs:142-148 | the slot is locked a second time while its first guard is held, so registering before any daemon exists never returns (deadlock or panic) |
| Mdns.LookupDaemon | nearbysend/native/src/discovery/mdns.rs:141-153 | corrected: reuses the stored daemon, or creates and stores one, or reports why creation failed; it never blocks |
| Mdns.MdnsDiscovery.constructor | nearbysend/native/src/discovery/mdns.rs:22-26 | not running, no devices, no daemon |
| Mdns.MdnsDiscovery.StartMdnsDiscovery | nearbysend/native/src/discovery/mdns.rs:29-116 | while running: Ok and nothing changes; otherwise sets the flag and clears the list, then stores the daemon and starts the listener only when creating and browsing both succeed |
| Mdns.MdnsDiscovery.HandleEvent | nearbysend/native/src/discovery/mdns.rs:59-109 | one listener turn: a resolved service with an address is inserted by id (first sighting wins), one without is ignored, a removal drops its id; ids stay unique; the listener goes on while the flag is set |
| Mdns.MdnsDiscovery.StopMdnsDiscovery | nearbysend/native/src/discovery/mdns.rs:119-130 | clears the flag and drops the daemon; the list is left as it was |
| Mdns.MdnsDiscovery.GetDiscoveredMdnsDevices | nearbysend/native/src/discovery/mdns.rs:133-136 | returns the current list, whose ids are unique |
| Mdns.MdnsDiscovery.RegisterDevice | nearbysend/native/src/discovery/mdns.rs:139-185 | corrected: obtains the daemon through `LookupDaemon`, then reuses the stored daemon or stores a new one, then advertises the service type with the name and platform tag; a failure advertises nothing |
| Ble.Sighting | nearbysend/native/src/discovery/ble.rs:121-134 | only discoveries of a peripheral that reports a local name are forwarded, with the peripheral's id and that name |
| Ble.Forwarded | nearbysend/native/src/discovery/ble.rs:114-160 | the scan loop forwards at most one device per step |
| Ble.ForwardedPerStepReacted | nearbysend/native/src/discovery/ble.rs:114-160 | the scan loop forwards at most one device per step it reacts to, that is, per stream item before the first timer or stop |
| Ble.ScanEnd | nearbysend/native/src/discovery/ble.rs:114-160 | the loop runs over stream items and ends at the first timer or stop |
| Ble.ForwardedWereSighted | nearbysend/native/src/discovery/ble.rs:120-138 | every forwarded device was sighted, with that id and name, before the loop ended |
| Ble.ForwardedStopsAtEnd | nearbysend/native/src/discovery/ble.rs:116-119 | nothing after the timer or the stop is looked at |
| Ble.DiscoverDevices | nearbysend/native/src/discovery/ble.rs:89-167 | a manager error, no adapter or a scan error ends with that error and nothing forwarded; otherwise forwards exactly the named sightings up to the timer or stop, then reports stopping the scan |
| Ble.InsertNew | nearbysend/native/src/discovery/ble.rs:63-67 | a received device is appended only when its id is not listed, keeping ids unique |
| Ble.InsertAll | nearbysend/native/src/discovery/ble.rs:61-70 | the consumer's list after receiving each device in turn: it only grows, by at most one entry per received device |
| Ble.InsertAllProperties | nearbysend/native/src/discovery/ble.rs:61-70 | the consumer keeps what was listed in place, keeps ids unique, and lists every id it received |
| Ble.BleDiscovery.constructor | nearbysend/native/src/discovery/ble.rs:23-26 | not running, no devices |
| Ble.BleDiscovery.StartBleDiscovery | nearbysend/native/src/discovery/ble.rs:29-73 | while running: Ok, list kept, nothing spawned; otherwise sets the flag, clears the list and spawns the two tasks |
| Ble.BleDiscovery.StopBleDiscovery | nearbysend/native/src/discovery/ble.rs:76-80 | clears the flag; the list is left as it was |
| Ble.BleDiscovery.GetDiscoveredDevices | nearbysend/native/src/discovery/ble.rs:83-86 | returns the current list, whose ids are unique |
| Ble.BleDiscovery.RunScanTask | nearbysend/native/src/discovery/ble.rs:49-58 | the scan task clears the running flag however the scan ended, and sent into the channel exactly what the scan forwarded |
| Ble.BleDiscovery.ConsumeDevices | nearbysend/native/src/discovery/ble.rs:61-70 | the consumer inserts every received device by id in turn, keeping ids unique |

## Left out

- JSON encoding and decoding of messages is not modelled; messages are a datatype. A message that fails to decode counts as a failed receive (`ReceiveFailed`), like a closed connection. The fixed 1024-byte read buffer that would cut a large message, and message boundaries on the TCP stream, are likewise not modelled.
- Mdns.MdnsDiscovery.RegisterDevice: it uses the corrected daemon lookup. As written, a call with no stored daemon and a successful creation never returns (see `Mdns.RegisterWithoutDaemonBlocks` and Findings). The model instead stores the new daemon and advertises the service.
- Protocol.Channel.Send: sending to the peer always succeeds. A failing `send_data` inside the protocol, and the "No active connection" error it would pass on, are not modelled there; they are modelled in `WifiDirect.ConnectionManager.SendData`.
- Concurrency is not modelled: the tokio runtime, `Mutex` locking and lock poisoning, and interleavings inside a task. The protocol chunk tasks and the accept loop run to their end before the spawning call returns, so nothing interleaves with them. The discovery tasks are separate methods whose calls interleave only at whole events or whole runs. The BLE `select!`, its 30-second timer and its 100 ms polling of the running flag become a sequence of steps the loop reacts to.
- Real I/O is not modelled: sockets, file open/seek/read/write, metadata and directory creation. A file is the byte sequence its reads return; every read returns as many bytes as asked, up to the end of the file. A library call is the outcome it reported, passed as a parameter.
- Protocol.ReceiveFileChunks: a failed write to the created file is not modelled; writes always succeed.
- Protocol.SendFile: a failed metadata read and a failed open in the chunk task are not modelled; the file is given as its content.
- `progress_percentage` of both chunking classes is not modelled because it returns a floating-point number.
- UUID generation is not modelled; the transfer id is a parameter of `SendFile`.
- Integer widths are not modelled: byte counts are `u64`, chunk indices `u32`, sizes `usize`, and all are unbounded here. Overflow would need files far beyond 2^32 chunks.
- `Path::new(save_dir).join(file_name)` is not modelled: the save path is kept as the pair of directory and name (`Protocol.SavePath`). Path normalisation is left out, and so is a file name that escapes the directory.
- `listener.local_addr()` failing after a successful bind is not modelled.
- The BLE service UUID constant is parsed but never used for filtering, so it is not modelled.
- The mDNS daemon's wire behaviour and the BLE stack are libraries and are not modelled; their results are parameters.
- TLS/QUIC setup, the simulated hotspot, platform shims and the other prototype crates in the repository are not part of this model.

## Findings

| source | as written | input that shows it | evidently intended | confidence | as-written member | corrected member |
|---|---|---|---|---|---|---|
| nearbysend/native/src/discovery/mdns.rs:142-149 | `register_device` locks the daemon slot, and when it is empty creates a daemon and locks the same slot again while the first guard is still alive; `std::sync::Mutex` is not reentrant | the first `register_device` call before any daemon was stored (discovery never started, or stopped), with daemon creation succeeding | drop the first guard before storing the new daemon, so a fresh daemon is created, stored and used | not executed; high | Mdns.LookupDaemonAsWritten, Mdns.RegisterWithoutDaemonBlocks | Mdns.LookupDaemon |
