# Verified model of an ESP-IDF component library

The modelled repository is a set of firmware components for ESP32 devices. This project models the ones whose
correctness is hardest to see, states what they promise and proves it. `dafny verify dfyconfig.toml` checks
everything.

**Flash ring** (`FlashLayout`, `FlashSteps`, `FlashRecovery`, `FlashRuns`, `CircularFlashBuffer`). A ring of
fixed-size blocks on NOR flash whose start-up scan rebuilds the write head, the count and the page cache from raw
bytes. `FlashLayout` says what the partition must hold as a function of the list of blocks written since the last
erase. `FlashRuns` carries memory and flash through writes, erases and reboots as the driver moves them and proves
that they stay equal to that function, so that reading is list indexing and recovery is a theorem about bytes. The
driver's methods do those steps on any flash.

**Log** (`BlackboxRecords`, `BlackboxText`, `Blackbox`, `BlackboxQueue`, `BlackboxProgress`). Records with a CRC-8,
long texts cut into fragments, a queue with one consumer, and control commands. `BlackboxQueue` interleaves callers
and consumer step by step, down to the operations on the ring.

**Radio link** (`Bytes`, `Checksums`, `LinkCodec`, `LinkSteps`, `LinkInvariants`, `LinkTheorems`, `LinkTiming`,
`LinkDelivery`, `LinkSessions`, `LinkProgress`, `LinkExchange`, `LinkTask`). A stop-and-wait protocol with sessions,
sequence numbers, one driver slot shared by data and ACKs, and cancellation by generation. `LinkSteps` gives the
atomic steps on a value, `LinkTask` is the program with its variables and loops, proved to do those steps, and the
theorems speak of all runs of one link and of two links over a network that loses, repeats, delays and reorders.
`LinkProgress` says what each event must do, from what is on record, and `LinkExchange` that a message whose frame and
ACK get through is delivered and acknowledged.

**Pairing** (`PairingSteps`, `PairingInvariants`, `PairingPreservation`, `PairingRuns`, `PairingResults`,
`PairingAgreement`, `PairingProgress`, `PairingRefusals`, `PairingExchange`, `PairingTask`; `PeerTable`, `PeerStore`
for the saved peers, `PairingStore` between the two). Discovery, key exchange, confirmation and commit between two
devices, with timeouts, retries, temporary plaintext peers and rollback. A device is a value with a record (`Ledger`)
of keys met, nonces used, keys settled and peers saved that no step reads. `PairingTask` is the program with its
variables, proved to do those steps. `PairingAgreement` puts two devices on the air: a packet arrives only if the
receiver's run-time peer asks for the form in which it was sent. `PairingProgress` and `PairingRefusals` say what each
message, report and deadline must do, and `PairingExchange` that two devices that hear each other do pair.

**Smaller components** (`Button`, `Interp`, `BatteryLevel`). A gesture recogniser against a declarative reading of the
sample history, two interpolators over exact arithmetic, and a charge display kept in three numbered copies.

`Basics` and `Sequences` hold what several modules share.

## Assumptions

- Flash: a page is programmed as a bitwise AND, erases and reads succeed, power is lost only between calls; the partition
  is a whole number of sectors. A driver works with block sizes of 2 and more. Reboots are proved exact for blocks that
  start with 0xAA, by which the scan knows a block; writing and reading do not need it.
- Link: one driver callback for each submitted frame; one tick is one millisecond; queues are bounded FIFO sequences and
  critical sections are atomic. The look at the generation and the hand-over to the driver are two moments: any number of
  cancellations may land between them (`Io.late`). Between the last look and the end of a request they may too; that is
  the order with the cancellation just after (`LinkTheorems.LateCancellationComesAfter`).
- Pairing: nonces are new to the device that draws them and keys new to the device that generates them, and keys of
  different devices differ; a message's source address is its sender; a message sent under a key is received only by a
  peer entry with that key, plaintext only by an entry that is not encrypted, broadcasts always. Deadlines are inputs:
  any deadline may pass at any time. Processing one received message more than once is allowed.
- Peer restoration after a session always finds room in the link and the driver.

## Where the code does less than one may expect

Each of these is a lemma with the exact condition, or a concrete case:

- with two sectors the start-up scan can misplace the head (`FlashRecovery.RecoveryIsExact`);
- one-byte blocks overflow the 8-bit field of blocks per page (`FlashLayout.Geometry.FieldIsExact`);
- the initiator of a pairing does not look at the peer limit (`PairingResults.InitiatorLimit`);
- one frame can slip past a cancellation that lands while it is being handed to the driver
  (`LinkTheorems.CancellationIsExact`);
- a frame of an old session is taken again after another session was seen (`LinkSessions.TakenAgainIffSessionChanged`);
- a smoothed round trip of 65536 ms or more is cut to 16 bits (`LinkTiming.SampleIsExact`);
- eight clicks in one gesture count as none (`Button.ThreeBitsSuffice`, `Button.EightClicksAreLost`), and the debounce
  time is below the scan period, so one pressed sample is a press;
- a press held until its 32-bit time wraps is reported as another press (`Button.ButtonReadsCorrectly`,
  `Button.HeldPressWraps`);
- after a cut write, an older copy alone brings an older charge back (`BatteryLevel.CorruptionShows`,
  `BatteryLevel.OldChargeReturns`).

## Model

| member | source | states |
|---|---|---|
| FlashRecovery.RecoveryIsExact | components/bsp/circular_flash_buffer/src/circular_flash_buffer.cpp:103-215 | The start-up scan, run on the flash image that any writes and erases leave behind, gives back the head, count, page cache and flash of the running driver - exactly when there are three or more sectors or the head is in sector 0; so the blank-page scan never fails and the sentinel erase never fires |
| FlashRuns.RingRefinesList | components/bsp/circular_flash_buffer/src/circular_flash_buffer.cpp:73-365 | Over any mix of writes, erases and clean reboots, with memory and flash carried from step to step as the driver moves them: they are exactly those of the plain list of writes since the last erase; the count lies between the promised number and the length of the list; and for every index below the count, reading gives the (index+1)-th most recent write |
| FlashRuns.WrittenHolds | components/bsp/circular_flash_buffer/src/circular_flash_buffer.cpp:225-284 | One write as the driver does it - stage the block, program the page, count with the cap, next page, erase ahead - takes memory and flash of a list to those of the list with one more block |
| FlashRuns.ReadHolds | components/bsp/circular_flash_buffer/src/circular_flash_buffer.cpp:286-338 | The walk back from the head reads the (index+1)-th most recent block, for every index below the count |
| FlashRuns.RecoveredHolds | components/bsp/circular_flash_buffer/src/circular_flash_buffer.cpp:103-215 | A clean reboot gives memory and flash back, with three or more sectors and blocks that start with their marker |
| FlashRuns.WrittenCount | components/bsp/circular_flash_buffer/src/circular_flash_buffer.cpp:249-278 | On any flash: where the head goes, and that the count grows to the capacity and no further and, when it is nearly there, gives up a sector's blocks on entering a sector |
| FlashRecovery.RecoveryOnAnyFlash | components/bsp/circular_flash_buffer/src/circular_flash_buffer.cpp:103-215 | On any flash with a blank page: a torn erase, told by a head on the last page and no block in sector 2, is completed; otherwise the flash stays, the head is where the scan puts it, the buffer is its page, and the count is within the capacity |
| FlashRecovery.ScanHeadIs | components/bsp/circular_flash_buffer/src/circular_flash_buffer.cpp:120-172 | The located head is the real one, through all cases of the scan |
| FlashRecovery.SentinelSilent | components/bsp/circular_flash_buffer/src/circular_flash_buffer.cpp:174-185 | With a head on the last page, sector 2 holds blocks, so no recovery erase |
| FlashRecovery.ScanCountIs | components/bsp/circular_flash_buffer/src/circular_flash_buffer.cpp:187-211 | The count derived from the head and the wrap test is the number of readable blocks |
| FlashSteps.AppendImage | components/bsp/circular_flash_buffer/src/circular_flash_buffer.cpp:235-280 | One write - program the head's page and, on entering a sector, erase the one after it - takes the image of a list to the image of the list with one more block |
| FlashSteps.GapIsErased | components/bsp/circular_flash_buffer/src/circular_flash_buffer.cpp:262-266 | The sector after the head's sector, and the head's sector behind the head, are fully erased at every call boundary |
| FlashLayout.ProgramIsExact | components/bsp/circular_flash_buffer/src/circular_flash_buffer.cpp:235-247 | Programming, which can only clear bits, yields exactly the intended page because the target slot is erased and the rest is equal |
| FlashSteps.RetainedStep | components/bsp/circular_flash_buffer/src/circular_flash_buffer.cpp:249-278 | Counting up, with the cap, and dropping one sector's blocks at an erase tracks the readable blocks; the cap never loses a count |
| FlashSteps.RetainedAtLeast | components/bsp/circular_flash_buffer/src/circular_flash_buffer.cpp:262-279 | With S sectors of B blocks the last min(n, (S - 2) * B) of n writes stay readable |
| FlashSteps.WriteEffect | components/bsp/circular_flash_buffer/src/circular_flash_buffer.cpp:225-284 | One write on memory and flash together, in the driver's own terms |
| FlashRuns.RetainedBlock | components/bsp/circular_flash_buffer/src/circular_flash_buffer.cpp:311-334 | A retained block is found at its place in flash, across page boundaries and the wrap-around |
| FlashLayout.Geometry.FieldIsExact | components/bsp/circular_flash_buffer/src/circular_flash_buffer.cpp:79-80 | The 8-bit blocks-per-page field holds the right value exactly for the block sizes other than 1, for which it holds 0 |
| CircularFlashBuffer.Driver.Init | components/bsp/circular_flash_buffer/src/circular_flash_buffer.cpp:73-223 | After a clean reboot the driver is as it was and the flash untouched; otherwise the exact reasons for refusing; any block size that divides the page is accepted, and for all but 1 the driver can work on whatever the flash holds |
| CircularFlashBuffer.Driver.Start | components/bsp/circular_flash_buffer/src/circular_flash_buffer.cpp:73-223 | For any flash content at all, the outcome is the one the recovery function computes from the raw bytes |
| CircularFlashBuffer.Driver.LocateHead | components/bsp/circular_flash_buffer/src/circular_flash_buffer.cpp:103-172 | The scan loops compute the head of the recovery function |
| CircularFlashBuffer.Driver.CheckSentinel | components/bsp/circular_flash_buffer/src/circular_flash_buffer.cpp:174-185 | Erases everything exactly when the head is on the last page and sector 2 holds no block |
| CircularFlashBuffer.Driver.DeriveCount | components/bsp/circular_flash_buffer/src/circular_flash_buffer.cpp:187-211 | The count of the recovery function |
| CircularFlashBuffer.Driver.CountValidBlocksInSector | components/bsp/circular_flash_buffer/src/circular_flash_buffer.cpp:39-55 | Counts the start markers of a sector |
| CircularFlashBuffer.Driver.EmptyBlockIndex | components/bsp/circular_flash_buffer/src/circular_flash_buffer.cpp:64-71 | The first slot without a start marker, or the number of slots |
| CircularFlashBuffer.Driver.WriteBlock | components/bsp/circular_flash_buffer/src/circular_flash_buffer.cpp:225-284 | Whatever the flash holds and whatever the block starts with, memory and flash move as one write of the runs, or not at all; on a ring that holds a list the list grows by the block; the status tells why not |
| CircularFlashBuffer.Driver.ReadBlock | components/bsp/circular_flash_buffer/src/circular_flash_buffer.cpp:286-338 | On any flash the slot so many places behind the head, and an error from the count on; on a ring that holds a list, index i gives the (i+1)-th most recent block |
| CircularFlashBuffer.Driver.Locate | components/bsp/circular_flash_buffer/src/circular_flash_buffer.cpp:297-327 | Walking back over page boundaries reaches the place that modular arithmetic gives |
| CircularFlashBuffer.Driver.EraseAll | components/bsp/circular_flash_buffer/src/circular_flash_buffer.cpp:340-365 | The empty list, with memory and flash to match |
| BlackboxRecords.DecodeOfEncode | components/middleware/blackbox/blackbox.cpp:72-76 | A record written is read back the same |
| BlackboxRecords.EncodeOfDecode | components/middleware/blackbox/blackbox.cpp:352-368 | Any 32 bytes that are accepted are the encoding of the record they are read as |
| BlackboxRecords.OneByteChangeRejected | components/middleware/blackbox/blackbox.cpp:360-365 | A stored record with any one byte changed is not accepted |
| BlackboxRecords.RecordLayout | components/middleware/blackbox/blackbox.cpp:72-76 | The place of every field in the 32 bytes, and that the check byte covers the 31 before it |
| BlackboxRecords.CheckByteIsStandard | components/middleware/blackbox/blackbox.cpp:53-66 | The check byte is the CRC-8 with the published check value |
| BlackboxRecords.CalculateCrc8 | components/middleware/blackbox/blackbox.cpp:53-66 | The nested loops compute the CRC-8 that the proofs are about |
| BlackboxText.FragmentAt | components/middleware/blackbox/blackbox.cpp:264-289 | Fragment i is bytes 25i to 25i+25 of the text, the last one padded, and only the last one holds a NUL |
| BlackboxText.FragmentCount | components/middleware/blackbox/blackbox.cpp:254-257 | The number of fragments is the one the index arithmetic computes |
| BlackboxText.UniqueDecoding | components/middleware/blackbox/blackbox.cpp:239-292 | For any messages and any cut of the log: walking from the newest record past the records each text takes gives back exactly the messages, newest first, the oldest possibly as the end of its text from a fragment boundary on |
| BlackboxText.TextIsFound | components/middleware/blackbox/blackbox.cpp:397-432 | At the end of a text the reader takes exactly its records, as many as are left, and gets the end of the text |
| Blackbox.FlashDecodes | components/middleware/blackbox/blackbox.cpp:352-432 | The same from the bytes in flash |
| BlackboxText.KeptIsLongest | components/middleware/blackbox/blackbox.cpp:236-239 | The text kept is the longest start of the formatted one without a NUL and of at most 199 bytes: it is all of it, or 199 bytes, or a NUL follows |
| BlackboxText.TextComesBack | components/middleware/blackbox/blackbox.cpp:236-292 | The records cut from a formatted text read back as that longest start, whatever the older messages |
| Blackbox.Log.AppendText | components/middleware/blackbox/blackbox.cpp:218-292 | Either all records of the text are queued, in order, or none; accepted exactly when enabled and there is room; the text is the longest start of the formatted one that can be kept |
| Blackbox.Log.QueueFragments | components/middleware/blackbox/blackbox.cpp:254-291 | The loop over the fragments queues the records of the text |
| Blackbox.Log.AppendTyped | components/middleware/blackbox/blackbox.cpp:300-325 | One padded record is queued, or the call is refused for size, state or room |
| Blackbox.Log.Consume | components/middleware/blackbox/blackbox.cpp:82-107 | The consumer's turn on any flash: programs the oldest record with its check byte, erases, or does nothing; a failed or refused write is dropped and its error is the result |
| Blackbox.TextFits | components/middleware/blackbox/blackbox.cpp:397-432 | Whatever records are found, the text put together has fewer bytes than the buffer of the reader |
| Blackbox.RecordedIsReadable | components/middleware/blackbox/blackbox.cpp:352-368 | The records read slot by slot from a ring that holds a list are the readable ones of the list |
| Blackbox.Log.Read | components/middleware/blackbox/blackbox.cpp:352-368 | On any flash the record in the i-th slot behind the head, or nothing when its marker or check byte is wrong or it is out of range |
| Blackbox.Log.ReadText | components/middleware/blackbox/blackbox.cpp:397-432 | On any flash, corrupted or foreign, the text at an index in a 200-byte buffer closed by a NUL, with all writes inside the buffer |
| Blackbox.Log.Join | components/middleware/blackbox/blackbox.cpp:421-429 | Putting the strings together oldest first stays inside the buffer |
| BlackboxQueue.RunInv | components/middleware/blackbox/blackbox.cpp:82-159 | Whatever callers and consumer do, the log once everything pending is done holds the records of the accepted messages, in order |
| BlackboxQueue.SyncIsLinear | components/middleware/blackbox/blackbox.cpp:327-335 | sync returns only when every record accepted before it, and nothing else, is written, in order |
| BlackboxQueue.EraseIsLinear | components/middleware/blackbox/blackbox.cpp:370-390 | erase_all returns with exactly the reset marker in the log |
| BlackboxQueue.AppendIsWhole | components/middleware/blackbox/blackbox.cpp:254-288 | Once the room is checked, queueing the fragments never waits and never fails, and nothing comes between them |
| BlackboxQueue.RestingLog | components/middleware/blackbox/blackbox.cpp:82-107 | At rest the log holds exactly the accepted messages, each in one piece |
| BlackboxQueue.RestingLogIsReadable | components/middleware/blackbox/blackbox.cpp:82-432 | From accepted messages through queue and consumer into the ring on flash, and back to a reader who walks it: the messages, newest first, also after a restart that rebuilds the ring from the bytes |
| BlackboxProgress.NothingBlocks | components/middleware/blackbox/blackbox.cpp:82-390 | In every state of every run that is not at rest, caller or consumer can take a step, and each step brings rest nearer: whatever the interleaving, every call returns |
| BlackboxProgress.CallsComplete | components/middleware/blackbox/blackbox.cpp:218-390 | Every call possible at rest - append, sync, erase, switching on or off - can be carried out and has exactly its effect on messages, log and the enabled flag |
| Bytes.LoadOfStore | components/middleware/espnow_link/include/espnow_codec.h:15-35 | A stored number is loaded again, if it fits |
| Bytes.StoreOfLoad | components/middleware/espnow_link/include/espnow_codec.h:15-35 | Loaded bytes are stored again |
| Bytes.LittleEndian | components/middleware/espnow_link/include/espnow_codec.h:15-35 | Of four bytes the first is the lowest |
| Bytes.ValueIsBinary | components/middleware/espnow_link/include/espnow_codec.h:15-35 | The bits of a byte are worth 1, 2, 4, ..., 128 |
| Bytes.Load | components/middleware/espnow_link/include/espnow_codec.h:15-23 | The loop loads the little-endian number |
| Bytes.Store | components/middleware/espnow_link/include/espnow_codec.h:28-35 | The loop writes the little-endian bytes and no others |
| Checksums.OneByteChangeShows | components/middleware/espnow_link/src/espnow_protocol.cpp:10-18 | A running checksum whose step loses neither state nor input never agrees on two inputs that differ in one byte |
| Checksums.Crc32Injective | components/middleware/espnow_link/src/espnow_protocol.cpp:10-18 | CRC-32 is such a checksum |
| Checksums.Crc8Injective | components/middleware/blackbox/blackbox.cpp:53-66 | CRC-8 is such a checksum |
| Checksums.FnvInjective | components/middleware/espnow_link/src/espnow_peer_store.cpp:28-37 | FNV-1a is such a checksum |
| LinkCodec.DecodeOfEncode | components/middleware/espnow_link/src/espnow_protocol.cpp:43-91 | Decoding undoes encoding exactly for the well-formed frames; all others are rejected |
| LinkCodec.EncodeOfDecode | components/middleware/espnow_link/src/espnow_protocol.cpp:43-91 | Re-encoding any accepted bytes gives the same bytes, and what was decoded is well formed |
| LinkCodec.FrameLayout | components/middleware/espnow_link/src/espnow_protocol.cpp:69-91 | The place of every field of a frame, the bytes its check value covers, and what the flags mean |
| LinkCodec.AcceptedExactly | components/middleware/espnow_link/src/espnow_protocol.cpp:20-67 | A frame is accepted exactly if its flags are known and, for an ACK, it has no message id, no payload, is not reliable and names a number other than 0 |
| LinkCodec.FrameCrcIsStandard | components/middleware/espnow_link/src/espnow_protocol.cpp:10-26 | The check value is the CRC-32 with the published check value, stored lowest byte first |
| LinkCodec.OneByteChangeRejected | components/middleware/espnow_link/src/espnow_protocol.cpp:20-52 | A frame with any one byte changed is rejected |
| LinkCodec.UpdateCrc32 | components/middleware/espnow_link/src/espnow_protocol.cpp:10-18 | The nested loops compute the CRC-32 that the proofs are about |
| LinkCodec.DecodeFrame | components/middleware/espnow_link/src/espnow_protocol.cpp:43-67 | The code decodes as the specification does |
| LinkCodec.EncodeFrame | components/middleware/espnow_link/src/espnow_protocol.cpp:69-91 | The buffer holds the encoding, nothing beyond it is touched, or the arguments are refused |
| LinkTheorems.ReachableInv | components/middleware/espnow_link/src/espnow_link_task.cpp:34-330 | Every state of every run keeps conservation, slot, attempts, cancellation, numbering and ACK invariants |
| LinkTheorems.EveryRequestInOnePlace | components/middleware/espnow_link/src/espnow_link_task.cpp:34-116 | In every run: every request ever accepted is queued, outstanding or finished - exactly one of these, and finished only once |
| LinkTheorems.OneFrameInDriver | components/middleware/espnow_link/src/espnow_link_task.cpp:51-79 | In every run, whatever comes next - own step, arrival or completion: at most one frame is handed to the driver, and only while it has none |
| LinkTheorems.CompletionCreditedToItsOwner | components/middleware/espnow_link/src/espnow_link_task.cpp:279-309 | In every run, for a completion with any address: the slot is freed, and only the request whose frame the driver had, with that address, moves or finishes, with the result of the completion - or a stale one ends cancelled |
| LinkTheorems.CancellationIsExact | components/middleware/espnow_link/src/espnow_link_task.cpp:43-59 | In every run, also when cancellations land between the look at the generation and the hand-over: no cancellation had reached a request when its frame passed the look; at most one frame slips past a cancellation, and after it no frame of an earlier request goes out; a request ends cancelled exactly if a cancellation had reached it at the last look - as long as fewer than 2^32 lie between |
| LinkTheorems.LateCancellationComesAfter | components/middleware/espnow_link/src/espnow_link_task.cpp:34-49 | A cancellation between the last look and the end of a request is the same as one just after its end, up to the count it is recorded with |
| LinkTheorems.GenerationsMeet | components/middleware/espnow_link/src/espnow_link_api.cpp:16-31 | Two generation counts agree exactly when a multiple of 2^32 cancellations lies between them |
| LinkTheorems.CancellationSpares | components/middleware/espnow_link/src/espnow_link_api.cpp:22-31 | Cancelling leaves queued requests, queued ACKs and the driver alone |
| LinkTheorems.RetriesAreBounded | components/middleware/espnow_link/src/espnow_link_task.cpp:311-330 | In every run: a request, finished or outstanding, has been submitted at most its limit of times, and NO_ACK comes after exactly that many |
| LinkProgress.ReceptionIsExact | components/middleware/espnow_link/src/espnow_link_task.cpp:211-277 | In every run: a frame that is no ACK is handed over exactly if it is best-effort, or reliable, sent to this link by a peer, and news - the peer's last reliable message is absent, of another session or of a lower number; news and the last message again are acknowledged, room permitting; nothing else changes, and bytes that do not decode change nothing |
| LinkProgress.AckIsExact | components/middleware/espnow_link/src/espnow_link_task.cpp:175-198 | In every run: an ACK ends the outstanding request ACKNOWLEDGED exactly if that is reliable, current, to the ACK's sender, with its number and this session, and its ACK is awaited or its frame in the driver; a request submitted once gives one sample, the time since then; a stale one ends CANCELLED; nothing else changes |
| LinkProgress.CompletionIsExact | components/middleware/espnow_link/src/espnow_link_task.cpp:279-309 | In every run, for any address: the driver is free; the request whose frame it had, with this address, ends SENT or MAC_FAILED if best-effort, and otherwise waits for its ACK as long as it asks for, or as its peer's timeout or the default tells |
| LinkProgress.TimeoutIsExact | components/middleware/espnow_link/src/espnow_link_task.cpp:311-330 | In every run: a request whose ACK is overdue is submitted again, the same frame, while attempts are left, and ends NO_ACK when none is; before its deadline nothing happens; a driver that refuses and a cancellation end it with that result |
| LinkProgress.TakeIsExact | components/middleware/espnow_link/src/espnow_link_task.cpp:81-116 | In every run: with nothing outstanding and the driver idle the oldest request leaves the queue and, if current and the link is up, goes out under the next number with its own id, payload and form; otherwise it ends with the fitting result |
| LinkProgress.SendIsExact | components/middleware/espnow_link/src/espnow_link_api.cpp:109-154 | A message is accepted exactly if the link is up, it fits, its destination may be sent to and there is room; each refusal says why; what is queued is that message with its options, a broadcast as best-effort |
| LinkProgress.AckLeaves | components/middleware/espnow_link/src/espnow_link_task.cpp:128-149 | The oldest queued ACK goes to its destination with its session and number, once the link is up and the driver idle |
| LinkProgress.SweepIsExact | components/middleware/espnow_link/src/espnow_link_task.cpp:43-49 | The outstanding request ends CANCELLED exactly if a cancellation has reached it |
| LinkProgress.SwitchingOffIsExact | components/middleware/espnow_link/src/espnow_link.cpp:153-167 | Switching off stops requests, overtakes all earlier ones, and forgets the driver and the queued ACKs - and nothing else |
| LinkProgress.AddingPeersIsExact | components/middleware/espnow_link/src/espnow_link_api.cpp:33-82 | When a peer is refused, and why |
| LinkProgress.AddedPeer | components/middleware/espnow_link/src/espnow_link_api.cpp:70-82 | What an added or changed peer remembers and forgets |
| LinkProgress.SettingUpIsExact | components/middleware/espnow_link/src/espnow_link_api.cpp:84-216 | Removing a peer, registering a handler and setting a timeout do that much and no more |
| LinkExchange.FrameArrives | components/middleware/espnow_link/src/espnow_link_task.cpp:211-277 | Between two links, in every linked state: each arrival of a frame of the sender's newest request is acknowledged, room permitting, and its message handed over unless it was before |
| LinkExchange.AckArrives | components/middleware/espnow_link/src/espnow_link_task.cpp:175-198 | The arrival of the receiver's ACK ends the request it is for as acknowledged |
| LinkExchange.OneRoundTripSuffices | components/middleware/espnow_link/src/espnow_link_task.cpp:175-330 | In every run of the two, whatever was lost before: once one frame of the outstanding request and the ACK for it get through, the request ends acknowledged and its message has been handed over, once |
| LinkExchange.ExchangeCompletes | components/middleware/espnow_link/src/espnow_link_task.cpp:81-330 | In every run: an undisturbed exchange from the queue ends ACKNOWLEDGED after one attempt with the message handed over unchanged, whether the driver's completion comes before the ACK or not |
| LinkTiming.WrappedComparison | components/middleware/espnow_link/src/espnow_link_task.cpp:316-319 | The signed 32-bit comparison agrees with unbounded time for distances below 2^31 |
| LinkTiming.SmoothedWithinSamples | components/middleware/espnow_link/src/espnow_link_task.cpp:151-173 | In every run: a peer's smoothed round-trip time is 0 before its first sample and from then on between its smallest and largest sample, as long as no value is cut to 16 bits; and every sample is of a request submitted once (Karn's rule, section 3 of RFC 6298) |
| LinkTiming.SampleIsExact | components/middleware/espnow_link/src/espnow_link_task.cpp:155-173 | A sample leaves the smoothed value that unbounded arithmetic gives exactly if that value is below 2^16, and its remainder otherwise; it becomes the last and one of the three recent values, and the timeout 5 ms more than the smoothed value within 8 to 100 ms |
| LinkTiming.TimeoutsStayInRange | components/middleware/espnow_link/src/espnow_link_task.cpp:171-172 | Over any run every peer's timeout stays within 8 to 100 ms |
| LinkTiming.SetterKeepsTimeouts | components/middleware/espnow_link/src/espnow_link_api.cpp:204-216 | So it does when set by hand, and nothing else is disturbed |
| LinkDelivery.Ends.ReliableDelivery | components/middleware/espnow_link/src/espnow_link_task.cpp:175-277 | Over a network that loses, repeats, delays and reorders: the receiver hands over only what was sent, at most once, in the order of send; what is reported acknowledged was handed over |
| LinkDelivery.Ends.RunLinked | components/middleware/espnow_link/src/espnow_link_task.cpp:175-277 | The invariant between the two links that this rests on, over every run |
| LinkSessions.TakenAgainIffSessionChanged | components/middleware/espnow_link/src/espnow_link_task.cpp:233-248 | In every run of a receiver: a frame handed over before is taken again exactly if the last reliable message of its peer is of another session or a lower number, and only if a message of another session came in between |
| LinkTask.Task.AddPeer | components/middleware/espnow_link/src/espnow_link_api.cpp:33-82 | Adds or changes a peer, a new key forgetting what was received under the old one; the status tells why not; a link being set up stays one from which all runs may start |
| LinkTask.Task.Deactivate | components/middleware/espnow_link/src/espnow_link.cpp:153-167 | No more requests, everything earlier stale, the driver slot free and the queues of arrivals and ACKs empty |
| LinkTask.Task.Send | components/middleware/espnow_link/src/espnow_link_api.cpp:109-154 | Queues the request stamped with the current generation, or refuses it; the status tells exactly why |
| LinkTask.Task.CancelTransmissions | components/middleware/espnow_link/src/espnow_link_api.cpp:22-25 | Moves the 32-bit generation on, which makes every earlier request stale |
| LinkTask.Task.SetPeerAckTimeout | components/middleware/espnow_link/src/espnow_link_api.cpp:204-216 | Sets the timeout of a known peer within 8 to 100 ms, or tells why not |
| LinkTask.Task.SubmitPending | components/middleware/espnow_link/src/espnow_link_task.cpp:51-79 | Submits, or refuses for a busy driver, a stale generation or a driver error |
| LinkTask.Task.StartSend | components/middleware/espnow_link/src/espnow_link_task.cpp:81-116 | Stale requests finish CANCELLED, others SUBMIT_FAILED when the link is busy or inactive; the rest get the next number and go to the driver |
| LinkTask.Task.SubmitNextAck | components/middleware/espnow_link/src/espnow_link_task.cpp:128-149 | Takes the oldest queued ACK and hands it to a free driver; an ACK the driver refuses is dropped |
| LinkTask.Task.UpdateRtt | components/middleware/espnow_link/src/espnow_link_task.cpp:151-173 | One sample into the 16-bit metrics unless the request was retransmitted |
| LinkTask.Task.ProcessAck | components/middleware/espnow_link/src/espnow_link_task.cpp:175-198 | Finishes the outstanding request exactly if the ACK names its peer, number and session and it waits or is in the driver |
| LinkTask.Task.ProcessReceivedEvent | components/middleware/espnow_link/src/espnow_link_task.cpp:211-277 | Frames that decode are ACKs, repeats acknowledged again, old ones dropped, or handed over after the number is remembered |
| LinkTask.Task.ProcessMacResult | components/middleware/espnow_link/src/espnow_link_task.cpp:279-309 | Frees the driver slot and moves only the request whose address completed |
| LinkTask.Task.ProcessTimeout | components/middleware/espnow_link/src/espnow_link_task.cpp:311-330 | After the deadline: another attempt, or NO_ACK at the limit |
| LinkTask.Task.Round | components/middleware/espnow_link/src/espnow_link_task.cpp:332-364 | One turn of the task loop is exactly this sequence of atomic steps, so all theorems about runs hold of it |
| LinkTask.RoundInOrder | components/middleware/espnow_link/src/espnow_link_task.cpp:332-364 | What a turn does, place by place: a sweep, every received frame, every completion, one ACK, up to sixteen requests, and the timeout |
| PairingAgreement.TwoPartyAgreement | components/middleware/espnow_link/src/espnow_pairing.cpp:517-541 | Over any loss, repetition, delay, reordering, retry, timeout, cancellation and restart of either device: whatever a device commits as initiator of an extended pairing with the other, the other had saved before, with the same key |
| PairingAgreement.SuccessIsMutual | components/middleware/espnow_link/src/espnow_pairing.cpp:163-175 | When an initiator reports success of an extended pairing, the key it has stored for the responder was stored by the responder for it earlier |
| PairingAgreement.SendingIsSound | components/middleware/espnow_link/src/espnow_pairing.cpp:417-423 | A success can leave encrypted only under a key that is saved, or under the key of a transaction still unconfirmed |
| PairingAgreement.RunJoint | components/middleware/espnow_link/src/espnow_pairing.cpp:629-801 | The invariant between two devices and the air, over every run |
| PairingRuns.StepFine | components/middleware/espnow_link/src/espnow_pairing.cpp:629-801 | Every event, timeout and API call keeps the device's invariant, and saves, generates keys and settles keys only for the reasons the protocol allows |
| PairingResults.IdleBindings | components/middleware/espnow_link/src/espnow_pairing.cpp:130-175 | Whenever no session is active, every saved peer is installed, encrypted, with its saved key - through suspending, the temporary peer, rollback and restart |
| PairingResults.FailedSessionKeepsStore | components/middleware/espnow_link/src/espnow_pairing.cpp:163-175 | A session of an initiator that does not report success leaves the saved peers as they were |
| PairingResults.InitiatorStep | components/middleware/espnow_link/src/espnow_pairing.cpp:748-801 | Each step of an initiator goes on, fails or is cut with nothing saved, or succeeds with its peer saved |
| PairingResults.HistoryIsStored | components/middleware/espnow_link/src/espnow_peer_store.cpp:53-96 | The history of saved keys used by the agreement is the history of the store |
| PairingResults.ResponderKeepsLimit | components/middleware/espnow_link/src/espnow_pairing.cpp:408-451 | A responder never grows the store past the peer limit |
| PairingResults.InitiatorLimit | components/middleware/espnow_link/src/espnow_pairing.cpp:536-541 | An initiator's commit exceeds the limit exactly when the peer is new, the table is at the limit with a free slot, and nothing is replaced |
| PairingResults.PairsOnlyWithTheOne | components/middleware/espnow_link/src/espnow_pairing.cpp:344-378 | A device is asked to pair only if it is the one acceptable candidate; several, or more than fit, end the session |
| PairingResults.ChannelsTakeTurns | components/middleware/espnow_link/src/espnow_pairing.cpp:328-334 | The channels take turns, each for two tries |
| PairingProgress.StartPings | components/middleware/espnow_link/src/espnow_pairing.cpp:630-645 | Starting to pair sends a ping under the new nonce on the first channel |
| PairingProgress.PingIsAnswered | components/middleware/espnow_link/src/espnow_pairing.cpp:277-285 | A listening device answers a ping in both forms and forgets the binding of its sender |
| PairingProgress.AnswerIsCollected | components/middleware/espnow_link/src/espnow_pairing.cpp:286-305 | An answer under the current nonce and channel makes its sender a candidate, four at most, with the role it tells; any other changes nothing |
| PairingProgress.TheOneIsAsked | components/middleware/espnow_link/src/espnow_pairing.cpp:344-378 | When the answers are in, the one candidate that fits is asked in the form it announced |
| PairingProgress.RequestIsOffered | components/middleware/espnow_link/src/espnow_pairing.cpp:424-497 | An allowed request for which there is room is answered with the saved key of a known peer or a new one |
| PairingProgress.RequestIsRefused | components/middleware/espnow_link/src/espnow_pairing.cpp:424-497 | Any other request opens nothing; an extended one for which there is no room is told so |
| PairingProgress.RequestIsRepeated | components/middleware/espnow_link/src/espnow_pairing.cpp:424-440 | A repeated request gets the same key again |
| PairingProgress.OfferIsTaken | components/middleware/espnow_link/src/espnow_pairing.cpp:498-516 | The offered key is installed and confirmed under encryption |
| PairingProgress.OfferLeft | components/middleware/espnow_link/src/espnow_pairing.cpp:655-672 | Once the offer has left, the key is installed and the confirmation awaited, or dealt with if it came early |
| PairingProgress.EarlyConfirmIsKept | components/middleware/espnow_link/src/espnow_pairing.cpp:727-732 | A confirmation before that is kept for then |
| PairingProgress.ConfirmIsSaved | components/middleware/espnow_link/src/espnow_pairing.cpp:517-535 | The confirmation saves the peer with key, channel and role, and the outcome is told - or reported, in a legacy session; a save that fails is told or reported too |
| PairingProgress.ConfirmationDelivered | components/middleware/espnow_link/src/espnow_pairing.cpp:673-682 | A delivered confirmation waits for the result, or commits a legacy pairing |
| PairingProgress.SuccessIsCommitted | components/middleware/espnow_link/src/espnow_pairing.cpp:734-742 | A success from the responder, before or after the link's report, saves the peer with key, channel and role, installs it and reports OK; a refused save reports its error and leaves the store alone |
| PairingProgress.FailureIsReported | components/middleware/espnow_link/src/espnow_pairing.cpp:734-742 | A failure or a refusal from the responder ends the session with that error |
| PairingProgress.ResultLeft | components/middleware/espnow_link/src/espnow_pairing.cpp:683-686 | Delivered or not, the result ends the responder's session with the fitting report, and what it saved stays |
| PairingProgress.QueryIsAnswered | components/middleware/espnow_link/src/espnow_pairing.cpp:695-699 | The last completed pairing is told again to its peer |
| PairingProgress.SessionEnds | components/middleware/espnow_link/src/espnow_pairing.cpp:748-763 | A session ends with the radio off and at its deadline, with the fitting error; before any deadline a tick does nothing |
| PairingProgress.InitiatorDeadline | components/middleware/espnow_link/src/espnow_pairing.cpp:764-790 | At the deadlines of the initiator: requests and queries three times in all, then the next try; no fitting candidate moves on, several end the session |
| PairingProgress.ResponderDeadline | components/middleware/espnow_link/src/espnow_pairing.cpp:764-801 | At the deadlines of the responder an unconfirmed transaction is given up without a trace, and a saved one ends the session |
| PairingProgress.UndeliveredIsGivenUp | components/middleware/espnow_link/src/espnow_pairing.cpp:652-688 | An offer the link could not deliver is given up, a confirmation starts the next try, and callbacks of other transactions are ignored |
| PairingProgress.CancelEnds | components/middleware/espnow_link/src/espnow_pairing.cpp:928-941 | Cancelling ends a session |
| PairingProgress.ForgettingIsExact | components/middleware/espnow_link/src/espnow_pairing.cpp:1005-1015 | Forgetting removes one saved peer and its binding, outside a session |
| PairingProgress.RestartKeepsPeers | components/middleware/espnow_link/src/espnow_pairing.cpp:837-859 | A restart leaves exactly the saved peers, in force |
| PairingRefusals.UnmeantIsIgnored | components/middleware/espnow_link/src/espnow_pairing.cpp:689-747 | A message of the wrong kind, form, phase, transaction or address changes nothing |
| PairingRefusals.SilentScan | components/middleware/espnow_link/src/espnow_pairing.cpp:306-327 | A scan whose channel or ping is refused waits all the same and remembers it |
| PairingRefusals.RefusedCandidate | components/middleware/espnow_link/src/espnow_pairing.cpp:366-374 | A candidate that the driver does not take is undone and the scan goes on |
| PairingRefusals.RefusedOffer | components/middleware/espnow_link/src/espnow_pairing.cpp:498-516 | An offer that cannot be installed or confirmed is undone and the scan goes on |
| PairingRefusals.RefusedRequester | components/middleware/espnow_link/src/espnow_pairing.cpp:478-497 | A requester that cannot be installed or answered is given up without a trace |
| PairingRefusals.RefusedKey | components/middleware/espnow_link/src/espnow_pairing.cpp:655-664 | An offer whose key the driver does not take is given up |
| PairingExchange.PairingCompletes | components/middleware/espnow_link/src/espnow_pairing.cpp:277-801 | Two idle devices that accept each other and have room, one listening and one scanning, hearing each other in order: discovery, choice, request, offer, confirmation and result leave both idle, each with the other saved and installed under one key and one report - whether the result comes before or after the link has reported the confirmation, or is lost and asked for |
| PairingInvariants.RollbackFacts | components/middleware/espnow_link/src/espnow_pairing.cpp:130-139 | Rolling back leaves no transaction, no unsaved key, and every saved peer installed or suspended |
| PairingInvariants.FinishOk | components/middleware/espnow_link/src/espnow_pairing.cpp:163-175 | Finishing leaves an idle device, an unchanged store and one report |
| PairingTask.Task.Turn | components/middleware/espnow_link/src/espnow_pairing.cpp:629-801 | Any event, timeout or call, by the task's own variables and loops: the atomic step of the runs, so that all results about runs hold of the task; the device's invariant is kept; an idle device has every saved peer installed with its saved key; an initiator's session that ends without a reported success has left the store alone; a responder stays within the peer limit |
| PairingTask.Task.CountAcceptable | components/middleware/espnow_link/src/espnow_pairing.cpp:345-353 | The loop counts the acceptable candidates and keeps the last |
| PairingTask.Task.Admits | components/middleware/espnow_link/src/espnow_pairing.cpp:211-276 | Lets through exactly the messages that may become events |
| PeerTable.RecordRoundTrip | components/middleware/espnow_link/src/espnow_peer_store.cpp:21-37 | A table written is valid and read back the same |
| PeerTable.OneByteChangeRejected | components/middleware/espnow_link/src/espnow_peer_store.cpp:21-37 | A record with any one byte changed is not valid |
| PeerTable.RecordLayout | components/middleware/espnow_link/src/espnow_peer_store.cpp:21-37 | The place of every field in the 96 bytes, and which of them the hash covers |
| PeerTable.HashIsStandard | components/middleware/espnow_link/src/espnow_peer_store.cpp:28-37 | The hash is FNV-1a with a published value |
| PeerTable.LoadedBack | components/middleware/espnow_link/src/espnow_peer_store.cpp:39-51 | What was stored is loaded, and anything invalid is loaded as the empty table |
| PeerTable.FilledContents | components/middleware/espnow_link/src/espnow_peer_store.cpp:60-82 | Filling the slot of an address, or a free slot, is an update of the map and keeps addresses distinct |
| PeerTable.ClearedContents | components/middleware/espnow_link/src/espnow_peer_store.cpp:143-149 | Clearing a slot removes its address from the map |
| PeerTable.ContentsSize | components/middleware/espnow_link/src/espnow_peer_store.cpp:74-76 | The number of saved peers is the number of used slots |
| PeerStore.Store.CalculateChecksum | components/middleware/espnow_link/src/espnow_peer_store.cpp:28-37 | The loop computes the FNV-1a hash that the proofs are about |
| PeerStore.Store.LoadStore | components/middleware/espnow_link/src/espnow_peer_store.cpp:39-51 | An invalid record reads as the empty table and is replaced by it |
| PeerStore.Store.SavePeer | components/middleware/espnow_link/src/espnow_peer_store.cpp:53-96 | One entry of the map is set, in the whole map or an emptied one; refused exactly when full; a failed write changes nothing; the run-time peers dropped are the replaced ones |
| PeerStore.Store.ErasePeer | components/middleware/espnow_link/src/espnow_peer_store.cpp:140-154 | One entry is removed, or nothing changes |
| PeerStore.Store.UpdatePeerChannel | components/middleware/espnow_link/src/espnow_peer_store.cpp:118-138 | The channel of one entry is set and the entry as it now is goes to the link, whose answer is the result; or nothing changes |
| PeerStore.Store.RetainFirstPeer | components/middleware/espnow_link/src/espnow_peer_store.cpp:98-116 | At most one of the old entries is left, unchanged, and it is the one in the first used slot |
| PairingStore.SavesAgree | components/middleware/espnow_link/src/espnow_peer_store.cpp:53-96 | The saving that pairing assumes is the one the store promises: refused for room in the same cases, the same map afterwards, the same run-time peers dropped |
| PeerStore.Store.EraseAllPeers | components/middleware/espnow_link/src/espnow_peer_store.cpp:156-160 | The empty map, or nothing changes |
| PeerStore.Store.ReadSavedPeer | components/middleware/espnow_link/src/espnow_peer_store.cpp:166-185 | The used slots in order, and nothing beyond the number of saved peers |
| Button.ButtonReadsCorrectly | components/middleware/Button/Button.cpp:137-198 | For every sequence of presses the trace, scan by scan, is the reading of its run lengths, with clicks counted in three bits, exactly if no press lasts until its 32-bit time wraps |
| Button.TraceIsReading | components/middleware/Button/Button.cpp:137-198 | The same from any state between presses |
| Button.ThreeBitsSuffice | components/middleware/Button/Button.cpp:148-195 | This is the true reading exactly when no decision falls on a count that three bits mistake |
| Button.EightClicksAreLost | components/middleware/Button/Button.cpp:172-174 | The machine posts no click event in the whole trace of eight quick clicks, although the true reading has one |
| Button.EverySequenceIsStrokes | components/middleware/Button/Button.cpp:137-198 | Every sequence of samples is idle time and presses, so nothing is left unread |
| Button.HeldPressWraps | components/middleware/Button/Button.cpp:141-144 | From power-up, one press and its release are traced as their reading if and only if the press lasts for at most 2^32 divided by the scan period samples; the sample after makes its 32-bit time wrap |
| Button.Button.RunStateMachine | components/middleware/Button/Button.cpp:137-198 | One sample moves the counters and posts events as the trace function says |
| Interp.NonEquidistantInterp.Interpolate | components/common/Interp/Interp.hpp:145-203 | The value is on the straight line through the two points around, stated as proportional differences, or that of the nearer end, in tables of either direction |
| Interp.MapIsLine | components/common/Interp/Interp.hpp:35-38 | The formula gives the one value on the straight line |
| Interp.NonEquidistantInterp.Search | components/common/Interp/Interp.hpp:159-189 | The binary search finds the first point not before the input |
| Interp.EquidistantInterp.Interpolate | components/common/Interp/Interp.hpp:67-98 | The value by direct index is on the straight line between the two neighbours of the equally spaced table |
| Interp.InterpolatorsAgree | components/common/Interp/Interp.hpp:67-203 | On equally spaced points, rising or falling, both give the same value everywhere |
| Interp.ValueIsUnique | components/common/Interp/Interp.hpp:35-38 | There is one interpolated value for each input, also at the points of the table |
| Interp.InterpolationIsMonotone | components/common/Interp/Interp.hpp:145-203 | If the outputs do not fall along the table, neither does the value |
| BatteryLevel.Ratchet | components/middleware/battery_level/src/battery_level.cpp:122-148 | Over any run of complete and cut updates, deep sleeps and failing copies that leaves a copy of the newest record, the shown charge is the smallest while discharging, the largest while charging, of what was shown first and of all estimates since that reached a copy |
| BatteryLevel.RatchetFromAnywhere | components/middleware/battery_level/src/battery_level.cpp:101-148 | The same after the first complete update from any memory content at all |
| BatteryLevel.NewestIsFound | components/middleware/battery_level/src/battery_level.cpp:54-80 | Restoring finds the newest record if one copy of it is intact, also across the wrap of the numbers |
| BatteryLevel.CorruptionShows | components/middleware/battery_level/src/battery_level.cpp:59-80 | After a copy goes bad the shown record is unchanged exactly if a copy of it is left, and the shown charge exactly if one is left or the newest of those left has the same charge |
| BatteryLevel.OldChargeReturns | components/middleware/battery_level/src/battery_level.cpp:101-118 | A cut write and one failing copy can bring an older charge back |
| BatteryLevel.Battery.Update | components/middleware/battery_level/src/battery_level.cpp:122-148 | Shows the ratcheted estimate and writes it to the copies under the next number |
| BatteryLevel.Battery.RestoreRtcState | components/middleware/battery_level/src/battery_level.cpp:59-80 | The loop picks the newest valid copy |
| BatteryLevel.Battery.PersistRtcState | components/middleware/battery_level/src/battery_level.cpp:101-118 | The first copies, as many as were written, hold the new record |
| BatteryLevel.EstimateIsMonotone | components/middleware/battery_level/src/battery_level.cpp:95-99 | A higher voltage never gives a lower estimate, and none above 100 |
| BatteryLevel.RoundedIsNearest | components/middleware/battery_level/src/battery_level.cpp:95-99 | The estimate is the nearest whole number within 0 and 100 |

## Left out

- FlashRecovery.RecoveryIsExact: power loss inside a write or an erase, and failing erases, because the code does not re-establish the empty gap after them.
- CircularFlashBuffer.Driver.Init: the mutex creation at its end; an earlier state is given as the list `last`, which the program does not have. A driver started with one-byte blocks is accepted, as in the code, but with no slots per page it is not followed further.
- FlashRuns.RingRefinesList: reboots after writing blocks that do not start with 0xAA, which the scan cannot see; without reboots any blocks will do.
- CircularFlashBuffer.Driver.WriteBlock: a program operation that fails part-way; a failing one leaves the page as it was.
- Blackbox.Log.Consume: failing erases, and the semaphore that hands the result to a waiting caller.
- Blackbox.Log.AppendText: printf formatting; the text is taken as formatted. A mutex that is not free at once refuses the call in the code.
- BlackboxText.UniqueDecoding: STRING records appended through the typed interface, which can imitate fragments, and message types other than STRING and STRUCTURED.
- BlackboxQueue.RunInv: a program operation that fails, whose record the consumer drops (`Blackbox.Log.Consume`).
- BlackboxQueue.EraseIsLinear: an erase that fails, and allocation failures of the semaphore.
- LinkTiming.SmoothedWithinSamples: values cut to 16 bits, for which `LinkTiming.SampleIsExact` gives the exact condition.
- LinkDelivery.Ends.ReliableDelivery: one sender session, one receiver peer entry without change of key or removal, and at most 2^32 - 1 started requests; beyond these the code itself makes no such promise.
- LinkTheorems.CancellationIsExact: 2^32 cancellations between acceptance and outcome, where generations meet again; see `LinkTheorems.GenerationsMeet`.
- LinkTask.Task.Round: creation and deletion of queues and tasks, statistics counters, interrupt context.
- PairingExchange.PairingCompletes: messages lost on the way other than the result; a lost message is a deadline, whose effect `PairingProgress` gives step by step. The legacy form has the same steps one by one.
- PairingAgreement.TwoPartyAgreement: the legacy path, which commits on a link ACK alone; more than two devices appear only as arbitrary messages under other addresses.
- PairingAgreement.SuccessIsMutual: what the responder saved may since have been replaced or forgotten by it.
- PairingResults.IdleBindings: run-time peers beyond the saved ones, and a link or driver without room when peers are restored.
- PairingTask.Task.Start: how `prepare_channels` lists the channels; any list is an input, and so are the deadlines.
- Button.Button.RunStateMachine: the event queue of five entries, which drops events when full.
- Interp.NonEquidistantInterp.Interpolate: floating-point rounding.
- BatteryLevel.Battery.Update: the bytes of a copy; a copy is valid or not, and a copy cut in the middle counts as not valid.
- BatteryLevel.EstimateIsMonotone: the generated table of voltages; any table of rising voltages and percentages will do.
- Re-keying and removing link peers in the middle of a run, statistics, and the derived timeouts of the link API.
- Channel recovery and probing, which send outside the driver-slot discipline.
- Start-up and shut-down of the driver and of pairing, pairing configuration, and changing the role of a saved peer.
- Two-sector partitions after wrapping, where recovery is wrong.
- Wi-Fi manager, web and DNS servers, shell, ADC, PWM, TWAI, time service, OTA, energy meter, log capture, remote switch registry and payload encoders: plumbing or easier members.
