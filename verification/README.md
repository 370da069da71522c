# SRTP in Dafny

SRTP transfers a file over UDP with 11-bit sequence numbers that wrap, a sliding
window of at most 63 packets, cumulative and selective acknowledgements, and two
CRC-32s in every packet. The repository contains one sender and receiver of its
own (`src/`), those of three other groups (`tools/groupe_20`, `groupe_42`,
`groupe_61`) that are paired with it, and a C network simulator. This project
models the parts in which correctness is hard to see and proves what they are
meant to guarantee, for every file, every run and every input.

## How it is organised

| file | what it models |
|---|---|
| SeqNums, Packets | numbers modulo 2048 and their unbounded reading; packets; cutting a file into chunks |
| ServerSession | one client session of `src/server.py` as functions on its fields |
| ServerLoop | the same session as a class whose methods are the statements of the loop |
| SackClient, ClientLoop | the receiver of groupe_20, as functions and as a class that writes real SACK bytes |
| SlidingWindow | both together over two channels that keep order, lose and duplicate |
| Progress | that this system can never get stuck |
| CumulativeClient | the ACK-only receivers of groupe_42 and groupe_61 |
| Transfer | the two classes joined by channels of bytes, in any interleaving, with loss, duplication and corruption |
| TransferEnds | that the two classes can always go on until the file is written |
| LogNetwork | a network in which whatever was sent may arrive at any time, any number of times; the server's side of it |
| Reordering | `src/server.py` with groupe_42's receiver on that network, nothing arriving too late |
| PunctualRuns | that this system can never get stuck |
| SackReordering | `src/server.py` with groupe_20's receiver on that network |
| SackSafeLength | how long a file may be there for lateness never to matter |
| SackPunctual, SackCompletion, SackSpan | files of any length there with nothing arriving too late: what is safe, that it never gets stuck, and that the bound on the numbers in use is exact |
| Lateness | how long a file may be in the system of Reordering for lateness never to matter, and what one late packet does to longer ones |
| Group42Sender | the system of Reordering with groupe_42's own sender |
| BoundedFile | `src/server.py` with `src/client.py` on short files and an arbitrary network |
| AckLoops, Unwrapping | two ways of applying an ACK; recovering file positions from 11 bits |
| Positional, SackCodec | bit strings, shifts and masks; the SACK payload in both forms |
| Crc32, Segments | CRC-32 bit by bit; the segment encoders and decoders of all four programs |
| MinQueue, LinkSim | the 0-rooted heap of the simulator and the delivery of delayed packets |

The systems are parametrised by `Arith`. `Wrapping` is what the programs compute.
`Unbounded` gives every packet its own number, so that one can say which packet
is meant. A run is any finite sequence of events; retransmission, loss,
duplication and the batching of groupe_20's client are events that may happen
whenever they are enabled, so no result depends on a clock: `Session` keeps its
timers, and its readings of the clock are arbitrary. Imperative code is
kept imperative: the classes `Session`, `SrtpClient`, `Window`, `FileClient` and
`MinQueue`, and the loops over local variables, are proved against the functions
that the results speak of. `Transfer` then carries the results about the system
back to the classes: whatever `Session` and `SrtpClient` do with real bytes
between them is a run of the system.

## What the code does and the documents do not say

- `README.md:214` says that a window of 63 rules out confusion at a wrap. The
  server compares only the number of unacknowledged packets with the window
  (`src/server.py:90`), so the span of numbers in use is bounded only through the
  receiver's free-space field. Between src's server and groupe_20's client
  `SlidingWindow.SpanIsBounded` proves 63 for channels that keep order. With
  reordering an old SACK can open the window again: as long as no DATA packet is
  more than 1985 behind and no ACK more than 1024, the span is at most 125, some
  run of every file of 126 chunks or more reaches that (`SackSpan.SpanIsReached`),
  and files of any length are safe all the same
  (`SackPunctual.PunctualRunsAreSafe`). Without a bound on lateness every run is
  right if and only if the file has at most 1025 chunks, 1026 for an initial window
  of 1 (`SackSafeLength.SafeLengthIsExact`): beyond that, one ACK that is 1025
  behind makes the server forget a chunk and declare the end.
- Between src's server and groupe_42's client the same lengths are exact
  (`Lateness.SafeLengthIsExact`, `Lateness.LateAckLosesAChunk`). From 2048 chunks
  on, one DATA packet that is 2049-W behind is written a second time
  (`Lateness.LatePacketIsWritten`). With nothing that late, files of any length are
  safe and the span is at most W (`Reordering.PunctualRunsAreSafe`).
- `depackage` raises `struct.error` on a segment whose header is intact but whose
  payload or second CRC is cut off (`src/protocol.py:49-51`), and on nothing else
  (`Segments.RaisedIsTruncated`). The loop of `src/server.py:19-83` catches only
  `socket.timeout`.
- `decode_sack` drops a genuine final 0 (`src/protocol.py:79-80`).
  `SackCodec.SetReadBySrc` shows that between groupe_20 and src this happens
  exactly for the set {0}; the number is then only retransmitted.
- `src/client.py:78-80` has no receive window. Beyond 744 chunks a run exists in
  which it builds a SACK that `empackage` refuses (`BoundedFile.LimitIsExact`).
- `src/server.py:122-125` cannot run, because the enclosing test already asks that
  the end-of-file packet was not sent; that packet leaves twice at first and
  later, after silence, five times at once.
- On a circular distance of exactly 1024, `handle_ack` of groupe_42 forgets half
  the number space while `src/server.py` ignores the ACK (`AckLoops.AgreeUnlessOpposite`).
- `fill_header` of groupe_42 replaces a number above 2047 by 0, `empackage` reduces
  it modulo 2048 (`Segments.TooLargeNumbers`).
- `empackage` accepts a window above 63 and ors its upper bits into the type
  (`Segments.SrcRoundTrip`).
- groupe_42 and groupe_61 treat an end-of-file packet that comes early differently:
  one ignores it, the other stores it (`CumulativeClient.EndIsAlike`).
- The comment at `min_queue.c:33-42` describes the usual heap. With
  `PARENT(x) = x >> 1` and the root at 0, slot 0 has the single child 1.

## Model

| member | source | states |
|---|---|---|
| SlidingWindow.WrappingBehavesLikeUnbounded | src/server.py:62-121 | for every file, event sequence and initial window up to 63, the wrapping system can follow it exactly when the unbounded one can, and then every number is the unbounded one's residue and nothing else differs |
| Packets.ChunksAreReads | src/server.py:91 | the chunks are the successive reads of 1024 bytes, only the last being shorter |
| SlidingWindow.OutputIsPrefixOfFile | tools/groupe_20/SRTPClient.py:101-146 | in every reachable state of the wrapping system the output is a prefix of the file, and the whole file once the server sent or the client accepted the end-of-file packet |
| SlidingWindow.SpanIsBounded | src/server.py:77-102 | next - base never exceeds 63, base is kept whenever base < next, every number in between is kept or held by the client, and every arriving DATA packet is within [r-63, r+62] of the expected number r |
| SlidingWindow.ArrivalsAreNear | tools/groupe_20/SRTPClient.py:131-138 | every DATA packet under way lies within 63 of what the client expects, so its residue names one packet only |
| SlidingWindow.FinMeansAllWritten | src/server.py:112-121 | when memory is empty at the end of the file, the client has written the whole file |
| SlidingWindow.StepKeeps | src/server.py:62-121 | every event keeps the invariant of the system: SACKs grow along the channel, known numbers were received, window plus numbers SACKed is 63 |
| SlidingWindow.RunKeeps | src/server.py:62-121 | the invariant holds after every run |
| SlidingWindow.OnAckServerOk | src/server.py:62-81 | processing an acknowledgement keeps base in memory and keeps the span below 64, by counting the numbers a SACK names |
| SlidingWindow.StepWraps | src/server.py:62-121 | one event is possible in both readings or in neither, and takes corresponding states to corresponding states |
| SlidingWindow.DataNetworkKeeps | tests/proxy.py:85-123 | losing or doubling a DATA packet in place keeps the invariant |
| SlidingWindow.AckNetworkKeeps | tests/proxy.py:85-123 | losing or doubling an acknowledgement in place keeps the invariant |
| Progress.AlwaysCompletable | src/server.py:88-141 | for an initial window in 1..63, from every reachable state of the wrapping system some continuation without loss or duplication ends with exactly the file written |
| Progress.AdvertisesRoom | tools/groupe_20/SRTPClient.py:85-95 | every acknowledgement advertises a window of at least 1, and window plus numbers SACKed is 63 |
| Progress.RoundAdvancesBase | src/server.py:104-110 | with nothing under way and base unacknowledged, the round `Round` (send base again, deliver it, let the client write or repeat its acknowledgement, deliver that) is possible, loses nothing and strictly increases base |
| ServerSession.FillWraps | src/server.py:90-102 | sending a new chunk has the same effect in both readings, and is allowed in both or in neither |
| ServerSession.OnAckWraps | src/server.py:70-81 | a current acknowledgement has the same effect in both readings |
| ServerSession.LateAckWraps | src/server.py:70-81 | so has one that is behind base by at most 1024, what it selectively acknowledges included |
| SackClient.FlushKeeps | tools/groupe_20/SRTPClient.py:101-119 | writing in order keeps the output equal to the first chunks of the file, loses nothing held, and stops with the file complete or with the next packet missing |
| SackClient.FlushWraps | tools/groupe_20/SRTPClient.py:105-116 | writing in order writes the same chunks in both readings |
| SackClient.OnDataWraps | tools/groupe_20/SRTPClient.py:131-146 | a packet at most 1985 behind the expected number is kept, dropped or answered alike in both readings |
| SackClient.OnDataOutcome | tools/groupe_20/SRTPClient.py:122-146 | what becomes of any packet in any state, and what is answered |
| SackClient.FlushOutcome | tools/groupe_20/SRTPClient.py:105-116 | the packets written have consecutive numbers from the expected one, leave the window, only the last may be empty, and none that stays is the next |
| SackClient.ProcessOutcome | tools/groupe_20/SRTPClient.py:101-119 | what a pass over any window writes, removes and acknowledges, packet by packet |
| ServerLoop.Session.HandleAck | src/server.py:59-81 | the window is taken over, base becomes the number if that is less than 1024 ahead, exactly the numbers passed and those decoded from the payload are deleted; what stays keeps its order and timers; the average becomes 7/8 of itself and 1/8 of a sample between 0 and 10 seconds, and stays otherwise |
| ServerLoop.OnAckOutcome | src/server.py:70-81 | the same of the specification, number by number and without reference to its loops |
| ServerLoop.Session.AdvanceBase | src/server.py:73-76 | the loop over steps moves base by steps and removes exactly the numbers passed |
| ServerLoop.Session.SendNew | src/server.py:90-102 | reaches the state and sends the packets of FillWindow; when their numbers are new they are put last in order, each with the time of its sending |
| ServerLoop.FillOutcome | src/server.py:90-102 | the chunks read are sent one by one under the next numbers modulo 2048, until memory reaches the window or the file its end, and not beyond; nothing else in memory changes |
| ServerLoop.Session.Retransmit | src/server.py:104-110 | sends exactly the kept packets whose timer ran out, unchanged and in the order in which they are kept, and starts their timers again and no others |
| ServerLoop.KeptIsStored | src/server.py:107-110 | every overdue packet is sent once, and what is sent is what was kept |
| ServerLoop.DueByAge | src/server.py:104-110 | whatever was measured, a kept packet is overdue after 25 seconds and never within half a second |
| ServerLoop.Session.SendFin | src/server.py:112-129 | the end-of-file packet leaves twice, only the first time memory is empty at the end of the file |
| ServerLoop.Session.SendAgain | src/server.py:131-141 | after silence: every kept packet once, in order, its timer starting again, or the end-of-file packet five times |
| ServerLoop.Session.Turn | src/server.py:88-141 | one turn of the loop is a run of the system by sending events, and sends exactly: the chunks that fit the window; every kept packet older than max(0.5, 2.5 rtt), once and unchanged; the end-of-file packet twice in the turn in which memory is empty at the end of the file; after a longer silence every kept packet again, or the end-of-file packet five times; timers and last contact follow |
| ServerLoop.TurnIsTaken | src/server.py:88-141 | the two halves of a turn make that whole |
| ServerLoop.FillEmits | src/server.py:90-102 | the sending loop is a sequence of fill events |
| ServerLoop.ResendEmits | src/server.py:107-110 | sending kept packets again is a sequence of resend events |
| ServerLoop.ShownIsDecoded | src/server.py:77-81 | the numbers decoded from groupe_20's SACK bytes are those the system says a server sees |
| ClientLoop.SrtpClient.ProcessPacket | tools/groupe_20/SRTPClient.py:122-146 | outside [next, next + 63) the last acknowledgement goes out again, inside it a packet whose number is not there is put last in the window and nothing is sent; True exactly when the window changed; all as the system does on receiving |
| ClientLoop.SrtpClient.WriteInOrder | tools/groupe_20/SRTPClient.py:105-116 | the loop writes exactly what Flush writes and reports the end of the file |
| ClientLoop.SrtpClient.ProcessWindow | tools/groupe_20/SRTPClient.py:101-119 | writes the packets of consecutive numbers that are there, up to an empty one, which ends the file; unless it ended, acknowledges; all as the system does on writing |
| ClientLoop.SrtpClient.ClientAck | tools/groupe_20/SRTPClient.py:82-95 | asks for the next number, advertises 63 less what is in the window, is an ACK when that is empty and otherwise a SACK whose payload decodes to exactly the numbers in it; it is remembered and never fails to encode |
| ClientLoop.WireIsHeard | src/server.py:62-81 | a server handling the bytes of an acknowledgement does what the system does on hearing the acknowledgement |
| ClientLoop.AcksFitTheWire | tools/groupe_20/SRTPClient.py:82-95 | in every run every acknowledgement can be encoded and advertises 63 minus the numbers it names |
| Transfer.Interleave | src/server.py:60-141 | for every file and every interleaving of the methods of Session and SrtpClient with loss, duplication and one-byte corruption of the bytes between them: what the client wrote is a prefix of the file, and all of it once the server sent the end-of-file packet or the client met it |
| Transfer.Link.Perform | tests/proxy.py:85-123 | every doing of a program or of the network keeps the two objects and the bytes under way in step with a run of the wrapping system; when it is possible it does what that action is to do, on fields and wires, and nothing to the other side; when it is not, nothing changes |
| Transfer.Link.ServerTurn | src/server.py:88-141 | the packets of the turn, in their parts, go on the wire as bytes, and its events extend the run |
| Transfer.Link.SpoiltData | tests/proxy.py:85-123 | a DATA packet under way with any byte changed is refused by the client |
| Transfer.Link.SpoiltAck | tests/proxy.py:85-123 | an acknowledgement under way with any byte changed is refused by the server |
| Transfer.Link.ServerTakesAck | src/server.py:60-81 | the event is that of hearing; the first bytes leave the wire, decode, and do to the fields of the session what their number, window and named numbers say |
| Transfer.Link.ClientTakesData | tools/groupe_20/SRTPClient.py:157-173 | the event is that of receiving; the first bytes leave the wire, decode, and are kept, dropped or answered as their number says, answers going on the wire as bytes |
| Transfer.Link.ClientProcesses | tools/groupe_20/SRTPClient.py:101-119 | the event is that of writing; what is in order is written, the acknowledgement goes on the wire as bytes, and the client is at its end exactly when it met the end of the file |
| Transfer.Link.HarmData | tests/proxy.py:85-123 | a DATA packet is doubled or lost where it stands, and nothing else happens |
| Transfer.Link.HarmAck | tests/proxy.py:85-123 | the same of an acknowledgement |
| Transfer.TravelsFit | src/protocol.py:9-15 | in every run every DATA packet and acknowledgement under way fits the fields it is written into |
| Transfer.ReadBack | src/protocol.py:33-55 | groupe_20 and src read back what either of them wrote |
| TransferEnds.Finish | src/server.py:60-141 | from every state the two objects and the wires can reach with an initial window in 1..63, some further actions end with the client gone from its loop and exactly the file written |
| TransferEnds.AlwaysCompletable | src/server.py:60-141 | so after every interleaving of actions from the start, whatever was lost, doubled or corrupted |
| TransferEnds.Round | src/server.py:131-141 | the client goes over its window, everything under way is lost, a long silence passes and one of the packets the server then sends arrives and is answered: that increases base or ends the transfer |
| TransferEnds.BaseLeaves | src/server.py:131-141 | after a long silence base, or the end-of-file packet in its place, is among what the server sends |
| CumulativeClient.RecvFile | tools/groupe_42/srtp_io.py:57-141 | for every window size, the mode without a buffer included, and every stream of DATA packets: the state of the specification; each packet up to the end of the file is answered with the number then expected and the room then left |
| CumulativeClient.TakeData | tools/groupe_42/srtp_io.py:109-133 | a packet outside the window or already there changes nothing, one ahead is buffered, the expected one is written with all that follow it without a gap; without a buffer a packet is written exactly when its number is the count of chunks written |
| CumulativeClient.TakeOutcome | tools/groupe_42/srtp_io.py:119-133 | the outcome of a packet with payload in every state the receiver can reach |
| CumulativeClient.NoBufferCounts | tools/groupe_42/srtp_io.py:109-117 | on every stream without a buffer the number expected is the count written modulo 2048, and each answer carries the new count and no room |
| CumulativeClient.BufferStaysInside | tools/groupe_42/srtp_io.py:120-141 | on every stream every buffered key stays strictly inside (base, base+W) and the advertised space is in 1..W |
| CumulativeClient.Window.IsAlreadyReceived | tools/groupe_61/client.py:179-184 | True exactly for the window_size numbers below base |
| CumulativeClient.Window.WritePackets | tools/groupe_61/client.py:215-235 | writes what is stored in order and stops at an empty payload |
| CumulativeClient.Window.AddPacket | tools/groupe_61/client.py:186-213 | for every packet, an early or expected end of the file included: the new state, and True exactly when it changed or the number is one of the window_size below base; when the file is complete the answer is True |
| CumulativeClient.StoreOutcome | tools/groupe_61/client.py:186-213 | the same of the specification, in every state the window can reach |
| CumulativeClient.WriteOutcome | tools/groupe_61/client.py:215-235 | the chunks written have consecutive numbers and leave the dictionary; writing stops at the first gap or with the first empty payload, which ends the file |
| CumulativeClient.StoreKeepsTidy | tools/groupe_61/client.py:186-235 | every packet leaves the stored numbers strictly inside the window until the file ends |
| CumulativeClient.ReceiveFile | tools/groupe_61/client.py:131-156 | the receive loop on any DATA packets: states and acknowledgements as specified; it is left exactly when the file is complete, after acknowledging that |
| CumulativeClient.StoreIsTake | tools/groupe_61/client.py:171-213 | on a packet with payload groupe_61's Window and groupe_42's receiver reach the same expected number, buffer and output; groupe_61 answers exactly when the state changes or the number is one of the window_size below base |
| CumulativeClient.EndIsAlike | tools/groupe_61/client.py:215-235 | on the expected end-of-file packet both receivers end with the output they had; on another one they stay equal if and only if it is outside the window or its number is taken |
| CumulativeClient.FeedWindow | tools/groupe_61/client.py:161-235 | fed with the same stream both receivers hold the same state |
| Reordering.PunctualRunsAreSafe | src/server.py:70-102 | for every file, window and event sequence in which no DATA packet arrives more than 2048-W and no ACK more than 1024 behind: the wrapping system can follow it exactly when the unbounded one can, and then memory is exactly [base, next), next - base is at most W, the output is a prefix of the file and complete at the end |
| Reordering.RunWraps | src/server.py:70-102 | from corresponding states, with nothing late, either both readings can follow the events, number for number, or neither can |
| Reordering.StepWraps | src/server.py:62-121 | one event is possible in both readings or in neither, and when it is in time takes corresponding states to corresponding states |
| Reordering.StepKeeps | tools/groupe_42/srtp_io.py:99-141 | every event keeps the invariant of that system |
| Reordering.TakeWraps | tools/groupe_42/srtp_io.py:120-133 | a packet not too old is treated alike in both readings |
| LogNetwork.SendTravels | src/server.py:90-129 | what the server puts on the network is a chunk of the file under its number, or the end marker after the end of the file |
| LogNetwork.OnAckKeepsSession | src/server.py:70-81 | while no number wraps, an acknowledgement at most 1024 behind, or any one when all is acknowledged, removes only what lies below it or is shown |
| PunctualRuns.PunctualRunsComplete | src/server.py:88-141 | every run of the wrapping system with nothing late can be continued, with nothing late, until the client has exactly the file |
| PunctualRuns.RoundAdvancesBase | src/server.py:104-110 | from every open state with base unacknowledged, sending base again, delivering it and delivering the answer strictly increases base |
| PunctualRuns.AdvertisesRoom | tools/groupe_42/srtp_io.py:120-137 | the receiver advertises between 1 and W in every state |
| Lateness.SafeLengthIsExact | src/server.py:70-81 | with loss, duplication and reordering of any age, every run is sound (output a prefix, complete once the end was declared) if and only if the file has at most 1025 chunks, 1026 for a window of 1 |
| Lateness.LateAckLosesAChunk | src/server.py:71-76 | for every window and every longer file: a punctual run, then one ACK 1025 behind, after which the server sends the end-of-file packet with the last chunk undelivered |
| Lateness.LatePacketIsWritten | tools/groupe_42/srtp_io.py:120-133 | for every window and every file of at least 2048 chunks: a punctual run, then packet 0 arriving 2049-W behind, then only packets on time, and chunk 0 is written again after the first 2048; this is no prefix exactly when the file ends there or goes on differently |
| Lateness.AgeBoundsAreExact | tools/groupe_42/srtp_io.py:139-141 | the residue tests by age: t behind passes for new exactly when t exceeds 2048-W for DATA and 1024 for an ACK |
| Group42Sender.Group42IsSafe | tools/groupe_42/server.py:19-109 | for every event sequence in which no DATA packet arrives more than 2048-W and no ACK 1024 or more behind: groupe_42's sender can follow it exactly when src's can, through the very same states, so its output is a prefix of the file and complete at the end |
| Group42Sender.SameRun | tools/groupe_42/server.py:54-109 | with nothing late, the two senders can follow the same event sequences and reach equal states |
| Group42Sender.SameGuard | tools/groupe_42/server.py:54-56 | the two senders may do the same in every state, though one compares the span of numbers and the other the number of kept packets with the window |
| SackReordering.StepKeeps | src/server.py:62-121 | in either reading, every event keeps the invariant: what left memory was told by the last acknowledgement, every older one tells no more, and what travels is the session's own |
| SackReordering.EndMeansWritten | src/server.py:112-121 | when the end-of-file packet was sent the client wrote the whole file |
| SackReordering.FlushIsUnbounded | tools/groupe_20/SRTPClient.py:105-116 | in files too short for a residue to be ambiguous the client writes what it would write without wrapping |
| SackSafeLength.SafeLengthIsExact | src/server.py:70-81 | with loss, duplication and reordering of any age, every run is sound (output a prefix, complete once the end was declared) if and only if the file has at most 1025 chunks, 1026 for an initial window of 1 |
| SackSafeLength.LateAckEnds | src/server.py:71-76 | one ACK 1025 behind makes the server forget the last chunk and send the end-of-file packet although the client lacks it |
| SackSafeLength.StepKeepsShort | src/server.py:62-121 | every event keeps the invariant of short files |
| SackPunctual.PunctualRunsAreSafe | src/server.py:70-102 | for every file, initial window up to 63 and event sequence in which no DATA packet arrives more than 1985 and no ACK more than 1024 behind: the wrapping system can follow it exactly when the unbounded one can, number for number; the span is at most 125, base is kept whenever base < next, everything from base + 63 on is kept, the output is a prefix of the file and complete at the end |
| SackPunctual.RunWraps | src/server.py:70-102 | from corresponding states, with nothing late, either both readings can follow the events or neither can |
| SackPunctual.StepWraps | src/server.py:62-121 | one event is possible in both readings or in neither, and when it is in time takes corresponding states to corresponding states |
| SackPunctual.StepKeepsSpread | src/server.py:62-102 | every event keeps the span bound: the acknowledgements form a chain, and the newest one heard gives base and tells all the server was told |
| SackPunctual.RoomMeansNear | src/server.py:90 | while fewer than 63 packets are kept, fewer than 125 numbers are in use |
| SackCompletion.PunctualRunsComplete | src/server.py:88-141 | every run of the wrapping system with nothing late can be continued, with nothing late, until the client has exactly the file |
| SackCompletion.RoundAdvancesBase | src/server.py:104-141 | whatever is under way, writing, sending base (or the end marker) again, delivering it and delivering the answer is possible and in time, and increases base or ends the transfer |
| SackSpan.SpanIsReached | src/server.py:77-102 | for every file of 126 chunks or more and every initial window in 1..63, some run with nothing late has 125 numbers in use |
| BoundedFile.ShortFilesAreSafe | src/client.py:57-91 | for every file of at most 744 chunks and an arbitrary network: the output is a prefix of the file, complete once the end-of-file packet was sent or accepted; what left memory the client holds; every SACK fits a packet |
| BoundedFile.LimitIsExact | src/client.py:78-91 | for an initial window of at least 1, every SACK fits a packet in every run if and only if the file has at most 744 chunks |
| BoundedFile.AlwaysCompletable | src/client.py:57-91 | for at most 744 chunks and an initial window of at least 1, from every reachable state some continuation ends with exactly the file written |
| BoundedFile.RoundForgets | src/server.py:104-110 | sending a kept packet again, delivering it and delivering the answer makes the server forget it and remember nothing new |
| BoundedFile.StepKeeps | src/server.py:62-121 | every event keeps the invariant of that system |
| BoundedFile.OnAckKeeps | src/server.py:70-81 | no old ACK is taken for a new one and what an acknowledgement removes the client holds |
| BoundedFile.TakeKeeps | src/client.py:70-80 | writing or buffering a packet keeps the output a prefix of the file and forgets nothing |
| BoundedFile.MakeAckOk | src/client.py:82-91 | the acknowledgement fits a packet and names only numbers the client holds |
| BoundedFile.FileClient.FlushBuffer | src/client.py:74-77 | the loop writes what Flush writes |
| BoundedFile.FileClient.Receive | src/client.py:57-91 | one DATA packet: an empty one is answered and ends the loop exactly when it is the expected one; another is written with what follows it, or stored once under its number, and answered with the next number, window 63 and the stored numbers; the acknowledgement is remembered |
| BoundedFile.OnDataOutcome | src/client.py:57-91 | the same of the specification, for every packet and every state of different 11-bit numbers |
| AckLoops.HandleAckLoop | tools/groupe_42/server.py:25-36 | handle_ack ends, with measure (acknum - last_ack) mod 2048; at most 1024 ahead, acknum becomes the base and exactly the numbers passed are forgotten, otherwise nothing changes |
| AckLoops.AgreeUnlessOpposite | tools/groupe_42/server.py:25-36 | handle_ack and the loop of src/server.py agree on base and memory if and only if the circular distance is not 1024 |
| AckLoops.WindowSizeIsSpan | tools/groupe_42/server.py:19-22 | window_size of two residues less than a turn apart is the true span |
| Unwrapping.ProcessAcks | tools/groupe_20/SRTP.py:112-162 | for every state and every sequence of segments out of the queue, of which ten are read: the position is that of the near and believable acknowledgements; the window and the selective list are those of the last near one, or the old window and no list; round-trip estimate and timeout come from the last sample by 7/8 and 1/8, 3/4 and 1/4, or stay; and the loop goes on, waited in vain or gives up as specified |
| Unwrapping.ArrivalOutcome | tools/groupe_20/SRTP.py:117-159 | what one segment of any bytes does to position, window, list, estimate and timeout |
| Unwrapping.StreamOutcome | tools/groupe_20/SRTP.py:115-159 | what any number of segments leave, told by the index of the last near acknowledgement and of the last sample |
| Unwrapping.OneAckUnwraps | tools/groupe_20/SRTP.py:124-159 | about_to_loop stays true exactly when the current 11-bit number exceeds 1000, and the position moves by exactly ack_advance or not at all |
| Unwrapping.UnwrappingIsExact | tools/groupe_20/SRTP.py:112-164 | over any number of rounds, any segments in any order and any number of wraps the position is the start plus the advances taken |
| Unwrapping.TrueAckIsRecovered | tools/groupe_20/SRTP.py:124-159 | after any rounds, an acknowledgement of n at most 63 ahead puts the sender exactly at n |
| Unwrapping.WaitCounts | tools/groupe_20/SRTP.py:131-162 | a round with fewer than ten segments counts as a silence, an acknowledgement at most 63 ahead resets the count, the sender gives up exactly in the round that brings it to fifty, and the timeout stays between half a second and two |
| SackCodec.DecodeOfEncode | src/protocol.py:60-81 | decode_sack of encode_sack is the list without its trailing zeros, for every list of 11-bit numbers |
| SackCodec.DecodeInventsNothing | src/protocol.py:69-81 | a decoded number was in the list, and every listed number but 0 is decoded |
| SackCodec.DecodeSackList | src/protocol.py:69-81 | the collecting and popping loops compute the specified list |
| SackCodec.SackPayloadSize | src/protocol.py:60-67 | the payload is a multiple of 4 bytes and fits 1024 bytes exactly for at most 744 numbers |
| SackCodec.PaddingAsWritten | src/protocol.py:64-66 | both programs' padding formulas give the bits missing to a multiple of 32 |
| SackCodec.EncodeSackPayload | tools/groupe_20/SRTPPacket.py:142-162 | the shift-and-or loop yields the bytes of src's bit-string encoder on the sorted set, and fails exactly for more than 744 or too large numbers |
| SackCodec.ReadFields | tools/groupe_20/SRTPPacket.py:179-184 | shifting and masking reads the fields of the bit string |
| SackCodec.DecodeSackPayload | tools/groupe_20/SRTPPacket.py:164-189 | decodes as specified; bad length or padding is refused |
| SackCodec.RefusedExactly | tools/groupe_20/SRTPPacket.py:164-189 | a payload is refused exactly when it is no multiple of 4 bytes or a bit after its last complete field is set |
| SackCodec.SetRoundTrip | tools/groupe_20/SRTPPacket.py:142-189 | decoding the encoding of a set gives exactly the set in increasing order, {0} included, within 1024 bytes |
| SackCodec.SetReadBySrc | src/protocol.py:69-81 | src decodes groupe_20's encoding of S as S in increasing order, and as nothing if S = {0} |
| Crc32.OneByteChangesCrc | src/protocol.py:21-25 | changing any one byte of any message changes its CRC-32 |
| Crc32.UpdateKeepsDistinct | src/protocol.py:21-25 | the byte step is injective in the register |
| Crc32.UpdateTellsBytes | src/protocol.py:21-25 | the byte step is injective in the byte |
| Crc32.CheckValue | src/protocol.py:21-25 | the CRC of the nine digits 123456789 is 0xcbf43926, the usual check value of CRC-32 |
| Segments.OneByteCorruptionIsRejected | src/protocol.py:9-55 | replacing any one byte of any packet built by empackage by another makes all four decoders refuse it |
| Segments.RaisedIsTruncated | src/protocol.py:33-55 | depackage raises exactly on a segment whose header is intact, whose length field is positive and which is shorter than 16 plus that length |
| Segments.CutShort | src/protocol.py:9-55 | a packet of empackage cut off in the header is refused, cut off later it makes depackage raise |
| Segments.WireLayout | src/protocol.py:9-31 | byte by byte: type and window in the first byte, 13 bits of length and 11 of number, timestamp, CRC of these eight bytes, payload and its CRC |
| Segments.WhatIsAccepted | tools/groupe_42/SRTP.py:136-188 | for any bytes and any packet, exactly when each of the four decoders reads the one as the other, told by that layout |
| Segments.EncodesWhatDecodes | tools/groupe_61/code_pack.py:4-72 | groupe_61 encodes exactly the packets that some segment decodes to, and so does groupe_42 apart from numbers above 2047; what they encode decodes to itself |
| Segments.SrcRoundTrip | src/protocol.py:9-55 | empackage succeeds exactly when payload, timestamp and the byte of type and window fit; depackage then gives back that byte's two fields, the number modulo 2048, the timestamp and the payload; the fields are type and window exactly when the window is below 64 |
| Segments.OrFields | src/protocol.py:14-17 | the shift-and-or header equals the sum of its fields when the window fits six bits; length and seqnum survive in any case |
| Segments.HeaderWordIsFields | tools/groupe_20/SRTPPacket.py:59-60 | shifting every field to its place first gives the same header word |
| Segments.Round20 | tools/groupe_20/SRTPPacket.py:53-133 | every valid packet of type 1..3 decodes back to itself |
| Segments.Unique20 | tools/groupe_20/SRTPPacket.py:76-133 | every accepted segment re-encodes to the same bytes, so each packet has one accepted encoding |
| Segments.AcceptanceChain | tools/groupe_42/SRTP.py:136-188 | what groupe_20 accepts groupe_42 accepts, then groupe_61, then src, with identical fields |
| Segments.EncodersAgree | tools/groupe_61/code_pack.py:4-32 | the four encoders write the same bytes for every valid packet |
| Segments.TooLargeNumbers | tools/groupe_42/SRTP.py:50-61 | for a number above 2047 groupe_61 refuses, and groupe_42 agrees with src exactly on multiples of 2048 |
| MinQueue.MinQueue.Push | tools/Linksimulator/Linksimulator-master/min_queue.c:82-114 | the array becomes that of Pushed, also across growth by 20; without memory nothing changes; the loop runs at most Levels(size) times |
| MinQueue.MinQueue.Reserve | tools/Linksimulator/Linksimulator-master/min_queue.c:85-97 | grows by 20 slots exactly when full, keeping the contents, or fails leaving all as it was |
| MinQueue.MinQueue.HasChild | tools/Linksimulator/Linksimulator-master/min_queue.c:117-130 | for a strict weak order: a child of i that no other child comes before, or 0 when i has no child or is the root and its one child, slot 1, does not come before it |
| MinQueue.MinQueue.HeapifyDown | tools/Linksimulator/Linksimulator-master/min_queue.c:139-152 | the loop leaves what Down leaves and runs at most Levels(size) times |
| MinQueue.MinQueue.Pop | tools/Linksimulator/Linksimulator-master/min_queue.c:132-153 | the array becomes that of Popped; the loop runs at most Levels(size) times |
| MinQueue.MinQueue.Peek | tools/Linksimulator/Linksimulator-master/min_queue.c:155-160 | the root, or nothing for an empty queue |
| MinQueue.PushCorrect | tools/Linksimulator/Linksimulator-master/min_queue.c:82-114 | for any strict weak order push keeps the heap and adds exactly v |
| MinQueue.PopCorrect | tools/Linksimulator/Linksimulator-master/min_queue.c:132-153 | pop keeps the heap and removes exactly the root, which is minimal |
| MinQueue.NoSmallerChild | tools/Linksimulator/Linksimulator-master/min_queue.c:117-130 | no child is smaller than the one has_child picks; when it picks none, the only child there can be is the root's, slot 1, and it is not smaller |
| MinQueue.DrainSorts | tools/Linksimulator/Linksimulator-master/min_queue.c:132-160 | draining yields a sorted permutation of the contents |
| MinQueue.QueueSorts | tools/Linksimulator/Linksimulator-master/min_queue.c:82-160 | pushing anything into an empty queue and draining it sorts |
| MinQueue.LevelsIsLog | tools/Linksimulator/Linksimulator-master/min_queue.c:99-110 | Levels(n) is floor(log2 n) + 1 |
| LinkSim.DeliverDelayedPkt | tools/Linksimulator/Linksimulator-master/link_sim.c:151-171 | from a queue ordered by expiration date, for every pattern of send errors: what is sent has a date (sec, usec) before the clock and leaves in the order of the dates, nothing that stays is dated earlier, nothing is lost; every attempt but the last succeeded, and the result is an error exactly when a dated slot stays because its attempt failed for good |
| LinkSim.DelayAndDeliver | tools/Linksimulator/Linksimulator-master/link_sim.c:151-234 | the same from an empty queue into which the packets were pushed one by one in any order |
| LinkSim.Enqueue | tools/Linksimulator/Linksimulator-master/link_sim.c:231-234 | adds exactly the packet and keeps the heap by expiration date, or without memory changes nothing |
| LinkSim.DeliverInOrder | tools/Linksimulator/Linksimulator-master/link_sim.c:151-171 | whatever the send errors, what is sent was due and in order, what stays is a heap with nothing earlier, and together they are what was queued |
| LinkSim.DeliverDelayedCorrect | tools/Linksimulator/Linksimulator-master/link_sim.c:105-171 | the same of the specification, from any heap; what stays is a heap |
| LinkSim.DeliveredByMicroseconds | tools/Linksimulator/Linksimulator-master/link_sim.c:105-171 | when microseconds are below a million: what is sent lies below the clock in sec * 1000000 + usec and is nondecreasing in it, and without send errors nothing that stays lies below |

## Left out

- Sockets, threads, files, arguments, printing and the random draws of the proxy: a file is a sequence of bytes cut into chunks of at most 1024.
- Clocks: `Session` and `ProcessAcks` keep timers and averages, as real numbers where the programs have floating point, but what the clock shows is arbitrary; the removal of a session three seconds after the end-of-file packet is not modelled.
- Connection setup: GET retries, repeated connection ACKs and the file-not-found answer. The models start with the session open and the window of the GET as a parameter.
- Timestamps in the protocol systems: they are carried by Segments only.
- Corruption in the protocol systems: a corrupted packet is a lost one there; Transfer has it, one byte a packet, as tests/proxy.py does.
- Progress.AlwaysCompletable: speaks of sessions the server still holds. Three seconds after it sent the end-of-file packet it removes the session (`src/server.py:143-150`), and a client that lost every copy then never accepts one; its output is already the whole file (SlidingWindow.OutputIsPrefixOfFile). A completing continuation exists; nothing is said about how likely or how fast a real network takes it. The same holds of PunctualRuns, SackCompletion and BoundedFile.
- BoundedFile.ShortFilesAreSafe: files of more than 744 chunks are outside it, because there the client may build a SACK that cannot be sent (BoundedFile.LimitIsExact) and a wrap brings stale buffered packets back.
- CumulativeClient.StoreIsTake: packets with payload; CumulativeClient.EndIsAlike says how the receivers differ on an early end-of-file packet.
- `server_send` of groupe_20 beyond its loop over acknowledgements: the blocks chosen by `get_next_blocks` and the packets sent are not part of this model. Its last-in-first-out queue is the sequence of segments it yields.
- The send loop of groupe_42's `send_file`: its window test, `handle_ack`, retransmission and end-of-file packets are events of Group42Sender; its round-trip estimate and its stopping after the end are not.
- groupe_61's server: it does not wrap its numbers.
- `timeval_diff` and the way expiry dates are computed in link_sim.c: order is claimed under `timeval_cmp` only.
- Negative integers and values of other types as arguments of the encoders.
