# MYCP protocol core: a verified model

A Dafny model of the protocol core of MYCP, a C++ application server, and of its DES cipher, with proofs
about whole runs, round trips and refinement. `dafny verify dfyconfig.toml` checks everything.

**RTP over SOTP.** A sender cuts a frame into units numbered with 16-bit wrapping numbers (`RtpSender`),
prints them (`RtpWire`), and a server sends them on (`RtpSession`) and keeps the last 256 (`RtpRing`). A
receiver notices gaps and asks for packets, at once or later in batches (`RtpMissed`, `RtpLostSeq`), puts frames
together and releases them in order or by expiry behind a key frame gate (`RtpReceive`); `RtpClient` runs both.
`RtpStream`, `RtpDelivery`, `RtpExactlyOnce`, `RtpHarm`, `RtpEndToEnd` and `RtpRepair` put sender and receiver
together; `RtpUnregister` is the client's recursive unregistration. `RtpSource` and `SotpRtpFrame` hold the
source's objects, changed in place, against those functions. The list of
`RtpLostSeq` is the class `CLostSeqInfo` of src/CGCClass/SotpRtpSource.h, lines 35-171; the table below cites where
it is used.

**DES.** `DesWords`, `DesFeistel`, `DesKeys` and `DesCipher` are the cipher as functions on 32-bit words, for
arbitrary SP tables, with its inversion and complementation laws. `DesStandard` states the cipher as FIPS PUB
46-3 does, bit by bit from its tables, and `DesStandardRounds` proves the code equal to it; `DesBits` follows
single bits through the words. `DesWidth` shows that 64-bit words make no difference; `D3des` is the code on its
static arrays.

**SOTP text.** `SotpNumbers`, `SotpParse` and `SotpPrint` are the parser and the printer of both wire versions,
`SotpRoundTrip` and `SotpMessages` their round trip item by item and message by message, `SotpLines` what the
parser makes of lines the printer does not write, `Sotp` the two classes.

**Calls.** `CallTable` is the table of unanswered messages, `DuplicateFilter` the receiver's ring of the last
500 numbers, and `HandledOnce` the two together.

**HTTP.** `PpHttp` has the substring search, percent-coding and the query collector.
`Attachment` is the buffer that packets and messages carry their bytes in.

Each module states its functions first, proves laws about them, and then gives the imperative form, whose
contracts equate the new state with the function of the old one. Time, network order and loss, and the answers
of callbacks are inputs. A locked region is one atomic step.

## Where the code departs from the obvious claim

The code is kept as it is; the exact condition is proved in each case.

- The check of a data packet's length against the buffer is one byte short, and the parser reads on if a newline
  follows the announced bytes, so that data longer than announced can replace the packet they came in
  (`RtpWire.DataReceived`, `RtpWire.SecondItemTakesOver`).
- The last packet of a payload that is a multiple of the unit carries no byte, so the frame is never whole
  (`RtpStream.EvenPayloadNeverWhole`, `RtpDelivery.Reassembly`).
- A gap across the wrap from 65535 to 0 is counted one short, and a request across it is not answered
  (`RtpMissed.GapRequestedExactly`, `RtpRing.WrappedRequestUnanswered`).
- The number of units is cut to 16 bits before it is compared with the limit (`RtpSender.LongPayloadCut`).
- A packet of a frame that has left, unless it is behind the last one released by less than 0xFFFF, brings the
  frame back, and a complete frame can be taken for one 65536 packets earlier. With expiry these are all that
  can break delivery exactly once (`RtpExactlyOnce.InOrderExactly`, `RtpHarm.LateCopy`,
  `RtpHarm.OvertakingHappens`).
- A timestamp above 20000 in the first packet, like any such jump later, starts the tracking of missing packets
  over, so nothing before the next packet counts as missing (`RtpClient.FirstPacketRestarts`,
  `RtpClient.RestartForgets`).
- The time a frame waits is cut to a signed 16-bit number and added to a clock that wraps
  (`RtpReceive.GraceExactly`).
- Unregistering never ends if the source reaches a cycle of sinks (`RtpUnregister.EndsExactly`).
- Number 65535 is a signed -1, the mark of an empty slot, in the duplicate filter, and the filter's count starts
  over at 2^32, no multiple of 500, after which for 500 acceptances some numbers are forgotten early
  (`DuplicateFilter.FilterExact`, `DuplicateFilter.KeptExactly`, `DuplicateFilter.CountStartsOver`).
- The substring search does not go back, so it misses occurrences of some patterns
  (`PpHttp.FindsFirstExactly`).
- A message that takes over a number still in the table of unanswered messages inherits the resends used up under
  it (`CallTable.ReusedNumberGivenUp`).
- Small hexadecimal letters in a percent code are decoded wrong in second place unless the byte has the bit worth
  32 (`PpHttp.SmallHexExactly`).
- Version 2.1 takes the characters ':', ';' and '<' for the types 'A', 'B' and 'C' (`SotpMessages.Types21`).
- An id of 2^63 or more does not survive printing and parsing (`SotpNumbers.IdRoundTrip`), nor does a carriage
  return at the end of a line field (`SotpMessages.SidExactly`).

## Model

| member | source | states |
|---|---|---|
| DesWords.PackThenUnpack | src/CGCServices/String/d3des.c:149-177 | Bytes packed into two words and unpacked are the same bytes |
| DesWords.OpeningUndoesClosing | src/CGCServices/String/d3des.c:323-396 | The opening swap-moves undo the closing ones with the halves exchanged |
| DesWords.ClosingUndoesOpening | src/CGCServices/String/d3des.c:323-396 | The converse: the closing swap-moves undo the opening ones |
| DesFeistel.RoundsUndo | src/CGCServices/String/d3des.c:323-396 | Sixteen (any number of) rounds with the reversed key pairs undo the rounds, for any round function |
| DesKeys.ScheduleReverses | src/CGCServices/String/d3des.c:58-116 | The key schedule made for deciphering is the one for enciphering with its sixteen cooked pairs reversed |
| DesKeys.ScheduleFlips | src/CGCServices/String/d3des.c:58-116 | Complementing every key byte flips exactly the 6-bit groups of the cooked keys |
| DesKeys.ParityBitsIgnored | src/CGCServices/String/d3des.c:43-93 | Keys that differ in the parity bits of their bytes only have the same schedule |
| DesKeys.FvalIgnoresComplement | src/CGCServices/String/d3des.c:323-396 | A round looks at nothing but those groups of the xor, so complementing word and key leaves it the same |
| DesCipher.DecipheringUndoesEnciphering | src/CGCServices/String/d3des.c:58-147 | For every key and block, and any SP tables, the cipher keyed DE1 undoes the cipher keyed EN0, and the converse (FIPS PUB 46-3) |
| DesCipher.Complementation | src/CGCServices/String/d3des.c:58-147 | Complementing every key byte and every input byte complements every output byte, for any SP tables |
| DesCipher.CryptUndoes | src/CGCServices/String/d3des.c:138-177 | Any schedule run in reverse undoes itself on 8-byte blocks |
| DesCipher.TwoKeyInversion | src/CGCServices/String/d3des.c:400-453 | Single and chained double-length DES are undone by the same routine keyed in the other mode, half-block exchanges included |
| DesCipher.ThreeKeyInversion | src/CGCServices/String/d3des.c:538-625 | The same for triple-length DES |
| DesCipher.EqualKeysAreOneKey | src/CGCServices/String/d3des.c:400-425 | Double-length DES with two equal keys is single DES |
| DesCipher.TwoKeysCompose | src/CGCServices/String/d3des.c:400-425 | Two keys encipher with the first, decipher with the second and encipher with the first; keyed the other way the converse (FIPS PUB 46-3) |
| DesCipher.ThreeKeysCompose | src/CGCServices/String/d3des.c:538-590 | Three keys encipher, decipher and encipher one after the other; keyed the other way the converse |
| DesCipher.TwoBlocks | src/CGCServices/String/d3des.c:427-453 | Between the passes over two blocks the right half of the first and the left half of the second change places |
| DesCipher.ThreeBlocks | src/CGCServices/String/d3des.c:591-625 | Between the passes over three blocks both pairs of neighbouring halves do |
| DesWidth.WidthDoesNotMatter | src/CGCServices/String/d3des.c:323-396 | With 64-bit words the low halves of the result are those of 32-bit words: no bit at or above 32 comes down |
| D3des.Cipher.Deskey | src/CGCServices/String/d3des.c:58-93 | In place: the key register holds the schedule of the key, and nothing else changes |
| D3des.Cipher.Cookey | src/CGCServices/String/d3des.c:95-116 | In place: the raw keys are cooked pair by pair |
| D3des.Cipher.Usekey | src/CGCServices/String/d3des.c:128-136 | The key register takes the given words |
| D3des.Cipher.Cpkey | src/CGCServices/String/d3des.c:118-126 | The key register is handed out unchanged |
| D3des.Cipher.Des2key | src/CGCServices/String/d3des.c:400-412 | The three registers hold the schedules of the two halves, in the order of the mode |
| D3des.Cipher.Des3key | src/CGCServices/String/d3des.c:538-561 | The three registers hold the schedules of the three parts, in the order of the mode |
| D3des.Cipher.DesfuncInPlace | src/CGCServices/String/d3des.c:323-396 | In place: two words become the cipher of themselves under the given keys |
| D3des.Cipher.Des | src/CGCServices/String/d3des.c:138-147 | An 8-byte block becomes its cipher under the key register |
| D3des.Cipher.Ddes | src/CGCServices/String/d3des.c:414-425 | An 8-byte block goes through the three registers |
| D3des.Cipher.D2des | src/CGCServices/String/d3des.c:427-453 | A 16-byte block goes through the three registers with half blocks exchanged between passes |
| D3des.Cipher.D3des | src/CGCServices/String/d3des.c:591-625 | The same for a 24-byte block |
| D3des.Scrunch | src/CGCServices/String/d3des.c:149-162 | In place: eight bytes become two words, first byte highest |
| D3des.Unscrun | src/CGCServices/String/d3des.c:164-177 | In place: the converse |
| DesStandardRounds.CodeIsStandard | src/CGCServices/String/d3des.c:138-177 | What is written is what FIPS PUB 46-3 prescribes for the key, the block and the mode, bit by bit, up to what the tables hold |
| DesStandardRounds.RoundsAreStandard | src/CGCServices/String/d3des.c:349-374 | After any number of rounds the registers hold the halves of the standard, turned left by one |
| DesStandardRounds.RoundIsCipherFunction | src/CGCServices/String/d3des.c:350-373 | One round looks up the eight boxes at the indices that the expanded half and the key of the round give in the standard |
| DesStandardRounds.SelectedIsKeyBit | src/CGCServices/String/d3des.c:43-90 | The key bits a round selects are those of the standard's shifted registers and second permuted choice |
| DesStandardRounds.KeyForBox | src/CGCServices/String/d3des.c:95-116 | Cooking puts the six key bits of each box where that box is looked up |
| DesStandardRounds.IndexOfBox | src/CGCServices/String/d3des.c:350-360 | Each box is looked up at the index the standard gives |
| DesStandard.OpeningPermutes | src/CGCServices/String/d3des.c:329-347 | The opening swap-moves make the initial permutation of the eight bytes |
| DesStandard.PermutedOnce | src/CGCServices/String/d3des.c:329-347 | And nothing else is one: a pair of halves is the initial permutation if and only if they make it |
| RtpMissed.CalculateKeepsValid | src/CGCClass/SotpRtpSource.cpp:161-356 | Every step keeps the slots of the two modes apart and their counts below two |
| RtpMissed.AdvancesExactly | src/CGCClass/SotpRtpSource.cpp:239-324 | For every pair of numbers: exactly when the last packet seen advances, by distance around the circle |
| RtpMissed.LastSeenExactly | src/CGCClass/SotpRtpSource.cpp:161-324 | The last packet seen after every step, with the numbers of the source: a first packet, a client that has started again, the order around the circle |
| RtpMissed.ReentryFollowed | src/CGCClass/SotpRtpSource.cpp:239-245 | A client that has started again is followed, and nothing is recorded, listed or asked for on its account |
| RtpMissed.UncoversExactly | src/CGCClass/SotpRtpSource.cpp:239-355 | For every packet that is judged, by distance around the circle: nothing is due, or one packet is held back, or the missing range is asked for; and what gets on the list |
| RtpMissed.LooksExactly | src/CGCClass/SotpRtpSource.cpp:167-198 | What the look at the held gaps asks for and leaves, slot by slot |
| RtpMissed.SerialTracking | src/CGCClass/SotpRtpSource.cpp:239-324 | Within 0x7F00 either way that is the order of section 3.2 of RFC 1982 |
| RtpMissed.OtherwiseUnchanged | src/CGCClass/SotpRtpSource.cpp:161-197 | A step that ends early leaves the last packet seen alone |
| RtpMissed.FarPacketsDisagree | src/CGCClass/SotpRtpSource.cpp:239-324 | Beyond that distance the two orders disagree, by example in both directions |
| RtpMissed.GapRequestedExactly | src/CGCClass/SotpRtpSource.cpp:161-356 | A gap of two to five packets is requested, at once and as exactly the missing range, if and only if it does not straddle the wrap or a batch from the list of type 2 is the same |
| RtpMissed.NoBatch | src/CGCClass/SotpRtpSource.cpp:199-225 | A packet of type 1 takes no batch |
| RtpMissed.WrapRequestDropsFirst | src/CGCClass/SotpRtpSource.cpp:282-289 | Across the wrap the step overlooks the first missing packet, and asks for the last five of a long gap |
| RtpMissed.LongGapSkipped | src/CGCClass/SotpRtpSource.cpp:254-262 | A longer gap is passed over without request, record or entry on the list |
| RtpMissed.StepConserves | src/CGCClass/SotpRtpSource.cpp:161-356 | For every number, one step turns what was held or is newly recorded into held, filled or requested, each once |
| RtpMissed.GapsConserved | src/CGCClass/SotpRtpSource.cpp:161-356 | Over every run, restarts of the tracking included, each single gap recorded is filled, requested once or still held, and none is overwritten unresolved |
| RtpMissed.FewHeld | src/CGCClass/SotpRtpSource.cpp:167-198 | At most one slot is in use in server mode, at most two in client mode |
| RtpMissed.ServerSettlesNext | src/CGCClass/SotpRtpSource.cpp:169-177 | In server mode the next packet that allows requests settles the held gap |
| RtpMissed.ClientSettlesFirst | src/CGCClass/SotpRtpSource.cpp:178-198 | In client mode the first slot is settled by its second look at the latest |
| RtpMissed.ClientSettlesSecond | src/CGCClass/SotpRtpSource.cpp:178-198 | And the second slot by its fourth look, over every run |
| RtpMissed.StepLists | src/CGCClass/SotpRtpSource.cpp:199-316 | Only what lies between the last packet seen and this one gets on the list of type 2; what a batch names was on it, is not this packet, and leaves it |
| RtpMissed.ListGapExactly | src/CGCClass/SotpRtpSource.cpp:264-316 | With room on the list, exactly what a packet of type 2 puts on it, across the wrap too |
| RtpMissed.BatchesConserved | src/CGCClass/SotpRtpSource.cpp:199-316 | Over every run a number is requested in batches at most as often as it was found missing and listed |
| RtpLostSeq.SendTakes | src/CGCClass/SotpRtpSource.cpp:199-225 | A batch names the first one to five consecutive numbers left on the list, not behind the last packet or 15 to 25 behind it |
| RtpLostSeq.BatchFromList | src/CGCClass/SotpRtpSource.cpp:199-225 | What a batch names was on the list and is taken off |
| RtpLostSeq.LostHas | src/CGCClass/SotpRtpSource.cpp:264-316 | Taking numbers on adds no others, repeats none, and keeps the list below its capacity |
| RtpLostSeq.LostTakesAll | src/CGCClass/SotpRtpSource.cpp:264-316 | With room, every lost number gets on the list and what was on it stays |
| RtpLostSeq.SortedAscends | src/CGCClass/SotpRtpSource.cpp:264-316 | Among numbers within half the circle the oldest stands first, and so is the first to be dropped |
| RtpLostSeq.SendExactly | src/CGCClass/SotpRtpSource.cpp:199-225 | Exactly when a batch goes, and that it is as long as it can be |
| RtpLostSeq.LostSeqInfo.TakeOn | src/CGCClass/SotpRtpSource.cpp:264-316 | In place: the numbers are added, sorted, and the oldest dropped |
| RtpLostSeq.LostSeqInfo.Receive | src/CGCClass/SotpRtpSource.cpp:199-225 | In place: the number leaves the list, then a batch may go |
| RtpLostSeq.LostSeqInfo.SendBatch | src/CGCClass/SotpRtpSource.cpp:199-225 | In place: the recursion over numbers too old and the loop over the batch |
| RtpClient.ClientRuns | src/CGCClass/SotpRtpSession.cpp:213-260 | Every run of a client is a run of the tracking and a run of the receiver |
| RtpClient.ClientGapsConserved | src/CGCClass/SotpRtpSession.cpp:213-260 | So gaps are conserved over every run of packets and passes on a client |
| RtpClient.FirstPacketRestarts | src/CGCClass/SotpRtpSource.cpp:413-416 | The tracking starts over with the very first packet exactly if its timestamp is above 20 seconds |
| RtpClient.RestartsExactly | src/CGCClass/SotpRtpSource.cpp:413-416 | And later exactly with a packet more than 20 seconds ahead of the last release |
| RtpClient.RestartForgets | src/CGCClass/SotpRtpSource.cpp:413-416 | After a restart nothing before the next packet counts as missing |
| RtpClient.DoRtpData | src/CGCClass/SotpRtpSession.cpp:213-260 | In place: a packet goes through the tracking and the frames, and the restart comes in between |
| RtpRing.RingHoldsLast | src/CGCClass/SotpRtpSource.cpp:366-382 | Slot i holds the last packet of the history whose number is congruent to i |
| RtpRing.RingStaysValid | src/CGCClass/SotpRtpSource.cpp:366-382 | A slot only ever holds a packet whose number is congruent to it |
| RtpRing.AnswerExact | src/CGCClass/SotpRtpSource.cpp:556-582 | A request gets exactly the stored packets of its range, once each, in increasing order |
| RtpRing.WrappedRequestUnanswered | src/CGCClass/SotpRtpSession.cpp:166-177 | A request gets no answer at all exactly if its range runs past the wrap |
| RtpRing.SingleAnswered | src/CGCClass/SotpRtpSession.cpp:166-177 | A request for one packet reaches it for every number, 65535 included |
| RtpRing.RecentRequestAnswered | src/CGCClass/SotpRtpSource.cpp:556-582 | For packets stored in sequence, a request within the last 256 gets every packet it names |
| RtpRing.RepetitionExact | src/CGCClass/SotpRtpSource.cpp:366-382 | A packet counts as a repetition exactly if no different packet has taken its slot since its last copy |
| RtpRing.ReliableQueue.UpdateReliableQueue | src/CGCClass/SotpRtpSource.cpp:366-382 | In place: the packet goes into its slot, the old one comes out, and the result tells whether they are the same packet |
| RtpRing.ReliableQueue.SendReliableMsg | src/CGCClass/SotpRtpSource.cpp:556-582 | The loop sends exactly the answer to the range |
| RtpRepair.GapRepaired | src/CGCClass/SotpRtpSource.cpp:239-365 | The request a gap makes brings back exactly the packets missing, if they are among the last 256 stored |
| RtpRepair.HeldGapRepaired | src/CGCClass/SotpRtpSource.cpp:167-198 | The request for a held packet brings back that packet, whatever its number |
| RtpReceive.PassRemoves | src/CGCClass/SotpRtpSource.cpp:479-553 | Each pass of the poll loop that does not stop it removes the first frame, so the loop ends |
| RtpReceive.PacketKept | src/CGCClass/SotpRtpSource.cpp:405-461 | What a packet does to the receiver, by its numbers: nothing, or it is kept under its timestamp and changes no other frame; the first one sets the awaited number |
| RtpReceive.FrameKept | src/CGCClass/SotpRtpSource.cpp:415-477 | The frame a first packet begins, and what a further one adds: each place once, with as many bytes as the head says |
| RtpReceive.OverwriteExactly | src/CGCClass/SotpRtpSource.cpp:464-476 | The bytes of a packet go to their place and to no other |
| RtpReceive.GraceExactly | src/CGCClass/SotpRtpSource.cpp:433-445 | A new frame has 900 ms if and only if its time to wait is that long and neither the distance nor the clock wraps |
| RtpReceive.FrameExpires | src/CGCClass/SotpRtpSource.cpp:433-445 | A first packet sets when its frame leaves by expiry |
| RtpReceive.PassEffect | src/CGCClass/SotpRtpSource.cpp:479-553 | What a pass does to the counters and the gate, told by what it releases |
| RtpReceive.PassExactly | src/CGCClass/SotpRtpSource.cpp:484-551 | Which way the first frame leaves, whether it is delivered and what becomes of the gate, by its fields |
| RtpReceive.ReleaseCounts | src/CGCClass/SotpRtpSource.cpp:501-546 | Every release but a direct one moves the awaited number behind its frame; a delivered one reports all that was pending |
| RtpReceive.AwaitedOverRuns | src/CGCClass/SotpRtpSource.cpp:405-551 | Over every run with timestamps above 1 the awaited number is the one behind the last release, or that of the first frame |
| RtpReceive.KeyFrameRecovers | src/CGCClass/SotpRtpSource.cpp:501-522 | With the gate closed, delta frames in sequence are dropped and the key frame behind them is delivered, with the lost count, and opens the gate |
| RtpReceive.OrderedDelivery | src/CGCClass/SotpRtpSource.cpp:405-553 | Over every run with timestamps above 1, whatever is lost, reordered or repeated: only whole frames are delivered and none is released behind the last by less than 0xFFFF |
| RtpReceive.LossAccounted | src/CGCClass/SotpRtpSource.cpp:479-553 | Over every run the lost counts reported and the pending one add up to the frames expired undelivered, modulo 2^16 |
| RtpReceive.GateOverRuns | src/CGCClass/SotpRtpSource.cpp:479-553 | The key frame flag is at every moment what the releases so far say |
| RtpReceive.KeyFrameGate | src/CGCClass/SotpRtpSource.cpp:479-553 | After a video frame expires undelivered no delta frame is delivered before a key frame in sequence or the expiry of a frame that is not video |
| RtpSource.DrainStops | src/CGCClass/SotpRtpSource.cpp:479-553 | A call of the poll loop leaves no frame, or a first frame that is neither next nor expired |
| RtpSource.DrainIsRun | src/CGCClass/SotpRtpSource.cpp:479-553 | A call of the poll loop is a row of events of a run, so what holds over runs holds for it |
| RtpSource.Source.CaculateMissedPackets | src/CGCClass/SotpRtpSource.cpp:161-356 | In place: tracker and requests are those of the step function |
| RtpSource.Source.LookAtGaps | src/CGCClass/SotpRtpSource.cpp:167-198 | In place: the part that looks at the held gaps |
| RtpSource.Source.TakeBatch | src/CGCClass/SotpRtpSource.cpp:199-225 | In place: the batch of type 2 |
| RtpSource.Source.Judge | src/CGCClass/SotpRtpSource.cpp:239-355 | In place: the part that judges the number |
| RtpSource.Source.ListAcrossWrap | src/CGCClass/SotpRtpSource.cpp:291-316 | In place: what a packet of type 2 puts on the list across the wrap |
| RtpSource.Source.HoldOrAsk | src/CGCClass/SotpRtpSource.cpp:333-355 | In place: one packet is held back, more are requested |
| RtpSource.Source.PushRtpData | src/CGCClass/SotpRtpSource.cpp:405-477 | In place: the receiver after a packet, and the restart of tracking after twenty seconds |
| RtpSource.Source.GetWholeFrame | src/CGCClass/SotpRtpSource.cpp:479-553 | In place: the loop releases what the passes release, in order |
| RtpSource.Source.OnePass | src/CGCClass/SotpRtpSource.cpp:484-551 | In place: one pass |
| SotpRtpFrame.FrameBuffer.Init | src/CGCBase/cgcrtpobject.h:113-120 | A frame from the pool starts over with no place filled |
| SotpRtpFrame.FrameBuffer.BuildBuffer | src/CGCBase/cgcrtpobject.h:98-112 | The payload buffer has room and never shrinks |
| SotpRtpFrame.FrameBuffer.IsWholeFrame | src/CGCBase/cgcrtpobject.h:89-97 | True exactly if every packet has filled its place |
| SotpRtpFrame.FrameBuffer.FillData | src/CGCClass/SotpRtpSource.cpp:467-476 | A packet of the right length fills its place once, and changes no other byte |
| SotpRtpFrame.FrameTable.Insert | src/CGCClass/SotpRtpSource.cpp:451-456 | A new frame is kept under its timestamp beside the others |
| SotpRtpFrame.FrameTable.FillAt | src/CGCClass/SotpRtpSource.cpp:467-476 | Filling one frame changes no other frame |
| SotpRtpFrame.FrameTable.First | src/CGCClass/SotpRtpSource.cpp:486-489 | The frame looked at is the one with the smallest timestamp |
| RtpStream.ExpectedLength | src/CGCClass/SotpRtpSource.cpp:469-471 | The length the receiver expects of a sent packet is the unit, and for the last one the rest |
| RtpStream.ProperExactly | src/CGCLib/CgcBaseClient.cpp:1035 | A packet carries what its head says, but for the last of a payload that is a multiple of the unit |
| RtpStream.FillMatches | src/CGCClass/SotpRtpSource.cpp:467-476 | Filling keeps the relation between frame, payload and packets arrived |
| RtpStream.WholeExactly | src/CGCBase/cgcrtpobject.h:89-97 | A frame is whole exactly when all its packets have filled their places |
| RtpStream.WholePayload | src/CGCClass/SotpRtpSource.cpp:467-476 | A whole frame holds the payload |
| RtpStream.EvenPayloadNeverWhole | src/CGCLib/CgcBaseClient.cpp:1035 | A payload that is a multiple of the unit is never whole |
| RtpDelivery.Reassembly | src/CGCClass/SotpRtpSource.cpp:405-477 | Packets in any order, repeated and among other frames: whole exactly when all have come and the length is uneven, and then equal to the payload |
| RtpDelivery.FirstReassembly | src/CGCClass/SotpRtpSource.cpp:405-477 | The same for a receiver that has seen nothing, if the first packet belongs to the frame |
| RtpDelivery.StrangerFirst | src/CGCClass/SotpRtpSource.cpp:410-413 | If the first packet belongs to a frame ahead by less than 2^16, the frame is never begun |
| RtpExactlyOnce.InOrderExactly | src/CGCClass/SotpRtpSource.cpp:405-553 | First frame first: over every run the callbacks are the first frames, in order, with lost count 0, and no frame that is out is back, if and only if nothing harmful has happened |
| RtpExactlyOnce.ExactlyOnce | src/CGCClass/SotpRtpSource.cpp:405-553 | Every frame is delivered exactly once, in order, with nothing left behind, if and only if every packet has come, nothing harmful has happened and the passes have gone on |
| RtpExactlyOnce.NeverIdle | src/CGCClass/SotpRtpSource.cpp:484-551 | And they go on: once everything has come no pass is idle before nothing is left |
| RtpHarm.LateCopy | src/CGCClass/SotpRtpSource.cpp:411-477 | After every harmless run: a packet of a frame that is out, not taken for late, brings the frame back; a single packet is delivered again, any other frame blocks the passes until it expires, counts as lost and can close the gate |
| RtpHarm.LateCopyHappens | src/CGCClass/SotpRtpSource.cpp:411-477 | It happens in every stream, with any packet of the first frame |
| RtpHarm.OvertakingHappens | src/CGCClass/SotpRtpSource.cpp:501-522 | In every long enough stream there is a run without loss, repetition or expiry in which the frame 65536 packets on is delivered in place of frame 1 |
| RtpHarm.LongStreams | src/CGCClass/SotpRtpSource.cpp:501-522 | There are such streams |
| RtpEndToEnd.DeliveredExactlyOnce | src/CGCClass/SotpRtpSource.cpp:405-553 | The same from the payloads of the sender over the printed packets and the parser to the callbacks |
| RtpEndToEnd.NumbersFollow | src/CGCLib/CgcBaseClient.cpp:985-1058 | The sender numbers the next frame where the stream has it |
| RtpWire.HeadRoundTrip | src/CGCBase/cgcrtpobject.h:50-61 | The 32 bytes of a data head read back as the head |
| RtpWire.DataReceived | src/CGCClass/ParseCgcSotp2.cpp:255-259 | What the parser makes of any printed packet: its head only, or as many bytes as the head says, and then on with the items behind a newline |
| RtpWire.DataReceivedAlone | src/CGCClass/ParseCgcSotp2.cpp:373-404 | Without a newline there, the packet is all that comes out |
| RtpWire.SecondItemTakesOver | src/CGCClass/ParseCgcSotp2.cpp:255-259 | A second item in the data of a packet takes the place of the packet |
| RtpWire.CommandTakesOver | src/CGCLib/CgcBaseClient.cpp:1797-1803 | So does a command in it |
| RtpWire.OtherDatagram | src/CGCClass/ParseCgcSotp2.cpp:215-230 | A datagram of another type or version is neither packet nor command |
| RtpWire.DataRoundTrip | src/CGCClass/ParseCgcSotp2.cpp:373-404 | A packet comes out as it went in exactly if its length is the one its head says and it lies inside the total |
| RtpWire.RelayKeepsPacket | src/CGCClass/SotpRtpSession.cpp:213-245 | What a server prints for a packet it received is the packet |
| RtpWire.SentPacketReceived | src/CGCClass/SotpCallTable2.cpp:852-866 | Every packet of a frame arrives as sent, but for the last of an even payload, which is dropped |
| RtpWire.WireReassembly | src/CGCClass/ParseCgcSotp2.cpp:373-404 | Cut, printed, parsed and put together: whole exactly when all packets have come and the length is uneven, and then equal to the payload |
| RtpWire.WireFirstReassembly | src/CGCClass/ParseCgcSotp2.cpp:373-404 | The same over the wire for the first frame of a fresh receiver |
| RtpWire.ByteUnitCorruptsLast | src/CGCClass/ParseCgcSotp2.cpp:389-391 | The length check of the parser is one short: with a unit of one byte the newline is taken for the last byte |
| RtpWire.CommandRoundTrip | src/CGCClass/ParseCgcSotp2.cpp:355-372 | A printed command reads back as the command, requests included |
| RtpSender.DoSendRtpData | src/CGCLib/CgcBaseClient.cpp:985-1058 | The loop sends exactly the packets of the payload under consecutive numbers and stores each before sending; what is refused |
| RtpSender.MakePacket | src/CGCLib/CgcBaseClient.cpp:1024-1036 | One packet: its head and its part of the payload |
| RtpSender.CutIsSent | src/CGCLib/CgcBaseClient.cpp:1024-1036 | These packets are the ones the receiver theorems speak of |
| RtpSender.PutAllExtends | src/CGCLib/CgcBaseClient.cpp:1038-1044 | Storing a frame extends the history of the ring |
| RtpSender.LongPayloadCut | src/CGCLib/CgcBaseClient.cpp:988-991 | A payload is cut short exactly if its unit count, beyond 16 bits, is small when cut to 16 bits |
| RtpUnregister.RemovesReached | src/CGCClass/SotpRtpRoom.cpp:95-112 | If unregistering ends, exactly the named source and all reachable from it are gone, the rest untouched |
| RtpUnregister.EndsExactly | src/CGCClass/SotpRtpRoom.cpp:95-112 | It ends if and only if no walk through the sink lists from the source goes on for ever |
| RtpUnregister.RankedEnds | src/CGCClass/SotpRtpRoom.cpp:188-207 | A rank that falls along every sink makes it end |
| RtpUnregister.OwnSinksOnly | src/CGCLib/CgcBaseClient.cpp:941-950 | If only one source has sinks, it ends exactly if that source is not its own sink |
| RtpUnregister.ClientRoom.UnRegisterSource1 | src/CGCClass/SotpRtpRoom.cpp:95-112 | In place: the mutual recursion leaves what the function says |
| RtpUnregister.ClientRoom.UnRegisterAllSink | src/CGCClass/SotpRtpRoom.cpp:179-207 | In place: the loop over the sinks, and the cleared list |
| RtpSession.MemberAfter | src/CGCClass/SotpRtpSession.cpp:109-201 | What one event does to one source: everything else leaves its sinks and its ring alone |
| RtpSession.RegisteredExactly | src/CGCClass/SotpRtpRoom.cpp:43-135 | For every event: who is registered afterwards; a new source needs an id that is not 0, and the consent of the callback if there is one |
| RtpSession.NewMemberExactly | src/CGCClass/SotpRtpRoom.cpp:49-72 | A new source has the remote, the parameter and the time of its command, no sinks and an empty ring |
| RtpSession.AgainExactly | src/CGCClass/SotpRtpRoom.cpp:73-95 | When a known source may register again, and what that renews; a refusal changes nothing |
| RtpSession.IdentityKept | src/CGCClass/SotpRtpRoom.cpp:43-135 | No other event touches remote, parameter or times |
| RtpSession.AnswersExactly | src/CGCClass/SotpRtpSession.cpp:109-185 | What the session answers to every event |
| RtpSession.RoomsExactly | src/CGCClass/SotpRtpSession.cpp:50-85 | Which rooms there are |
| RtpSession.SinksExactly | src/CGCClass/SotpRtpRoom.cpp:130-207 | After every history a source receives a sender exactly if its last accepted word about it since its registration was to register it |
| RtpSession.FanOut | src/CGCClass/SotpRtpRoom.cpp:220-267 | A packet sent on goes to exactly the other sources with a remote whose last word was to register the sender |
| RtpSession.SentTwice | src/CGCClass/SotpRtpSession.cpp:230-245 | A packet goes out a second time only if a different one took its slot or its source was unregistered in between |
| RtpSession.RepetitionSilent | src/CGCClass/SotpRtpSession.cpp:230-245 | An undisturbed repetition goes to nobody |
| RtpSession.HeldBackExactly | src/CGCClass/SotpRtpSession.cpp:230-245 | Over every history a packet of a registered source is held back if and only if the same packet has come before and nothing has disturbed it since |
| RtpSession.OwnRemoteOnly | src/CGCClass/SotpRtpRoom.cpp:130-207 | What a source receives changes only by a command from its own remote |
| RtpSession.RemoteChangesByConsent | src/CGCClass/SotpRtpRoom.cpp:46-94 | With a callback the remote of a known source changes only by consent or if the old one is gone |
| RtpSession.SotpRtpSession.RegisterSource | src/CGCClass/SotpRtpSession.cpp:50-82 | In place: the room is made first, the callback asked once |
| RtpSession.SotpRtpSession.RoomRegisterSource | src/CGCClass/SotpRtpRoom.cpp:46-94 | In place: a source is admitted, known again or refused |
| RtpSession.SotpRtpSession.UnRegisterSource2 | src/CGCClass/SotpRtpRoom.cpp:113-129 | In place: a source goes if the parameter fits, an empty room with it |
| RtpSession.SotpRtpSession.RegisterSink | src/CGCClass/SotpRtpRoom.cpp:130-159 | In place: a sink is added on the word of the own remote |
| RtpSession.SotpRtpSession.UnRegisterSink | src/CGCClass/SotpRtpRoom.cpp:160-178 | In place: a sink is dropped |
| RtpSession.SotpRtpSession.UnRegisterAllSink | src/CGCClass/SotpRtpRoom.cpp:188-207 | In place: all sinks are dropped |
| RtpSession.SotpRtpSession.DoRtpData | src/CGCClass/SotpRtpSession.cpp:213-245 | In place: a packet is stored and sent to its recipients unless it is a repetition |
| RtpSession.BroadcastRtpData | src/CGCClass/SotpRtpRoom.cpp:220-267 | The loop reaches each recipient once, in the order of their numbers |
| RtpSession.CheckRoom | src/CGCClass/SotpRtpRoom.cpp:268-295 | The loop keeps exactly the sources heard of in time |
| RtpSession.CheckRegisterSourceLive | src/CGCClass/SotpRtpSession.cpp:261-287 | The loop over the rooms, which drops empty ones |
| CallTable.PassBounded | src/CGCLib/CgcBaseClient.cpp:2006-2072 | One pass sends at most eleven messages again, by increasing number, and gives up at most one |
| CallTable.PassExact | src/CGCLib/CgcBaseClient.cpp:2006-2072 | For every message: whether a pass sends it again, gives it up or leaves it |
| CallTable.AddExactly | src/CGCLib/CgcBaseClient.cpp:1105-1140 | What tracking a message makes of every entry; a number still in use keeps its call id and the resends used |
| CallTable.ReusedNumberGivenUp | src/CGCLib/CgcBaseClient.cpp:1105-1140 | A message under a number whose resends are used up is given up without being sent again |
| CallTable.StepEntry | src/CGCLib/CgcBaseClient.cpp:2006-2072 | What one event does to a message that stays in the table |
| CallTable.LifeCounts | src/CGCLib/CgcBaseClient.cpp:1061-1080 | While tracked, a message keeps its data and counts its resends within the limit |
| CallTable.BoundedSends | src/CGCLib/CgcBaseClient.cpp:2006-2072 | A message is sent once and at most timeoutResends times again, over every run without reuse of its number |
| CallTable.GivenUpAfterAll | src/CGCLib/CgcBaseClient.cpp:2043-2066 | It is given up only after all its resends |
| CallTable.OneOutcome | src/CGCLib/CgcBaseClient.cpp:1807-1814 | It leaves the table in exactly one way: acknowledged, given up, cleared |
| CallTable.Pauses | src/CGCBase/cgcSeqInfo.h:115-138 | With a clock that never goes back, read anew for each message, every resend and giving up comes at least three seconds after the last send |
| CallTable.SeqInfoTable.AddSeqInfo | src/CGCLib/CgcBaseClient.cpp:1061-1080 | In place: a new entry, or an old one refreshed that keeps its used resends |
| CallTable.SeqInfoTable.CheckSeqTimeout | src/CGCLib/CgcBaseClient.cpp:2006-2072 | In place: the loop does what the pass function says, and the result tells whether to come back |
| CallTable.SeqInfoTable.Remove | src/CGCLib/CgcBaseClient.cpp:1810-1814 | In place: an acknowledged message goes |
| CallTable.IsTimeout | src/CGCBase/cgcSeqInfo.h:115-138 | Due exactly three seconds after the last send; a send time that is 0 or not in the past starts over |
| DuplicateFilter.HoldsOverHistories | src/CGCLib/CgcBaseClient.cpp:1819-1844 | Over every history each slot of the ring holds what was accepted when it was written, since the last reset |
| DuplicateFilter.KeptExactly | src/CGCLib/CgcBaseClient.cpp:1842-1844 | Which acceptances the ring covers: the last 500, but after the 32-bit count has started over all but as many of them as came since, until 500 have come |
| DuplicateFilter.FilterExact | src/CGCLib/CgcBaseClient.cpp:1819-1844 | Over every history a message is accepted exactly if a reset is due or the ring does not cover its number, except 65535 while a slot is unwritten |
| DuplicateFilter.AtMostOnce | src/CGCLib/CgcBaseClient.cpp:1819-1844 | Between resets no number is accepted twice while the ring covers it: within 500 acceptances, or within 296 at least when the count has just started over |
| HandledOnce.TransmissionsBounded | src/CGCLib/CgcBaseClient.cpp:2006-2072 | A tracked message is transmitted at most once and timeoutResends times more, between its first and last time of sending |
| HandledOnce.CopiesHandledOnce | src/CGCLib/CgcBaseClient.cpp:1807-1844 | Of all copies that resends and a network that delays, loses and repeats make of one tracked message at most one is handled, if no reset can come between them and the ring covers the number |
| DuplicateFilter.ResetNeedsSilence | src/CGCLib/CgcBaseClient.cpp:1827-1830 | The ring is only cleared more than 15 seconds after the last acceptance |
| DuplicateFilter.ResetExactly | src/CGCLib/CgcBaseClient.cpp:1827-1830 | Over every history the ring is cleared exactly by a message more than 15 seconds after the last one accepted, if that came at a time above 0 |
| DuplicateFilter.HeardAfterSilence | src/CGCLib/CgcBaseClient.cpp:1827-1844 | So after such a silence any number is accepted |
| DuplicateFilter.CountStartsOver | src/CGCLib/CgcBaseClient.cpp:1842-1844 | A history in which the count starts over and a number is accepted again after 296 acceptances |
| DuplicateFilter.ReceiveInfo.ReceiveSeq | src/CGCLib/CgcBaseClient.cpp:1827-1844 | In place: the loop over the 500 masks accepts and records as the function says |
| SotpNumbers.AtoiOfDec | src/CGCClass/ParseCgcSotp2.cpp:556-568 | A printed number is read as that number |
| SotpNumbers.ReadFrom | src/CGCClass/ParseCgcSotp2.cpp:556-568 | What may stand before the digits: white space, which is passed over, and one sign; anything else reads as 0 |
| SotpNumbers.ReadTo | src/CGCClass/ParseCgcSotp2.cpp:556-568 | Reading ends with the first character that is no digit |
| SotpNumbers.IdRoundTrip | src/CGCClass/ParseCgcSotp2.cpp:544-555 | A printed id comes back exactly if it is below 2^63; the others become 2^63 - 1 |
| SotpNumbers.NegativeId | src/CGCClass/ParseCgcSotp2.cpp:544-555 | A negative one comes back as its 64 bits without a sign, and 2^63 if it is too small |
| SotpNumbers.BigRoundTrip | src/CGCBase/cgcvalueinfo.h:1338-1434 | A signed 64-bit value comes back, any other number as the nearest bound |
| SotpNumbers.FindMarker | src/CGCClass/ParseCgcSotp2.cpp:601-655 | A marker is found behind a text that avoids it |
| SotpRoundTrip.KeywordRead | src/CGCClass/ParseCgcSotp2.cpp:806-1118 | No keyword of version 2.0 is taken for another |
| SotpRoundTrip.TypedValueRead | src/CGCBase/cgcvalueinfo.h:1338-1434 | A value printed as text and typed again is the value |
| SotpRoundTrip.ShortRead21 | src/CGCClass/ParseCgcSotp2.cpp:405-741 | Each one-line item of version 2.1 is read as printed |
| SotpRoundTrip.ShortRead20 | src/CGCClass/ParseCgcSotp2.cpp:806-951 | And of version 2.0 |
| SotpRoundTrip.LongRead21 | src/CGCClass/ParseCgcSotp2.cpp:601-800 | Parameters, attachments and accounts of version 2.1 are read as printed, newlines in values included |
| SotpRoundTrip.LongRead20 | src/CGCClass/ParseCgcSotp2.cpp:952-1158 | And of version 2.0 |
| SotpMessages.ItemsRead | src/CGCClass/ParseCgcSotp2.cpp:205-299 | The parse loop reads a row of printed items one by one |
| SotpMessages.CallRoundTrip | src/CGCClass/SotpCallTable2.cpp:285-361 | Parsing a printed call recovers every field, in either version |
| SotpMessages.VersionsAgree | src/CGCClass/SotpCallTable2.cpp:285-361 | The two versions of one call parse to the same fields apart from the accepted encoding |
| SotpMessages.ResultRoundTrip | src/CGCClass/SotpCallTable2.cpp:734-778 | Parsing a printed call result recovers every field and the code |
| SotpMessages.AckRoundTrip | src/CGCClass/SotpCallTable2.cpp:76-84 | Parsing a printed acknowledgement recovers its number |
| SotpMessages.Types20 | src/CGCClass/ParseCgcSotp2.cpp:231-272 | Each of the six types of version 2.0 is read as its number |
| SotpMessages.Types21 | src/CGCClass/ParseCgcSotp2.cpp:222-230 | The characters version 2.1 takes for a type: '1' to '9', 'A' to 'C', and by accident the three behind '9' |
| SotpMessages.BooleanRead | src/CGCBase/cgcvalueinfo.h:1364-1368 | A boolean value is false for an empty text, 0 and false only |
| SotpMessages.SidExactly | src/CGCClass/ParseCgcSotp2.cpp:405-409 | A one-line session id comes back exactly if it does not end in a carriage return |
| SotpLines.PvReadAny | src/CGCClass/ParseCgcSotp2.cpp:601-655 | A parameter takes as many characters as its head says, whatever stands in them, or ends the parse if there are fewer |
| SotpLines.PvIncomplete | src/CGCClass/ParseCgcSotp2.cpp:601-655 | A parameter head without both marks is passed over |
| SotpLines.AtReadAny | src/CGCClass/ParseCgcSotp2.cpp:656-736 | The same of an attachment, whose length is cut to 32 bits; without data it keeps the fields of its head |
| SotpLines.AtIncomplete | src/CGCClass/ParseCgcSotp2.cpp:656-736 | An attachment head without its first mark is passed over, without another one it empties the attachment |
| SotpLines.UaReadAny | src/CGCClass/ParseCgcSotp2.cpp:762-799 | An account with both marks gives name and password |
| SotpLines.UaIncomplete | src/CGCClass/ParseCgcSotp2.cpp:762-799 | With the first only it gives the name |
| SotpLines.BlanksMeanNothing | src/CGCClass/ParseCgcSotp2.cpp:806-1118 | Blanks and tabs before a keyword of version 2.0 mean nothing, on any line |
| SotpLines.OtherItems | src/CGCClass/ParseCgcSotp2.cpp:341-800 | Items of RTP end the parse of a text message, unknown ones are passed over; at encrypted and encoded ones the model ends |
| SotpLines.NulHidesNewline | src/CGCClass/ParseCgcSotp2.cpp:341-800 | A line ends at its newline unless a NUL comes first |
| SotpLines.ResultRead | src/CGCClass/ParseCgcSotp2.cpp:274-292 | What follows the protocol name and one more character is the result, if it is not empty |
| SotpLines.NothingRead | src/CGCClass/ParseCgcSotp2.cpp:205-299 | A message without items leaves every field at its start |
| Sotp.ParseCgcSotp2.ParseOneLine | src/CGCClass/ParseCgcSotp2.cpp:341-1162 | In place: the fields after one line, and where the next begins |
| Sotp.ParseCgcSotp2.ParseBuffer | src/CGCClass/ParseCgcSotp2.cpp:205-299 | In place: the fields after a whole message; the loop ends because each line leaves less |
| Sotp.ParseCgcSotp2.ParseParameter | src/CGCClass/ParseCgcSotp2.cpp:601-655 | In place: a length-delimited parameter |
| Sotp.ParseCgcSotp2.ParseAttach | src/CGCClass/ParseCgcSotp2.cpp:656-736 | In place: a length-delimited attachment |
| Sotp.SotpCallTable2.GetParametersString | src/CGCClass/SotpCallTable2.cpp:908-962 | The loop prints the parameters one after the other |
| Sotp.SotpCallTable2.ToAppCallString | src/CGCClass/SotpCallTable2.cpp:285-361 | Prints a call and clears the parameters; without a name nothing |
| Sotp.SotpCallTable2.ToAppCallResult | src/CGCClass/SotpCallTable2.cpp:734-778 | Prints a call result and clears the parameters |
| Sotp.SotpCallTable2.ToAttachString | src/CGCClass/SotpCallTable2.cpp:594-609 | Prints an attachment with data |
| Sotp.SotpCallTable2.ToAckString | src/CGCClass/SotpCallTable2.cpp:76-84 | Prints an acknowledgement |
| Sotp.SotpCallTable2.GetNextCallId | src/CGCClass/SotpCallTable2.cpp:897-901 | In place: ids go up by one in 64 bits, and 0 is never handed out |
| PpHttp.NoFalseMatch | src/CGCClass/PpHttp.cpp:2250-2273 | What the substring search finds is an occurrence, for every pattern |
| PpHttp.FindsFirstExactly | src/CGCClass/PpHttp.cpp:2250-2273 | It finds the leftmost occurrence in every text if and only if each border of a matched prefix would fail on the same byte |
| PpHttp.MissesOne | src/CGCClass/PpHttp.cpp:2250-2273 | For any other pattern, a text in which it overlooks an occurrence |
| PpHttp.HeaderEndSearchable | src/CGCClass/PpHttp.cpp:2250-2273 | The end of a header qualifies |
| PpHttp.BoundarySearchable | src/CGCClass/PpHttp.cpp:2250-2273 | So does a boundary line, section 5.1.1 of RFC 2046, and any pattern whose first byte does not recur |
| PpHttp.SearchBuffer | src/CGCClass/PpHttp.cpp:2250-2273 | The loop over two indices, which ends, finds what the function finds |
| PpHttp.HexByteOf | src/CGCClass/PpHttp.cpp:2310-2318 | The two hexadecimal digits of a byte give the byte |
| PpHttp.HexValue | src/CGCClass/PpHttp.cpp:2310-2318 | What any byte counts for behind a percent sign |
| PpHttp.EncodedExactly | src/CGCClass/PpHttp.cpp:2320-2341 | Letters and digits are written as they are, every other byte as a percent sign and two digits with capitals |
| PpHttp.PercentNearEnd | src/CGCClass/PpHttp.cpp:2343-2369 | A percent sign before the last byte takes the NUL behind that for its second digit |
| PpHttp.URLRoundTrip | src/CGCClass/PpHttp.cpp:2320-2369 | Decoding undoes encoding for every string up to its first NUL, section 2.1 of RFC 3986 |
| PpHttp.FormRoundTrip | src/CGCClass/PpHttp.cpp:2343-2369 | Decoding undoes form encoding too, with plus signs for spaces and other bytes left as they are |
| PpHttp.SmallHexExactly | src/CGCClass/PpHttp.cpp:2310-2318 | A small hexadecimal letter in second place is read right if and only if the bit worth 32 belongs to the byte |
| PpHttp.SmallHexFirst | src/CGCClass/PpHttp.cpp:2310-2318 | In first place it is always read right |
| PpHttp.EncodeText | src/CGCClass/PpHttp.cpp:2320-2341 | The loop over the characters yields the encoding |
| PpHttp.DecodeText | src/CGCClass/PpHttp.cpp:2343-2369 | The loop over the characters yields the decoding |
| PpHttp.QueryCollected | src/CGCClass/PpHttp.cpp:995-1052 | Joined encoded pairs collect to the first value of each name, or all values in order once a name ends in [] |
| PpHttp.QueryOnly | src/CGCClass/PpHttp.cpp:995-1052 | And to no other name |
| PpHttp.VectorNames | src/CGCClass/PpHttp.cpp:1025-1032 | A vector name is a name that is not empty, followed by a pair of brackets |
| PpHttp.CollectRaw | src/CGCClass/PpHttp.cpp:995-1052 | Without decoding the names and values are entered as they stand |
| PpHttp.CollectStops | src/CGCClass/PpHttp.cpp:1012-1018 | A parameter without an equals sign ends the collecting |
| PpHttp.Request.GetPropertys | src/CGCClass/PpHttp.cpp:995-1052 | In place: the loop over the parameters |
| PpHttp.Request.Insert | src/CGCBase/cgcvalueinfo.h:1338-1434 | In place: the first value stays, a vector name turns it into a vector and adds |
| Attachment.CgcAttachment.SetAttach | src/CGCBase/cgcattachment.h:118-141 | In place: the bytes are held, the capacity covers them and never shrinks |
| Attachment.CgcAttachment.Clear | src/CGCBase/cgcattachment.h:166-172 | In place: no bytes left, with or without the buffer |
| Attachment.CgcAttachment.RebuildBuffer | src/CGCBase/cgcattachment.h:173-187 | In place: room is made; what happens to the bytes |

## Left out

- Sorted: the comparison the list of lost numbers is sorted by is no order once they lie more than half the circle
  apart, and what `std::list::sort` then does is its own affair; here it is insertion sort.
- The values of the SP tables: every law of the cipher holds for arbitrary ones. `makekey` and the copying of the
  longer registers are straight copies and left out.
- The pool that reuses frame objects: a new frame has a buffer with arbitrary contents instead.
- FillAt: a packet whose head disagrees with the frame it belongs to can point behind the frame's buffer; here such
  a write writes nothing, and a look behind the 512 places of a frame finds nothing there.
- ExactlyOnce: is about runs that see a packet of the first frame first; FirstReassembly and StrangerFirst say what
  becomes of a frame otherwise.
- DataReceived: follows the parser through data and command items; an item of another kind in an RTP datagram ends
  the model, and so does one whose head or command is cut off, which the source reads past the end. A result code
  in the first line of an RTP datagram, which nothing prints, is not part of it.
- Reassembly: is about a frame not behind the last one released or taken as first; FirstReassembly and
  StrangerFirst say what a fresh receiver does.
- WireReassembly: is about units of more than one byte; the client's sizes are never one, and ByteUnitCorruptsLast
  says what would happen.
- OrderedDelivery: is about timestamps above 1; frames with timestamp 0 or 1 bypass the order.
- CallRoundTrip: has no float, pointer, object, buffer, vector or map parameters, and no encrypted or encoded data
  lines, at which the model of the parser stops.
- CopiesHandledOnce: asks that the last copy is due within 15 seconds of the first transmission; after a longer time
  the filter may have been reset, and a late copy is handled again.
- The receiver's parameter map is kept as the row of insertions.
- Open, close and active messages, RSA, AES and zlib, and Windows code pages.
- A unit length of zero, by which the source divides, and numbers in received text that do not fit their types.
- Sockets, threads, sleeps, logging and pools of messages; buffers of fixed size are large enough.
- Multipart uploads and the rest of the HTTP request parser.
- A client's own calls that re-register its sources and sinks from time to time.
