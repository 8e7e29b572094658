# A reliable transfer protocol, verified

`lab2/src` moves a file over UDP, which may lose, duplicate, reorder and garble
datagrams. Sender and receiver count packets with 31-bit wrapping numbers and run
either Go-Back-N with cumulative acknowledgements (mode 0) or Selective Repeat with
one acknowledgement per packet and a bitmap window on each side (mode 1), between a
handshake and a teardown. Every packet carries a table-driven CRC-32. This project
models all of that, and the length-prefixed framing of `lab1/ftp_utils.hpp`.

## How it is built

| file | what it holds |
|---|---|
| `SeqNum.dfy`, `Window.dfy`, `Segments.dfy`, `Indices.dfy` | ring numbers, the acknowledgement window, how a file is cut up and put together |
| `Crc.dfy`, `Division.dfy`, `Wire.dfy`, `Bytes.dfy` | the checksum, what it is the remainder of, and packets as bytes |
| `Ideal.dfy` | the protocol on unbounded packet indices: no ring, no windows, no buffer |
| `Protocol.dfy` | the two transfer loops as the code has them: wrapped numbers, windows, buffer, offsets, out-of-bounds accesses as faults |
| `Laws.dfy` | what each transfer loop does with any reception whatever, and everything the sender sends, without naming the steps |
| `Refinement.dfy` | the code's step and the ideal step form a commuting square |
| `Delivery.dfy`, `Drain.dfy`, `Loss.dfy`, `Oversize.dfy` | what holds in every run; what a timeout can and cannot repair; which transfers can still be finished after a loss and without one; which windows are too large |
| `Session.dfy`, `Completion.dfy` | handshake, transfer and teardown over the same two channels; which sessions can still connect and which can still be closed, after a loss and without one |
| `Datagrams.dfy` | sessions over bytes that may be damaged on the way |
| `Endpoints.dfy` | the two programs as classes whose methods loop and update variables and arrays in place |
| `Scripts.dfy` | what the two programs say and do outside their transfer loops, by counting |
| `Framing.dfy` | posts over a byte stream that moves any number of bytes per call |

A channel is the set of all packets ever sent one way. A reception is a timeout
(`-2`), a packet that fails the checks and may show any contents (`-1`), or any
packet of the channel (`0`). So a packet may never arrive, arrive many times, or
arrive in any order. A run is a sequence of such events, of any length. Where the
question is what can still happen, what was sent so far may also be taken out of the
channels: `Completion.Forgotten` is a session all of whose packets so far are lost.

The concrete state is a function (`Refinement.Conc`) of an ideal state, in which an
end is a set of indices and its base is the first index missing. Every code event
stands for one ideal event, and the square `Refinement.Square` says that both
lead to corresponding states and that no access leaves an array. Everything in
`Delivery` and `Session` is an invariant of the ideal protocol carried over.

The statements hold for every file of up to 2^21 bytes, every window size from 1 to
2^31 - 1, both modes and every first number. Selective Repeat needs that the packets
of the file and one window together fit on the ring. `Delivery.AcksAreTrueIffValid`
shows that this is exactly what its acknowledgements need to be true, and
`Oversize.WindowsThatDeliver` that it is what delivery needs too, up to one packet if
that one is empty.

## What the code does not do

These are results about the code as it stands.

* A file whose length is a positive multiple of 1461 arrives without its last 1461
  bytes, because the last packet is given the remainder as its length
  (`lab2/src/sender.c:88`, `lab2/src/sender.c:103`). It arrives whole otherwise:
  `Segments.SegmentationRoundTrip`, `Delivery.Delivered`.
* The loop that sends a batch again compares ring numbers as plain numbers
  (`lab2/src/sender.c:113`), so a batch that reaches the end of the ring is never
  sent again: `Drain.TimeoutSends`. Timeouts can complete a transfer from everywhere
  exactly when no batch does: `Drain.CompletableIffNoWrap`. The shipped first number
  is safe: `Session.ShippedStart`.
* With a window that does not fit on the ring beside the file, Selective Repeat
  acknowledges packets it has not stored: `Delivery.TooLargeAWindow`,
  `Oversize.Undelivered`. Such a window has more than 2^31 - 1436 cells, some 8 GB in
  an array on the stack (`lab2/src/sender.c:90`, `lab2/src/receiver.c:94`), so that an
  ordinary stack gives out before the protocol does.
* The receiver honours the FIN bit of a packet that failed its checks, and leaves on
  a timeout (`lab2/src/receiver.c:105`): `Delivery.GarbledFinStopsEmpty`. Leaving the
  loop means holding the file exactly when it is left on a packet that passed its
  checks, or when there is nothing to hold: `Completion.LeavingIsSafeIff`. What a sender that has finished knows does
  not suffer from it: `Session.ClosedMeansWritten`.
* The sender stops sending the third handshake once it sends data. If that one packet
  is lost (`Session.ThirdHandshakeLost`) the receiver waits for it for ever and the
  transfer never moves: `Session.MissedForGood`. This is the only way in which a loss
  keeps a session from connecting: `Completion.ConnectableAfterLoss`.
* A session that loses everything sent so far can still be closed in exactly the
  phases listed in `Completion.CanStillClose`. Besides the two cases above it is stuck
  with a receiver that has given up, that has left its loop too early, or that has
  ended with its answer to the FIN lost: `Completion.ClosableAfterLoss`.
* A header that announces less than its own length makes `recv_post` ask for almost
  2^64 bytes (`lab1/ftp_utils.hpp:139-144`): `Framing.WantedIsAnnounced`,
  `Framing.EmptyHeaderWants`.
* The interval test takes an empty interval for the whole ring
  (`lab2/src/util.c:110-114`); it is never asked about one:
  `Delivery.NeverEmptyInterval`.
* `lab2/src/receiver.c:65` keeps the outcome of a comparison, so the timeout test
  after it never succeeds. A receiver that left its loop before it had every packet
  will never see a FIN, and waits in `break_connection` for ever:
  `Completion.LeftTooEarlyForGood`, `Completion.ReceiverCanEnd`;
  `lab2/src/receiver.c:81-82` compares a field with itself. Both are modelled as
  written, in `Session.ReceiverTurn`.

## Model

| member | source | states |
|---|---|---|
| Delivery.Delivered | lab2/src/sender.c:96-149 | in every run, once the sender has left its loop the receiver's first fsize bytes are the rebuilt file, whatever became of the receiver; they are the file itself if and only if its length is 0 or not a multiple of PAYLOAD_MAX |
| Delivery.CodeRefinesIdeal | lab2/src/receiver.c:101-152 | no run of the two loops faults, and each is, event for event, a run of the protocol on unbounded indices that ends in the corresponding state |
| Delivery.IdealRefinesCode | lab2/src/sender.c:96-149 | conversely every run of the protocol on unbounded indices is a run of the code |
| Delivery.EndsAgree | lab2/src/sender.c:131-148 | what the sender counts as acknowledged is stored; sender base <= receiver base <= what was sent; whatever arrives next, the sender's base neither goes back nor passes the receiver's |
| Delivery.AcksAreTrueIffValid | lab2/src/receiver.c:117-121 | Selective Repeat: in all runs everything counted as acknowledged is stored, if and only if npacket + wsize <= 2^31 |
| Delivery.TooLargeAWindow | lab2/src/receiver.c:117-121 | for every larger window a three-event run after which the sender counts a packet as acknowledged that the receiver has not stored |
| Oversize.WindowsThatDeliver | lab2/src/receiver.c:117-137 | Selective Repeat: in all runs in which the sender finishes the receiver holds the rebuilt file, if and only if npacket + wsize <= 2^31, or it is 2^31 + 1 and the length of the file is a multiple of PAYLOAD_MAX |
| Oversize.Undelivered | lab2/src/receiver.c:117-121 | for every other window a run in which the sender finishes and the receiver has fewer bytes than the rebuilt file |
| Oversize.HarmlessDelivers | lab2/src/receiver.c:117-137 | in the exception only the empty last packet is ever acknowledged unstored, and the rebuilt file arrives |
| Oversize.Square | lab2/src/receiver.c:115-137 | with an oversized window the code makes, step for step, the moves of a protocol on indices that acknowledges whatever arrives and stores what is within 2^31 - wsize of the base |
| Delivery.Reassembly | lab2/src/receiver.c:122-136 | at every moment a buffer byte is the file's byte if its packet is below shift or marked, and untouched otherwise; fsize is the largest end of a stored packet |
| Delivery.OutstandingIsAnswered | lab2/src/receiver.c:117-137 | Selective Repeat: every outstanding packet, whenever and however often it arrives, is answered with its own acknowledgement and never faults |
| Delivery.GoBackNPrefix | lab2/src/receiver.c:140-151 | Go-Back-N: the stored bytes are always a prefix of the file, and every acknowledgement n ever sent has n at most the number of packets stored |
| Delivery.AckEffectSelective | lab2/src/sender.c:133-148 | an acknowledgement changes the sender if and only if its packet was not yet counted, and then adds exactly that packet to those counted |
| Delivery.AckEffectGoBackN | lab2/src/sender.c:131-148 | an acknowledgement changes the sender if and only if it is beyond the base, which then becomes its number |
| Delivery.ChangesBounded | lab2/src/sender.c:109-148 | in any run, of any length, at most npacket receptions change the sender |
| Delivery.BatchDiscipline | lab2/src/sender.c:98-108 | every fill starts at a multiple of wsize; a waiting sender has sent exactly up to the end of the batch its base lies in; marks lie only below the outstanding count |
| Delivery.FreshInOrder | lab2/src/sender.c:98-108 | the packets sent by fills over a whole run are packets 0, 1, 2, ... each once, in order, without gap |
| Delivery.NeverEmptyInterval | lab2/src/util.c:108-115 | for every window size, no interval test of either loop is ever made with equal ends |
| Laws.ReceiverStops | lab2/src/receiver.c:104-113 | a reception ends the receiver's loop if and only if it is a timeout or its packet, checked or garbled, has flags & 4; nothing is stored or sent then, nor for anything but a checked packet without flags |
| Laws.ReceiverGoesOn | lab2/src/receiver.c:101-113 | in every transfer every possible reception is handled without a fault, and leaves the loop closed if and only if it is such a one |
| Laws.ReceiverTakesSelective | lab2/src/receiver.c:115-137 | mode 1, for any sequence number at a distance d from the base along the ring: acknowledged by its own number if d < wsize or d + wsize >= 2^31, else ignored; in the first case only it is stored, byte for byte, exactly it is added to what counts as stored, and the base is left at the first packet that does not count |
| Laws.ReceiverTakesGoBackN | lab2/src/receiver.c:140-151 | mode 0, for any sequence number: only the expected one is stored, byte for byte, and every packet is answered with the number expected next |
| Laws.SenderIgnores | lab2/src/sender.c:109-130 | nothing but a checked acknowledgement changes the sender's variables, and nothing but a timeout makes it send |
| Laws.SenderTakesSelective | lab2/src/sender.c:131-148 | mode 1, for any number: an acknowledgement of an outstanding packet adds exactly that packet to those counted and leaves the base at the first that is not; any other changes nothing |
| Laws.SenderTakesGoBackN | lab2/src/sender.c:131-148 | mode 0, for any number: an acknowledgement becomes the base if it lies beyond it and not beyond what was sent, else changes nothing |
| Laws.SentIsDue | lab2/src/sender.c:96-130 | the list of all packets sent in a run is, in order, the next window at each fill and at each timeout the outstanding packets not counted as acknowledged, if their numbers do not start again from 0, and nothing else |
| Laws.OnceWithoutTimeout | lab2/src/sender.c:96-130 | a run in which the sender never times out sends packets 0, 1, 2, ... exactly once each, in order |
| Laws.FinishedNumber | lab2/src/sender.c:60 | a sender that has finished says FIN under the number behind its last packet |
| Laws.Sizes | lab2/src/defs.h:4-5 | 1461 bytes to a packet, 2 MiB to a file, the least number of packets, and a largest datagram that fills an Ethernet frame |
| Delivery.GarbledFinStopsEmpty | lab2/src/receiver.c:105-108 | from the start, a timeout or one garbled packet showing the FIN bit makes the receiver stop with nothing stored, while the sender has not finished |
| Drain.RoundDrains | lab2/src/sender.c:111-148 | from every reachable state with the receiver in its loop and wbase < sqn, one timeout with loss-free delivery of what it sends and of the answers brings wbase up to sqn, in both modes |
| Drain.TimeoutSends | lab2/src/sender.c:111-123 | a waiting sender's timeout sends nothing if and only if wbase > sqn as plain numbers; otherwise it sends every outstanding packet not counted as acknowledged |
| Drain.CanFinish | lab2/src/sender.c:96-149 | when no number reaches the end of the ring, every reachable state can be completed in one loss-free round for what is outstanding and one for each batch still to send |
| Loss.FinishableAfterLoss | lab2/src/sender.c:109-125 | after the loss of everything sent so far the transfer can be finished if and only if the sender has finished, or the receiver is still in its loop and no batch is outstanding with wbase > sqn; batches still to be sent do not matter |
| Loss.DeliveredAfterLoss | lab2/src/sender.c:96-149 | however it is finished after any loss, the receiver holds the rebuilt file |
| Loss.CanDeliver | lab2/src/receiver.c:101-155 | while nothing is lost for good the transfer can be finished if and only if the receiver is still in its loop or has every packet |
| Loss.FadedRun | lab2/src/sender.c:96-149 | whatever a transfer does after losing packets it could have done, step for step, without the loss |
| Loss.BatchArrives | lab2/src/sender.c:109-148 | if the data packets outstanding can still arrive, the sender's base comes up to all it has sent, whatever else was lost |
| Drain.CompletableIffNoWrap | lab2/src/sender.c:113 | timeouts can complete the transfer from every reachable state in which the receiver is still there, if and only if start + npacket < 2^31 |
| Drain.CrossingReached | lab2/src/sender.c:113 | every transfer whose numbers reach the end of the ring has a run into a batch with wbase > sqn |
| Drain.StalledForever | lab2/src/sender.c:111-125 | once a timeout sends nothing, no number of further timeouts completes the transfer |
| Drain.CrossingStalls | lab2/src/sender.c:113 | a transfer that starts at 2^31 - 1 is one whose first batch is never sent again |
| Session.ClosedMeansWritten | lab2/src/sender.c:52-81 | in every session, a sender that has finished break_connection implies that the receiver has left its transfer loop holding the rebuilt file, which is the file under the same condition on its length |
| Session.FinishedMeansDelivered | lab2/src/sender.c:183-187 | in every session, a sender past its transfer loop has delivered, whatever made the receiver stop; unless the file is empty the receiver has then begun its transfer |
| Session.VerifiedFinMeansComplete | lab2/src/receiver.c:105-108 | a receiver about to leave its loop on a packet that passed its checks holds the rebuilt file |
| Completion.ClosableAfterLoss | lab2/src/sender.c:183-187 | a session that has lost everything sent so far can still be closed with the file written if and only if its two phases are among those of CanStillClose and, in the transfer, no outstanding batch has wbase > sqn |
| Completion.WrittenAfterLoss | lab2/src/receiver.c:154-155 | however a session is closed after any loss, the receiver has left its loop and written the rebuilt file |
| Completion.SessionCanComplete | lab2/src/sender.c:183-187 | while nothing is lost for good, a session can be closed with the file written if and only if the receiver has not given up and has not left its loop before it had every packet |
| Completion.ConnectableAfterLoss | lab2/src/sender.c:40-47 | a session that has lost everything sent so far can still get both ends into their transfer loops if and only if neither is past its loop or has given up and it is not the case that the sender is sending while the receiver awaits the third handshake |
| Completion.SessionCanConnect | lab2/src/receiver.c:9-54 | while nothing is lost for good, the same without the exception |
| Completion.LeavingIsSafeIff | lab2/src/receiver.c:105-108 | for a reception r that ends the loop: every receiver that ends its loop on r holds the rebuilt file, in every session, if and only if r passed its checks or the rebuilt file is empty |
| Completion.LeftTooEarlyForGood | lab2/src/receiver.c:63-74 | a receiver that has left its loop without every packet never changes again, whatever happens |
| Completion.ReceiverCanEnd | lab2/src/receiver.c:56-88 | while nothing is lost for good, the receiver's program can get through break_connection if and only if it has not given up and has not left its loop before it had every packet |
| Completion.ReceiverEndsAfterLoss | lab2/src/receiver.c:56-88 | after the loss of everything sent so far it can if and only if the session can still be closed or it has already answered a FIN |
| Completion.LiftOne | lab2/src/sender.c:96-149 | fills, timeouts at the sender, data and acknowledgements: what the transfer can do on its own it can do within a session, with the same effect, whatever both have lost |
| Completion.Disconnects | lab2/src/receiver.c:56-88 | a finished transfer can be torn down after any loss, while the receiver is in its loop, awaits a FIN or lingers |
| Session.SessionContainsTransfer | lab2/src/receiver.c:191-195 | the transfer loops within a session are always where a run of the transfer alone could be, and no session step faults |
| Session.HandshakeAgrees | lab2/src/receiver.c:30-51 | after the handshake both ends count from the same number, one beyond the sender's first |
| Scripts.SenderRepeatsSyn | lab2/src/sender.c:15-37 | as long as the second handshake, with the number after its own, does not come, each reception makes the sender repeat its SYN, once |
| Scripts.SenderAnswersOnce | lab2/src/sender.c:27-42 | it answers the second handshake with one third handshake and counts from that number |
| Scripts.SenderConfirmsOnce | lab2/src/sender.c:43-49 | it reads once more, repeats the third handshake if and only if that is a repeated second, and begins its transfer in any case |
| Scripts.SenderSaysFin | lab2/src/sender.c:57-60 | having finished it says FIN once by itself |
| Scripts.SenderRepeatsFin | lab2/src/sender.c:61-78 | each reception but the answer under its own number makes it repeat its FIN, once |
| Scripts.SenderCloses | lab2/src/sender.c:68-74 | the answer ends its program, and nothing is sent any more |
| Scripts.ReceiverListens | lab2/src/receiver.c:17-27 | nothing but a timeout or a checked SYN changes a listening receiver or makes it speak |
| Scripts.ReceiverGivesUp | lab2/src/receiver.c:19-23 | a timeout then ends its program |
| Scripts.ReceiverAnswersSyn | lab2/src/receiver.c:24-33 | any checked SYN is answered once, under the number after its own, and the receiver's variables begin there |
| Scripts.ReceiverRepeatsAnswer | lab2/src/receiver.c:34-51 | each reception but the third handshake under that number makes it repeat its answer, once |
| Scripts.ReceiverConnects | lab2/src/receiver.c:41-48 | the third handshake begins its transfer, and is not answered |
| Scripts.ReceiverLeaves | lab2/src/receiver.c:103-113 | in its program, too, the loop is left on what ReceiverStops says and on nothing else |
| Scripts.ReceiverAwaitsFin | lab2/src/receiver.c:61-74 | waiting for a FIN it says nothing and does not end, not even on timeouts |
| Scripts.ReceiverAnswersFin | lab2/src/receiver.c:70-79 | any checked FIN is answered once, under its own number |
| Scripts.ReceiverEnds | lab2/src/receiver.c:80-88 | it reads once more, answers another FIN, and ends in any case |
| Scripts.GivenUpIff | lab2/src/receiver.c:17-27 | in every session the receiver has given up if and only if it has read a timeout before any SYN, and is listening if and only if it has read neither; it has then sent nothing |
| Scripts.ConnectingIff | lab2/src/sender.c:15-37 | in every session the sender is connecting if and only if it has not read the second handshake; it has then sent nothing but its SYN |
| Session.ControlIsInert | lab2/src/receiver.c:105-113 | handshake and teardown packets change neither loop, except that a FIN ends the receiver's; a FIN that passes the checks exists only once the sender has finished |
| Session.NextKeepsInv | lab2/src/receiver.c:9-88 | every step of a session keeps the session invariant and does not fault |
| Session.ShippedStart | lab2/src/util.c:93-96 | with the shipped first number data starts at 0 and no file reaches the end of the ring |
| Session.PacketsAreReadable | lab2/src/rtp.c:50-86 | every packet of a session is read back as itself by the other end, and with any one byte changed it is rejected |
| Datagrams.HeardWasSent | lab2/src/rtp.c:50-86 | if the datagrams that arrive are sent packets or forms of them damaged within 32 bits outside the checksum field or within it, then what passes the checks was sent; it need not be assumed of the channel |
| Datagrams.DatagramsAreASession | lab2/src/sender.c:183-187 | every run over such datagrams, in both directions, is a session |
| Datagrams.ClosedMeansWritten | lab2/src/sender.c:52-81 | over such datagrams no step faults, and a sender that has finished break_connection has had the rebuilt file written |
| Datagrams.SentCanBeHeard | lab2/src/rtp.c:25-86 | every packet sent to the receiver in a session can arrive as bytes and is then read as itself |
| Datagrams.AnswerCanBeHeard | lab2/src/rtp.c:25-86 | every packet sent to the sender likewise |
| Session.ThirdHandshakeNotRepeated | lab2/src/sender.c:40-47 | from any state in which the sender has begun its transfer, no run adds a packet with the flags of the third handshake to its channel |
| Session.ThirdHandshakeLost | lab2/src/sender.c:40-47 | three events lead from the beginning to a sending sender and a receiver that awaits the third handshake |
| Session.MissedForGood | lab2/src/receiver.c:34-51 | with that packet lost, whatever happens from then on, the receiver stays exactly as it is and the sender's base does not move |
| Session.NextKeepsPaired | lab2/src/receiver.c:9-88 | every step keeps the two phases from drifting apart further than the handshake and the teardown allow |
| Refinement.Square | lab2/src/sender.c:96-149 | an ideal event that can happen can happen in the code, does not fault, and leads to the corresponding state |
| Refinement.Abstracted | lab2/src/receiver.c:103-151 | whatever can happen in the code stands for an ideal event that can happen |
| Refinement.AckDecision | lab2/src/sender.c:131-136 | the interval test on an acknowledgement's ring number is the test base <= index < next, and its ring distance is the index distance |
| Refinement.DataDecision | lab2/src/receiver.c:117-124 | both interval tests on a data packet's ring number are the tests of its index against the windows before and after the base |
| Refinement.WindowAdvances | lab2/src/util.c:117-132 | setting a mark and sliding the window is adding an index to a set and moving to the first index missing |
| Refinement.StoreSquare | lab2/src/receiver.c:124-131 | copying a packet to its offset stays inside the buffer and turns the buffer of a set of packets into that of the set with this packet |
| Refinement.ResendIs | lab2/src/sender.c:113-123 | unless the batch crosses the end of the ring, the wrapped loop sends exactly the pending packets, in order, with their own numbers and bytes |
| Refinement.FreshIs | lab2/src/sender.c:100-107 | a fill sends the next packets by index, at most wsize of them, up to the end of the file |
| Refinement.SelectiveSquare | lab2/src/receiver.c:115-137 | what the receiver does with a data packet in mode 1 is what the ideal receiver does with its index |
| Refinement.GoBackNSquare | lab2/src/receiver.c:140-151 | the same in mode 0 |
| Refinement.RunSquare | lab2/src/sender.c:96-149 | the square for whole runs |
| Protocol.SenderStaysOk | lab2/src/sender.c:109-148 | whatever arrives, valid or not, the sender's outstanding count stays within its window and its file and only outstanding packets are marked |
| Protocol.FillKeepsOk | lab2/src/sender.c:98-108 | a fill keeps that too, and leaves the sender with something to wait for |
| Protocol.ResendInBounds | lab2/src/sender.c:113-122 | each index the resend loop uses is below the outstanding count |
| Ideal.RunKeepsInv | lab2/src/sender.c:96-149 | the joint invariant: acknowledged implies stored implies sent, at most a window outstanding, acknowledgements in flight are true |
| Ideal.FinishedMeansStored | lab2/src/sender.c:96 | a finished sender leaves a receiver that holds every packet |
| Ideal.AckProgress | lab2/src/sender.c:133-148 | an acknowledgement changes the sender if and only if it lowers the number of unacknowledged packets, in mode 1 by exactly one |
| Ideal.BatchBounds | lab2/src/sender.c:98-108 | a batch starts at a multiple of wsize and ends at the next or at the end of the file |
| Ideal.RoundDrains | lab2/src/sender.c:111-148 | one loss-free exchange of the pending packets and the answers to them brings the base up to everything sent |
| SeqNum.AddAdd | lab2/src/util.c:98-101 | moving twice along the ring is moving by the sum, although the sum wraps at 2^32 before it is masked |
| SeqNum.AddDisInverse | lab2/src/util.c:98-106 | seqnum_add and sqn_dis are inverse to each other |
| SeqNum.IsInByDistance | lab2/src/util.c:108-115 | for l != r membership is sqn_dis(l, s) < sqn_dis(l, r); for l == r everything is a member |
| SeqNum.IsInByIndex | lab2/src/util.c:108-115 | on numbers that stand for indices the test is the test on indices, for indices less than a turn beyond the lower end and at most a turn below the upper |
| SeqNum.IsInByIndexIsTight | lab2/src/util.c:108-115 | the next index further out on either side is misread |
| SeqNum.AtOrder | lab2/src/sender.c:113 | two numbers of a batch compare as plain numbers like their indices if and only if the batch does not cross the end of the ring |
| Window.UpdateConservesMarks | lab2/src/util.c:117-132 | shift returned + marks left = marks before + 1 if newly set; the first cell is left unmarked |
| Window.UpdateWindow | lab2/src/util.c:117-132 | the in-place loops return the longest leading run after setting the mark and leave the window moved by it with zero fill, conserving marks |
| Segments.SegmentationRoundTrip | lab2/src/sender.c:88-105 | with all packets in place the bytes up to the largest end are the rebuilt file, which is the file if and only if its length is 0 or not a multiple of PAYLOAD_MAX |
| Segments.EndOfIsLargest | lab2/src/receiver.c:128-131 | the end kept is an upper bound of the ends of all stored packets, and one of them |
| Segments.PlaceOne | lab2/src/receiver.c:124-127 | one copy into the buffer adds one packet to those in place and stays inside it |
| Segments.EndOfOne | lab2/src/receiver.c:128-131 | the update of fsize keeps it the largest end, in whatever order packets come |
| Crc.RoundsDiffer | lab2/src/util.c:6-11 | registers that start out differing in the bits of m differ after j rounds in m >> j, if every bit shifted out was set |
| Crc.TableIsFolded | lab2/src/util.c:6-11 | a table entry is the standard entry of the complemented index, with its top byte complemented |
| Division.ChecksumIsRemainder | lab2/src/util.c:6-37 | for every byte string the bits of the checksum are the complement of the remainder, by long division on sequences of bits, that the polynomial with exponents 32, 26, 23, 22, 16, 12, 11, 10, 8, 7, 5, 4, 2, 1, 0 leaves of the string with 32 zeros behind and its first 32 bits complemented |
| Division.LowBitsDetermine | lab2/src/util.c:32-37 | those bits determine the checksum |
| Division.PolyIsDivisor | lab2/src/util.c:9 | the constant 0xEDB88320 holds the coefficients of that polynomial, highest first |
| Division.DivideXor | lab2/src/util.c:6-11 | the division is linear |
| Crc.ChecksumIsStandard | lab2/src/util.c:13-37 | for every byte string the checksum is the CRC-32 of section 8 of RFC 1952 with its two inversions, although neither is carried out; Division.ChecksumIsRemainder says what that is |
| Crc.Crc32ForByte | lab2/src/util.c:6-11 | the eight-round loop computes the folded table entry |
| Crc.Table.ComputeChecksum | lab2/src/util.c:13-37 | the lazily filled table and the byte loop return the standard CRC-32 |
| Crc.RunInjective | lab2/src/util.c:19-20 | absorbing the same bytes keeps different registers different |
| Crc.BurstDetected | lab2/src/util.c:13-37 | byte strings that differ only within a stretch of up to 4 bytes have different checksums |
| Crc.WindowDetected | lab2/src/util.c:13-37 | the same for strings compared position by position |
| Crc.BitWindowDetected | lab2/src/util.c:13-37 | different byte strings of equal length whose bits agree outside 32 consecutive positions, beginning anywhere, have different checksums |
| Crc.RunIsBitRun | lab2/src/util.c:13-21 | taking in bytes through the table is taking in their bits one by one, lowest first |
| Wire.PacketRoundTrip | lab2/src/rtp.c:25-86 | the bytes sent for any packet are accepted, whatever the receive buffer held, and yield the same number, flags, length and payload |
| Wire.AcceptsExactly | lab2/src/rtp.c:70-86 | a datagram is accepted as packet p if and only if it is the encoding of p, or begins with it and is cut off at the size of the buffer, whatever the buffer held before |
| Wire.GarbledShows | lab2/src/rtp.c:50-83 | after a rejected datagram the caller sees the flags at their place in the buffer: the datagram's if it is long enough, else what lay there before |
| Wire.Layout | lab2/src/rtp.h:28-40 | where number, length, checksum, flags and payload lie, byte by byte, least significant byte first, and which bytes the checksum covers |
| Wire.OneByteDetected | lab2/src/rtp.c:70-83 | a sent packet with any single byte changed, anywhere, is rejected |
| Wire.BitBurstDamageDetected | lab2/src/rtp.c:70-83 | damage within 32 consecutive bits, beginning anywhere, that leaves the checksum field alone is rejected |
| Wire.OnlySentIsVerified | lab2/src/rtp.c:50-86 | of a sent packet and its forms damaged in these ways or in the checksum field, recv_packet accepts the packet itself and nothing else |
| Wire.BurstDamageDetected | lab2/src/rtp.c:70-83 | damage within 4 consecutive bytes that leaves the checksum field alone is rejected |
| Wire.FieldDamageDetected | lab2/src/rtp.c:70-76 | any damage to the checksum field alone is rejected |
| Wire.SendPacket | lab2/src/rtp.c:25-48 | filling in the fields and patching the checksum yields the encoding that the round trip is about |
| Wire.RecvPacket | lab2/src/rtp.c:50-86 | the code returned and the buffer left, for timeouts, rejected and accepted datagrams alike; AcceptsExactly says which are accepted |
| Endpoints.SenderProgram.FillBatch | lab2/src/sender.c:98-108 | the batch loop sends the batch and moves sqn as the step says |
| Endpoints.SenderProgram.ResendPending | lab2/src/sender.c:111-124 | the loop after a timeout sends what the step says and changes nothing else |
| Endpoints.SenderProgram.TakePacket | lab2/src/sender.c:109-148 | with whatever recv_packet returned, the variables and the window array end as the step says, and so do the packets sent |
| Endpoints.SenderProgram.EstablishConnection | lab2/src/sender.c:9-50 | leaves what the program will have done in the end as it was after the first SYN; stops early only where its input ends |
| Endpoints.SenderProgram.TransferData | lab2/src/sender.c:83-152 | leaves what the program will have done in the end as it was; done means shift has reached npacket |
| Endpoints.SenderProgram.BreakConnection | lab2/src/sender.c:52-81 | the same for the teardown; done means its FIN was answered |
| Endpoints.SenderProgram.Session | lab2/src/sender.c:183-187 | the three calls end where the sender's steps end and have sent what they send |
| Endpoints.SenderProjects | lab2/src/sender.c:9-152 | in every session the program that reads what the sender read does what the sender did, has sent exactly what it sent, and can only go on by itself from where the sender is |
| Endpoints.ReceiverProjects | lab2/src/receiver.c:9-155 | the same for the receiver, whose program therefore never faults on what it reads in a session |
| Endpoints.RunBoth | lab2/src/sender.c:183-187 | both programs run on what they read in any session: the receiver's ends exactly as the session's does and never leaves its arrays; if the sender's gets through break_connection, the receiver's array holds the rebuilt file, which is the file under the condition on its length |
| Endpoints.SenderLifeHappens | lab2/src/sender.c:9-152 | from any state of a session on, what the sender's program does with packets sent to it by then and with timeouts and garbled packets is a run of the session |
| Endpoints.ReceiverProgram.StoreSelective | lab2/src/receiver.c:124-134 | copy, end, window and base end as the step says, in place, within the arrays |
| Endpoints.ReceiverProgram.TakeSelective | lab2/src/receiver.c:115-137 | all three branches of mode 1, with the acknowledgement sent or not |
| Endpoints.ReceiverProgram.TakeGoBackN | lab2/src/receiver.c:140-151 | both branches of mode 0 |
| Endpoints.ReceiverProgram.EstablishConnection | lab2/src/receiver.c:9-54 | leaves what the program will have done in the end as it was; gives up only on a timeout before the first SYN |
| Endpoints.ReceiverProgram.TakePacket | lab2/src/receiver.c:109-151 | with whatever recv_packet returned that does not end the loop, variables, window, buffer and packets sent end as the step says |
| Endpoints.ReceiverProgram.TransferData | lab2/src/receiver.c:90-155 | leaves what the program will have done in the end as it was; done means the loop was left. Valid asks that the steps on the inbox do not fault, which ReceiverProjects shows of every session |
| Endpoints.ReceiverProgram.BreakConnection | lab2/src/receiver.c:56-88 | the same for the teardown, with its one further look for a repeated FIN |
| Endpoints.ReceiverProgram.Session | lab2/src/receiver.c:191-195 | the three calls end where the receiver's steps end and have sent what they send |
| Endpoints.ReceiverLifeHappens | lab2/src/receiver.c:9-155 | from any state of a session on, what the receiver's program does with packets sent to it by then and with timeouts and garbled packets is a run of the session, and does not fault |
| Framing.Exchange | lab1/ftp_utils.hpp:114-150 | whatever non-empty pieces the stream moves in, sending a list of posts and reading as many returns the same list, with no bytes left over |
| Framing.FramesUnambiguous | lab1/ftp_utils.hpp:20-37 | a byte stream is the frames of at most one list of posts |
| Framing.FrameUnambiguous | lab1/ftp_utils.hpp:129-150 | a post followed by anything can be read off a stream in one way only |
| Framing.HeaderRoundTrip | lab1/ftp_utils.hpp:27-35 | the length in network byte order, type and status are read back from a header |
| Framing.HeaderLayout | lab1/ftp_utils.hpp:20-37 | the twelve bytes of a header: the mark, type, status, and the frame's length most significant byte first; the body follows |
| Bytes.BigDigit | lab1/ftp_utils.hpp:34 | in network byte order the i-th of w bytes is the digit to base 256 with w - 1 - i below it |
| Framing.Connection.SendAll | lab1/ftp_utils.hpp:66-83 | ssend puts exactly the bytes on the stream that its calls move, and returns the size or -1 |
| Framing.Connection.RecvAll | lab1/ftp_utils.hpp:85-102 | srecv takes exactly the bytes off the front of the stream that its calls move before one fails or nothing is left, and returns the size if that is all of them and else -1 |
| Framing.Connection.SendPost | lab1/ftp_utils.hpp:114-127 | send_post adds a prefix of one frame to the stream, the whole of it if it returns the size, and otherwise returns -1; it returns the size if no call fails |
| Framing.WantedIsAnnounced | lab1/ftp_utils.hpp:139-144 | recv_post asks srecv for the announced length if and only if that is between 0 and 2^31 - 1, and otherwise for more than 2^64 - 2^32 bytes |
| Framing.EmptyHeaderWants | lab1/ftp_utils.hpp:139-144 | a header with length 0 asks for 2^64 - 12 bytes |
| Framing.Connection.RecvPost | lab1/ftp_utils.hpp:129-150 | recv_post returns the post that comes next and leaves the rest of the stream; a length returned is always the one asked for; type and status are those of any header that has come; if the header asks for more than is there, it uses up the stream and fails |

## Left out

- Sockets, `errno`, `setsockopt` and real time: a timeout is an event that may happen at any read. No claim is made about time or about how many retries there are; in the default build `++tries` is not even executed (`lab2/src/sender.c:35`), so there is no retry limit to state. The debug build and its limit are not modelled.
- Reading and writing files (`lab2/src/util.c:39-91`): the file is a byte sequence; `read_file` cuts a longer file to 2^21 bytes first, and the statements are then about what is left.
- Logging, `main`'s arguments, a window size below 1, and modes other than 0 and 1.
- Ends that disagree about window size or mode.
- Delivery.Delivered: takes a packet that passes the checks to be one that was sent. `Datagrams.HeardWasSent` shows this of datagrams with damage that is always detected; damage that the checksum happens not to detect is outside the model.
- Wire.BitBurstDamageDetected: does not speak of damage that touches the checksum field and other bytes at once, nor of damage that changes the length of a datagram.
- Wire.RecvPacket: the datagram and whether the read timed out are parameters; the address of the peer is not modelled.
- Drain.CanFinish: one direction; `Drain.CompletableIffNoWrap` is the other.
- Concurrency inside a fill: the packets of one batch are sent in one step of `Protocol`; since any of them may arrive at any later time, a receiver that reads between two sends is a run too. `Endpoints.SenderProgram.FillBatch` sends them one by one.
- Endpoints.SenderProgram.TransferData: what `recv_packet` will return is given beforehand as a list, and the program stops where the list ends; it stands for any prefix of an execution.
- Byte order: `lab2/src/rtp.h` sends its header as it lies in memory; the model is of a machine that stores the least significant byte first.
- Cells of the windows are `int`s that hold 0 or 1 in the source and booleans here.
- Framing.Connection.RecvPost: the buffer for the body is taken to be as large as what is read into it; that the source's buffer overflows when a header asks for too much is not modelled.
- Completion.ClosableAfterLoss: is about one loss of everything sent so far; losses that keep happening are covered in so far as it applies to every state a session reaches.
- Endpoints.SenderLifeHappens: the other end stands still meanwhile; `Endpoints.SenderProjects` has no such limit.
- Endpoints.ReceiverLifeHappens: the same; `Endpoints.ReceiverProjects` has no such limit.
- Framing.Exchange: sends all posts before it reads; pieces of any size on either side stand for the interleavings.
- The FTP client and server of `lab1`, the simulator configuration of `lab4`, `lab0`, and all test drivers and scripts: not modelled.
