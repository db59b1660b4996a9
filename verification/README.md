# Model of the NetCoreServer transport

NetCoreServer sends its packets over ENet, a reliable protocol on top of UDP, encodes them with
MessagePack, frames them with a small packed header and names things by UUID. This project states
what these parts do in Dafny and proves what they are for. `dafny verify dfyconfig.toml` checks all
of it.

Code that changes state in place is modelled in place: peers, channels, hosts, lists, parsers,
buffers, packers and the hasher are classes whose methods have the loops and branches of the C and
C++ code. Each such method is proved against a function or predicate on values, and the theorems are
about those.

## The main results

- **Reliable delivery** (`DeliveryProof.ReliableDelivery`). One channel, reliable packets of any
  size, a network that loses, duplicates, delays and reorders. At every moment of every run, what the
  receiver has handed over is byte for byte the first packets sent. Sequence numbers are 16 bits wide;
  every command carries an unbounded index as history, which no operation reads, and the proof relates
  the two. The network may not deliver data whose packet starts more than nine windows of 4096 numbers
  behind the receiver, because ten windows behind an old number is taken for a new one
  (`SeqNumbers.BehindIsRefused`, an equivalence), nor acknowledgements more than fifteen windows behind
  the sender's newest number. The receiver takes a part exactly when there is room for its packet
  (`ReceiverInvariants.OnReliableOk`, `OnFragmentOk`), and from every state the next packet is handed
  over once all its parts have arrived (`DeliveryProof.NextIsHandedOver`).
- **Sender accounting and packet ownership** (`SenderRuns.RunsAreGood`, `RunThenReset`). In every run
  of one peer's sending side, with any number of channels and any mix of reliable, unreliable,
  unsequenced and fragmented packets, the window counters, used-window bits, data in transit and the
  order of the queue are right, reference counts are the numbers of holding commands, and every packet is destroyed
  exactly once. An acknowledgement for an outstanding command is always found
  (`SenderInvariants.AckFindsOutstanding`). The accounting ends exactly where the 16-bit attempt count
  of a command wraps (`SenderRuns.AttemptAccountingExactly`), and where the throttle drops a reliable
  command with the unsequenced one before it (`ThrottleDrops.DropLosesExactly`).
- **What goes out, and when** (`SenderProgress`, `ThrottleShare`, `Timeouts`, `SendMeaning`). A reliable
  command waits exactly for a window or for data in transit, and a pass leaves nothing else behind
  unless the datagram is full (`SenderProgress.GateMeans`, `PassLeaves`). Of 32 packets in a row the
  throttle lets exactly t + 1 through (`ThrottleShare.ThrottledShare`). The time-out check is due exactly
  when the oldest command is overdue (`TimerRuns.DueWhenOverdue`); it sends exactly the overdue commands
  again, and gives the peer up exactly when the oldest time is too long ago
  (`Timeouts.CheckTimeoutsMeans`, `GivenUpByAge`).
- **Datagrams** (`DatagramRuns.ReachableIsWalkedThrough`). Whatever a peer in any reachable state puts
  in a datagram stays within 32 commands and the mtu, and the receiver's walk finds exactly that, in
  order, and each handler reads what was meant (`DatagramReading.ItemIsRead`); and the copies on the network of the delivery theorem are what the walk reads from the bytes
  (`WireDelivery.FlushedBytesAreCopies`).
- **MessagePack** (`MsgPackDecode.RoundTrip`, `EncodeIsShortest`, `MsgPackMachine.RunResumes`,
  `MsgPackUnpackV1.ParsersAgree`, `MsgPackStream.StreamParser.Next`). One recursive reading of the
  format is the reference, and `MsgPackMeaning` says for every header byte and every width of its
  number what it reads. Packing is undone by it and never longer than any other spelling; the
  bottom-up parser of v1 and the visitor parsers of v2 and v3, which build objects top-down in memory,
  all end as it does on every input, and their visitors are called in the order of the object
  (`MsgPackCalls.VisitedInOrder`); and the streaming parser yields the same objects however the
  stream is cut, while bytes that objects still point to are neither overwritten, moved nor freed, and
  a buffer is freed once the parser and the last object have let go of it.
- **End to end** (`PacketFraming.FramedDelivery`). What `parsePacket` finds in the i-th packet taken is
  the i-th header and object sent.
- **The peer state machine** (`PeerStates.Host`). In every reachable state the counters count the
  peers they stand for, a peer is in the dispatch queue exactly once or not at all as its flag says,
  and every peer with news for the application is in it; so `DispatchIncoming` returns no event exactly
  when there is no news. Packets of a peer in DISCONNECT_LATER are no news: they are never told of
  (`PeerStates.UntoldPackets`).
- **The bandwidth pass** (`Bandwidth.Host.Throttle`). No subtraction or product wraps, both fix-point
  loops end, and what they end in is exact: every limit is the largest that fits what it is for. A limit lets no more than a peer's share through unless
  every limit above zero lets more through, as the code never holds a peer to zero. The incoming limits
  are fair, and for all amounts sent they sum to at most the bandwidth exactly if no connected peer
  carries the mark of the present time beforehand (`BandwidthMarks.LimitsFitExactly`). A peer that
  comes with the outgoing mark is passed over and keeps its throttle. Over whole runs the throttles
  stay within their limits (`ThrottleRuns.RunsStayLimited`).
- **The rest of the host**: the intrusive lists; unsequenced groups, taken exactly once if there is
  room; acknowledgement timing and the throttle that follows it.
- **SHA-1 and UUID text** (`Sha1.Hasher.GetDigest`, `UuidText.FromString`): the hasher fed in pieces
  computes the digest of sections 4 to 6.1 of RFC 3174, and the printer and parser of section 3 of
  RFC 4122 undo each other.

Where the code does less than it might seem to, the exact condition is proved: see
`AckTiming.SentTimeIsExact`, `Unsequenced.StaleIsRefused`, `PacketFraming.ParseUndoesFraming` (payloads
of 2^32 bytes and more lose their length), `Sha1.LengthField` (the length field has 32 bits where the
standard has 64), `MsgPackCopying.CopyingParsersAgree` (an extension of 2^32 bytes that is copied),
`BandwidthMarks.LimitsFitExactly` (peers that carry the mark of the present time by chance are told more
than the bandwidth), `Bandwidth.HeldWithinShare` (the floor of a held peer's limit),
`ThrottleDrops.DropLosesExactly` (a reliable packet dropped with an unsequenced one) and
`SenderRuns.AttemptAccountingExactly`.

## Files

| file | contents |
|---|---|
| `SeqNumbers`, `WindowBits`, `PacketNumbers` | 16-bit numbers and windows, the opening mask, fragments and their numbers |
| `EnetSender`, `SenderInvariants`, `SenderPackets`, `PacketOwnership`, `SenderRuns` | the sending side on values, what it keeps, runs |
| `SenderProgress`, `ThrottleShare`, `ThrottleDrops`, `SendMeaning`, `Timeouts`, `TimerRuns` | when commands go out and wait, what the throttle lets through and drops, what a send queues, time-outs |
| `EnetReceiver`, `ReceiverInvariants`, `WaitingData` | the receiving side on values and what it keeps |
| `OutgoingPeer`, `IncomingChannel` | both sides in place |
| `EnetDelivery`, `DeliveryProof`, `WireDelivery` | sender, receiver and network as one system, the delivery theorem, and its network in bytes |
| `DatagramCodec`, `DatagramAssembly`, `DatagramReading`, `DatagramRuns` | the wire form of commands, the receiver's walk, the assembly of a datagram, what handlers read, datagrams of any run |
| `PeerStates`, `Bandwidth`, `BandwidthMarks`, `AckTiming`, `ThrottleRuns`, `Unsequenced`, `LinkedLists` | the rest of ENet |
| `MsgPackFormat`, `MsgPackLexer`, `MsgPackDecode`, `MsgPackMeaning` | objects and their bytes; tokens; the recursive reading; what each header byte means |
| `MsgPackMachine`, `MsgPackUnpackers`, `MsgPackVisitor`, `MsgPackCalls` | parsers as machines over tokens, the three stacks, construction in memory, the order of the visitor's calls |
| `MsgPackParser`, `MsgPackUnpackV1`, `MsgPackStream`, `MsgPackPacker` | the parsers, the streaming buffer and the packer in place |
| `MsgPackCopying` | the parsers when bodies are copied |
| `PacketFraming`, `Sha1`, `UuidText`, `Arithmetic`, `Bytes`, `Options` | framing and the end-to-end theorem, hashing, UUIDs, helpers |

## Model

| member | source | states |
|---|---|---|
| `SeqNumbers.ForwardWindowAhead` | ENet/include/enet/enet.h:3643-3653 | For a command less than a full turn ahead of the receiver, the window difference computed from the 16-bit numbers is the difference of the unbounded windows; it is accepted iff less than seven windows ahead, and left unacknowledged iff exactly seven or eight windows ahead |
| `SeqNumbers.BehindIsRefused` | ENet/include/enet/enet.h:3643-3653 | A number behind the receiver is refused by the window check iff it is at most nine windows behind; ten behind it is taken for a new one. This is where the network assumption of the delivery theorem comes from |
| `WindowBits.MaskMeaning` | ENet/include/enet/enet.h:2697-2698 | The shifted 10-bit mask that usedReliableWindows is compared with is exactly the window to be opened and the nine after it, modulo 16 |
| `SenderInvariants.SetupKeepsInv` | ENet/include/enet/enet.h:3460-3507 | Giving a command its numbers keeps the sender invariant: counters, bits, order, uniqueness, data in transit |
| `SenderInvariants.FirstFreshIsNext` | ENet/include/enet/enet.h:2689-2741 | The first never-attempted command of a channel that the scan may send carries the number right after the newest attempted one, so first attempts happen in number order |
| `SenderInvariants.AttemptKeepsInv` | ENet/include/enet/enet.h:2735-2756 | A first or repeated attempt keeps the invariant: the window counter and bit, the move to the sent list, the data in transit |
| `SenderInvariants.OutstandingStaysNear` | ENet/include/enet/enet.h:2696-2704 | The mask test lets a window open only when every unacknowledged command is at most six windows behind it |
| `SenderInvariants.PutBackKeepsInv` | ENet/include/enet/enet.h:2660-2672 | Moving a timed-out command back to the front of the outgoing queue keeps the invariant, in particular that attempted commands precede all others |
| `SenderInvariants.CheckTimeoutsKeepsInv` | ENet/include/enet/enet.h:2638-2676 | The whole time-out pass keeps the invariant, loses no unacknowledged number, adds none and leaves the window counters alone |
| `SenderInvariants.CheckOutgoingKeepsInv` | ENet/include/enet/enet.h:2678-2823 | A whole pass over the queue keeps the invariant, at most 32 commands and at most mtu bytes, whatever is held back, sent, dropped or does not fit |
| `SenderProgress.GateMeans` | ENet/include/enet/enet.h:2692-2722 | A reliable command waits iff it, or one before it in the pass, is the first of a window while the window before is wholly unacknowledged or anything is unacknowledged in the ten windows from its own on, or would bring the data in transit above both the mtu and the throttle's part of the window |
| `SenderProgress.FitsMeans` | ENet/include/enet/enet.h:2724-2730 | A command goes into the datagram iff there are fewer than 32 commands, two buffers of 65 are free, and it fits the mtu with its data: the 16-bit comparison loses nothing |
| `SenderProgress.CountedIn` | ENet/include/enet/enet.h:2797-2815 | What goes in is counted in commands, buffers and bytes, and a reliable command asks for the sent time |
| `SenderProgress.AttemptRecords` | ENet/include/enet/enet.h:2735-2757 | A reliable command that goes out joins the sent list with the time, one attempt more and the round trip time plus four variances as its first time-out |
| `SenderProgress.PassLeaves` | ENet/include/enet/enet.h:2690-2730 | A pass ends at the end of the queue or before a command that does not fit; whatever else it leaves is reliable and waits for a window or for data in transit |
| `SenderProgress.FlagsAreRaised` | ENet/include/enet/enet.h:2692-2722 | And then some state on the way held a command back by the outstanding numbers or the data in transit of that moment |
| `ThrottleShare.EmitMeans` | ENet/include/enet/enet.h:2758-2763 | An unreliable command is counted if it starts a packet that is not unthrottled; a counted one goes out iff the counter, advanced by 7 modulo 32, is at most the throttle, and all others do |
| `ThrottleShare.ThrottledShare` | ENet/include/enet/enet.h:2758-2763 | Of any 32 counted packets in a row exactly t + 1 go out at throttle t, and all at 31 and 32 |
| `SenderInvariants.ScanEffect` | ENet/include/enet/enet.h:2678-2823 | A pass loses no unacknowledged number and adds none; what it puts on the wire carries numbers already counted as attempted |
| `SenderInvariants.AckKeepsInv` | ENet/include/enet/enet.h:1667-1739 | Removing an acknowledged command keeps the invariant: reliableWindows[w] counts the attempted unacknowledged commands of window w, bit w is set iff that count is positive, reliableDataInTransit is the sum over the sent list |
| `SenderInvariants.AckFindsOutstanding` | ENet/include/enet/enet.h:1667-1711 | An acknowledgement of an attempted unacknowledged number is always found, in one list or the other, and takes out that number and no other |
| `SenderInvariants.AckIgnored` | ENet/include/enet/enet.h:1667-1699 | An acknowledgement whose number no attempted unacknowledged command carries changes nothing |
| `SenderInvariants.FullWindow` | ENet/include/enet/enet.h:2696-2704 | If a whole window is unacknowledged its counter has reached 4096, the value the sender tests before it opens the next window |
| `SenderInvariants.CountersFit` | ENet/include/enet/enet.h:2736-2739 | No window counter ever exceeds 4096, so the 16-bit counters of the code do not wrap |
| `SenderInvariants.ScanHeldBack` | ENet/include/enet/enet.h:2689-2704 | While the window at the receiver stays unacknowledged, no pass sends a number more than eight windows ahead of it |
| `SenderRuns.SendKeepsInv` | ENet/include/enet/enet.h:3081-3177 | enet_peer_send, whole or in fragments, reliable or not, keeps the invariant |
| `SenderRuns.RunsAreGood` | ENet/include/enet/enet.h:1667-1739 | In every state of every run of sends of any kind, control commands, datagrams, time-outs, acknowledgements and retimings: the accounting invariant holds and every packet's reference count is the number of commands holding it; datagrams are filled while no reliable command stands where the throttle could take it for an unsequenced one |
| `SenderRuns.RunThenReset` | ENet/include/enet/enet.h:3204-3280 | Whenever a run ends, resetting the queues has destroyed every packet ever sent, exactly once |
| `SenderRuns.EveryCommandFits` | ENet/include/enet/enet.h:2725-2731 | Every queued command fits a datagram that holds only its header |
| `SenderRuns.AttemptAccountingExactly` | ENet/include/enet/enet.h:2736-2741 | An attempt keeps the window counters right iff the 16-bit attempt count of the command does not wrap at it (65535 attempts before) |
| `SenderRuns.AttemptWraps` | ENet/include/enet/enet.h:2736-2741 | At the wrap the attempt count is back at zero and no counter moves, so the counter of the window stands one above the attempted commands; the attempt after that takes the command for a new one and counts it a second time |
| `SenderInvariants.CaughtAtZero` | ENet/include/enet/enet.h:3466-3480 | A reliable command has the numbers of the unreliable one before it in the queue iff that one is unsequenced and its own number is 0 |
| `ThrottleDrops.DropTakesGroup` | ENet/include/enet/enet.h:2762-2785 | The throttle's inner loop drops exactly the commands at the front with the first one's pair of numbers |
| `ThrottleDrops.DropLosesExactly` | ENet/include/enet/enet.h:2762-2785 | Dropping an unreliable command loses no reliable one iff none stands directly behind an unreliable one of its group with the same numbers |
| `ThrottleDrops.CaughtIsLost` | ENet/include/enet/enet.h:2762-2785 | A reliable command that is caught has number 0, stands behind an unsequenced one, and is lost: its number was given out and nothing waits for it any more |
| `ThrottleDrops.ReliableDropped` | ENet/include/enet/enet.h:2762-2785 | An input: with the throttle at zero, an unsequenced packet and then the 65536th reliable packet of a channel; the next pass neither sends nor keeps the reliable one |
| `OutgoingPeers.OutgoingPeer.Setup` | ENet/include/enet/enet.h:3460-3507 | In place, the peer ends as Setup says |
| `OutgoingPeers.OutgoingPeer.Send` | ENet/include/enet/enet.h:3081-3177 | In place with its two loops, for reliable, unreliable and unsequenced packets: the peer ends as Send says, is unchanged when the call fails, as it does for a peer that is not CONNECTED, and the host is to be flushed iff the packet went whole and asks for it |
| `OutgoingPeers.OutgoingPeer.CutFragments` | ENet/include/enet/enet.h:3095-3144 | The cutting loop yields exactly the commands of Cut |
| `OutgoingPeers.OutgoingPeer.CheckOutgoing` | ENet/include/enet/enet.h:2678-2823 | In place, queue, sent lists, windows, throttle counter, packets, datagram and ping flag end as the specification of the pass says; and whether a peer in DISCONNECT_LATER is now to be disconnected |
| `OutgoingPeers.OutgoingPeer.CheckTimeouts` | ENet/include/enet/enet.h:2638-2676 | In place: what stays in the sent list is exactly the commands whose age is below their time-out, the others stand in order and with a new time-out in front of the queue; and the peer is given up exactly when some overdue command finds the oldest time too long ago |
| `Timeouts.CheckTimeoutsMeans` | ENet/include/enet/enet.h:2638-2676 | The same of the pass on values: both outcomes from the ages of the commands alone, with the data in transit, the oldest time and the next time-out after it |
| `Timeouts.GivenUpByAge` | ENet/include/enet/enet.h:2652-2659 | When all times are less than a day old: given up iff, when some overdue command is reached, some time found by then is at least the maximum ago, or at least the minimum while the command's time-out is at its limit |
| `Timeouts.OldestIsOldest` | ENet/include/enet/enet.h:2652-2653 | Among times less than a day old, the one the loop keeps is one of them and none is longer ago |
| `Timeouts.ClockIsTrue` | ENet/include/enet/enet.h:41-46 | Less than a day apart, the wrapping 32-bit clock orders times and measures their difference truly |
| `TimerRuns.RunsKeepTimer` | ENet/include/enet/enet.h:2748-2749 | In every state of every run the next time-out is the deadline of the oldest entry of the sent list, through sends, time-outs and acknowledgements |
| `TimerRuns.DueWhenOverdue` | ENet/include/enet/enet.h:2848 | So the time-out check is due iff that entry is overdue |
| `OutgoingPeers.OutgoingPeer.RemoveSentReliable` | ENet/include/enet/enet.h:1667-1739 | In place, both searches, unlinking and accounts end as RemoveSentReliable says, with the kind of the command found |
| `OutgoingPeers.OutgoingPeer.FindInSent` | ENet/include/enet/enet.h:1674-1679 | The walk finds the first matching command of the sent list, and none iff there is none |
| `OutgoingPeers.OutgoingPeer.FindInOutgoing` | ENet/include/enet/enet.h:1681-1696 | The walk stops at the first command never attempted |
| `OutgoingPeers.OutgoingPeer.RemoveSentUnreliable` | ENet/include/enet/enet.h:1637-1665 | In place, sent unreliable commands release their packets and the list is empty; and whether a peer in DISCONNECT_LATER is now to be disconnected |
| `OutgoingPeers.OutgoingPeer.ResetQueues` | ENet/include/enet/enet.h:3204-3280 | In place, all three outgoing lists are released and empty |
| `PacketOwnership.SendOwned` | ENet/include/enet/enet.h:3095-3177 | After enet_peer_send the packet has one reference for each command queued for it |
| `PacketOwnership.ScanOwned` | ENet/include/enet/enet.h:2735-2809 | A pass over the queue, throttle drops included, keeps reference counts equal to the number of holding commands, destroying a packet exactly when that number reaches zero |
| `PacketOwnership.TimeoutsOwned` | ENet/include/enet/enet.h:2638-2676 | Time-outs keep the counts |
| `PacketOwnership.AckOwned` | ENet/include/enet/enet.h:1713-1728 | Acknowledgements keep the counts, and destroy a packet with its last command |
| `PacketOwnership.SentUnreliableOwned` | ENet/include/enet/enet.h:1637-1665 | Releasing the sent unreliable commands keeps the counts |
| `PacketOwnership.ResetDestroysAll` | ENet/include/enet/enet.h:3204-3280 | After a reset every packet that was ever queued is destroyed, no packet twice |
| `PacketNumbers.NumberInjective` | ENet/include/enet/enet.h:3105-3152 | No two parts of the packets of a stream share a number |
| `PacketNumbers.Locate` | ENet/include/enet/enet.h:3105-3152 | Every number up to the end of the n-th packet belongs to a part of one of the first n packets |
| `PacketNumbers.CountBounds` | ENet/include/enet/enet.h:3096 | The fragment count is the ceiling of length / fragmentLength |
| `PacketNumbers.PieceOf` | ENet/include/enet/enet.h:3115-3144 | Every byte of a packet lies in exactly one fragment |
| `SenderPackets.CutIsPieces` | ENet/include/enet/enet.h:3115-3144 | The fragments enet_peer_send cuts are the pieces of the packet, in order, each with its place, offset and length |
| `SenderPackets.SetupAllOk` | ENet/include/enet/enet.h:3146-3152 | The fragments of a packet get consecutive numbers and go to the end of the queue, keeping the invariant |
| `SendMeaning.SendQueues` | ENet/include/enet/enet.h:3081-3175 | For every flag and size, what enet_peer_send puts at the end of the queue: slices, numbers, fragment fields and the first byte on the wire, 0x07 for flags 0, 0x49 unsequenced, 0x86 reliable, 0x88 and 0x0c for fragments; unreliable fragments share one pair of numbers |
| `SendMeaning.SendRefuses` | ENet/include/enet/enet.h:3087-3105 | Refused iff the channel does not exist, the packet is too large, or it would take more than 2^20 fragments |
| `IncomingChannels.IncomingChannel.Find` | ENet/include/enet/enet.h:3661-3677 | The backward walk ends where Search says: at the place the number belongs, or on the entry that has it |
| `IncomingChannels.IncomingChannel.Dispatch` | ENet/include/enet/enet.h:3598-3628 | In place, all complete consecutive packets at the front move to the dispatched list and the current number moves with them |
| `IncomingChannels.IncomingChannel.Enqueue` | ENet/include/enet/enet.h:3630-3798 | In place for a reliable command: the discard in DISCONNECT_LATER, window check, duplicate search, waiting-data limit, insertion, dispatch; `ReceiverInvariants.OnReliableOk` says exactly when it takes a packet |
| `IncomingChannels.IncomingChannel.OnReliable` | ENet/include/enet/enet.h:1870-1886 | In place: channel number and peer state, the size limit of a host, what becomes of the packet |
| `IncomingChannels.IncomingChannel.OnFragment` | ENet/include/enet/enet.h:1946-2027 | In place: channel number and peer state, window check, header checks, first fragment or later, bitmap, copy, dispatch when complete |
| `IncomingChannels.IncomingChannel.Receive` | ENet/include/enet/enet.h:3179-3202 | The oldest dispatched packet is handed out, and the waiting data falls by exactly its length |
| `EnetReceiver.LeavingTakesNothing` | ENet/include/enet/enet.h:3639-3641 | A peer that is to be disconnected later takes no new packet, but completes those it has begun; a whole packet that it drops counts as handled all the same, and is acknowledged |
| `WaitingData.EnqueueHolds` | ENet/include/enet/enet.h:3726-3763 | Queueing a packet adds to the waiting data exactly what it adds to the packets held, whatever becomes of it |
| `WaitingData.OnFragmentHolds` | ENet/include/enet/enet.h:1946-2027 | The same for a fragment: only the first one of a packet adds, by the length of the whole |
| `WaitingData.WaitingIsHolding` | ENet/include/enet/enet.h:3179-3202 | In every run of a connection totalWaitingData is the sum of the lengths of all packets queued or dispatched |
| `WaitingData.TakenIsCovered` | ENet/include/enet/enet.h:3199 | So in every run the unsigned subtraction of a taken packet never goes below zero |
| `ReceiverInvariants.SearchFinds` | ENet/include/enet/enet.h:3661-3677 | Despite wrapping comparisons the search finds a packet iff it is queued and otherwise its place in order of distance |
| `ReceiverInvariants.ReadyIsNext` | ENet/include/enet/enet.h:3598-3628 | The dispatch loop takes exactly the complete packets that are next in line, also across the wrap and behind fragmented packets |
| `ReceiverInvariants.StoreHolds` | ENet/include/enet/enet.h:2013-2024 | Storing a genuine fragment, first time or again, adds its piece, disturbs no other, and fragmentsRemaining stays the number of clear bits |
| `EnetReceiver.OnlySaneFragments` | ENet/include/enet/enet.h:1964-2012 | Whatever the fields of a fragment in reach: taken only if it is one of its packet's fragments and lies within it, the packet is not too large, and a queued entry has the same count and length; a sane one for a new packet is taken iff data may still wait; all others change nothing |
| `ReceiverInvariants.CompleteIsOriginal` | ENet/include/enet/enet.h:2013-2024 | When no fragment remains the rebuilt bytes are the original ones |
| `ReceiverInvariants.OldIsRefused` | ENet/include/enet/enet.h:3643-3659 | A packet dispatched before and at most nine windows behind is refused, by the window check or as the current number |
| `ReceiverInvariants.NewIsClassified` | ENet/include/enet/enet.h:3431-3444 | A packet still to come is accepted iff it starts less than seven windows ahead, and if it is not accepted none of its parts in reach is acknowledged |
| `ReceiverInvariants.OnReliableOk` | ENet/include/enet/enet.h:1870-1886 | Whatever whole packet in reach arrives, however often: nothing that had arrived is lost, packets come out in order, and an acknowledged arrival has arrived. A packet still to come is taken iff it starts less than seven windows ahead, is not too large, and is queued already or the waiting data is below its maximum; otherwise nothing changes |
| `ReceiverInvariants.OnFragmentOk` | ENet/include/enet/enet.h:1946-2027 | The same for a fragment, stored in its packet: the first of a packet needs the waiting data below its maximum, later ones are taken whatever waits |
| `ReceiverInvariants.NextGetsThrough` | ENet/include/enet/enet.h:3598-3628 | If there is room for the next packet and all its parts arrive, in any order and any number of times, the packet is handed over |
| `DeliveryProof.OutstandingIsNear` | ENet/include/enet/enet.h:2696-2704 | An unacknowledged attempted number is at most six windows behind the newest attempted one |
| `DeliveryProof.AckIsExact` | ENet/include/enet/enet.h:1667-1739 | An acknowledgement at most fifteen windows behind the newest attempted number takes out its own number or nothing, never another one a turn away |
| `DeliveryProof.AckIsNear` | ENet/include/enet/enet.h:3431-3444 | What the receiver acknowledges lies less than seven windows ahead of it |
| `DeliveryProof.StepKeepsInv` | ENet/include/enet/enet.h:2678-2823 | Every step of sender, receiver or network keeps the invariant of the connection: both sides sound, acknowledged implies queued or dispatched, every sent number unacknowledged or arrived, every copy on the network of a packet sent, and the sender held back by a window that nobody acknowledges |
| `DeliveryProof.ReliableDelivery` | ENet/include/enet/enet.h:3598-3628 | In every run over a network that loses, duplicates, delays and reorders, what the application has taken followed by what is ready for it is exactly the first packets sent, byte for byte, whatever their sizes, across the 16-bit wrap |
| `DeliveryProof.NextIsHandedOver` | ENet/include/enet/enet.h:3598-3628 | From every state of every run: if the waiting data is below its maximum, the next packet is within the sizes, and all its parts arrive, it is handed over |
| `Unsequenced.UnsequencedWindow.HandleSendUnsequenced` | ENet/include/enet/enet.h:1888-1926 | In place, base and bitmap end as Arrive says |
| `Unsequenced.StaleIsRefused` | ENet/include/enet/enet.h:1901-1908 | A group behind the window is taken for a new one iff it is more than 32768 groups behind |
| `Unsequenced.ArriveOnce` | ENet/include/enet/enet.h:1888-1926 | One arrival in reach: queued iff there is room, the group is not behind the window and less than 32768 ahead of it, and it was not queued before; the bits then tell exactly the groups queued, and the base stays a multiple of 1024 |
| `Unsequenced.AtMostOnce` | ENet/include/enet/enet.h:1888-1926 | In any run whose arrivals are in reach, across any number of wraps, every group is queued at most once |
| `AckTiming.SentTimeIsExact` | ENet/include/enet/enet.h:2198-2202 | The exact condition under which the 16-bit sent time is reconstructed: always for a round trip up to 32768 ms, and beyond that up to a full turn iff the top bits tell |
| `AckTiming.TrueSample` | ENet/include/enet/enet.h:2198-2210 | For a true round trip up to 32768 ms the sample is the round trip, at least 1, and it is not taken to come from the future |
| `AckTiming.SmoothedBetween` | ENet/include/enet/enet.h:2214-2238 | The smoothed time lies between the old time and the sample and moves unless they are less than eight apart; no subtraction underflows |
| `AckTiming.SmoothedMoves` | ENet/include/enet/enet.h:2214-2238 | The time goes an eighth of the way to the sample, the variance loses and gains a quarter, or a 32nd for a sample further below than the variance |
| `AckTiming.ThrottleMeans` | ENet/include/enet/enet.h:3059-3079 | Where no sum wraps: a sample nearer than half the variance or below opens the throttle up to its limit, one beyond the threshold and twice the variance closes it down to zero, and the return value tells which |
| `AckTiming.QuickerIsBetter` | ENet/include/enet/enet.h:3059-3079 | A quicker sample never leaves the throttle lower |
| `AckTiming.RecordedMeans` | ENet/include/enet/enet.h:2238-2250 | The extremes of an interval bound all its values and were met; at its end they become the last interval's |
| `AckTiming.AcknowledgedBetween` | ENet/include/enet/enet.h:2191-2255 | One acknowledgement: time at least 1 and between old time and sample, throttle within its limit, the earliest time-out forgotten, and nothing changed by one from the future |
| `AckTiming.RunsStayBetween` | ENet/include/enet/enet.h:2191-2255 | Over any run of acknowledgements the time stays at least 1 and within any bounds on the first time and the samples, the throttle within its limit |
| `AckTiming.PeerTiming.Throttle` | ENet/include/enet/enet.h:3059-3079 | In place, the throttle ends as Throttled says, and the return value is the reaction |
| `AckTiming.PeerTiming.HandleAcknowledge` | ENet/include/enet/enet.h:2191-2255 | In place, the peer's times end as Acknowledged says |
| `Bandwidth.HoldSums` | ENet/include/enet/enet.h:4137-4159 | Holding one peer to its share: neither the remaining bandwidth nor the remaining data total goes below zero, and what is left covers the peers still to come |
| `Bandwidth.CommonThrottle` | ENet/include/enet/enet.h:4129-4132 | The largest throttle of at most 32 at which the data fit the bandwidth: 32 if they do, and otherwise one step more would not |
| `Bandwidth.LargestIsUnique` | ENet/include/enet/enet.h:4129-4132 | There is only one such throttle, so `Divided`, which says this of what the held peers leave, determines the limit of all others |
| `Bandwidth.Host.HoldPass` | ENet/include/enet/enet.h:4134-4160 | One turn of the first fix-point loop: only peers that exceed their share are held; bandwidth and data total lose exactly these shares; peersRemaining falls if anybody was held, and if not nobody exceeds its share |
| `Bandwidth.ThrottleFalls` | ENet/include/enet/enet.h:4129-4159 | Taking a share off both bandwidth and data total never raises the common throttle |
| `Bandwidth.Host.HoldAll` | ENet/include/enet/enet.h:4126-4161 | The first fix-point loop ends, without wrapping; the peers held had exceeded their shares at the first throttle, which never rose, and at the last one nobody exceeds its share |
| `Bandwidth.Host.AdjustThrottles` | ENet/include/enet/enet.h:4126-4181 | Held peers get their shares, all other connected peers the throttle that divides exactly what the held peers leave; all limits within 32 |
| `Bandwidth.Host.SetPass` | ENet/include/enet/enet.h:4196-4207 | One turn of the second fix-point loop: only peers that send less than the limit are marked, the bandwidth taken is what they send, peersRemaining falls if anybody was marked and counts the unmarked |
| `Bandwidth.Host.Recalculate` | ENet/include/enet/enet.h:4183-4209 | The second loop ends in its fix-point: of the peers that did not carry the mark of this time already, exactly those that send less than the limit get it, the limit is an equal part of what they leave, and the limits for all connected peers sum to at most the incoming bandwidth if no connected peer carried the mark, and otherwise to at most that and what marked peers send |
| `Bandwidth.Host.Totals` | ENet/include/enet/enet.h:4111-4124 | The exact data total and bandwidth, from which the common throttle can be computed without wrapping |
| `Bandwidth.Host.Throttle` | ENet/include/enet/enet.h:4090-4227 | The whole pass: when it runs, the exact new state of every peer. The limit is the largest throttle at which the open peers' data fit what the held ones leave of the bandwidth, or for a held peer the largest within its share, but at least one; the throttle is cut down to it, and data are counted from zero. A peer that came with the outgoing mark of this time keeps limit and throttle; limits sent as Recalculate says |
| `Bandwidth.ToldSum` | ENet/include/enet/enet.h:4211-4225 | The limits told sum to the bandwidth of the marked peers plus the common limit for each of the others |
| `BandwidthMarks.StaleMarkOvertells` | ENet/include/enet/enet.h:4193-4222 | A peer that carries the mark of the present time by chance, as a new one does at clock zero, and sends 10^6 is told 10^6 by a host with an incoming bandwidth of 1000 |
| `BandwidthMarks.LimitsFitExactly` | ENet/include/enet/enet.h:4193-4222 | Whatever the peers send, a pass with an incoming bandwidth keeps the sum of the limits within it iff no connected peer carries the mark beforehand, or the bandwidth is 2^32 - 1 and only one peer is connected; otherwise some amounts sent make every outcome exceed it |
| `Bandwidth.HeldWithinShare` | ENet/include/enet/enet.h:4145-4151 | The limit of a held peer is the largest that lets no more than its share through, or one; it does so iff its data are less than 32 times one byte more than the share |
| `BandwidthMarks.FloorLetsThrough` | ENet/include/enet/enet.h:4145-4151 | A peer held to a share of one byte that sends 10^6 may send 31250 of them |
| `Bandwidth.AllThrottled` | ENet/include/enet/enet.h:4126-4181 | So every peer after the pass, held or following the common throttle; a peer with the outgoing mark of this time is passed over, and every positive limit exceeds the share of a peer whose data flood it |
| `Bandwidth.EveryoneIsTold` | ENet/include/enet/enet.h:4211-4225 | When the limits are told, every connected peer gets one command, with the limit, or its own bandwidth if it carries the mark, and the host's outgoing bandwidth; nobody else gets any |
| `ThrottleRuns.RunsStayLimited` | ENet/include/enet/enet.h:3059-3079 | In every run of acknowledgements, bandwidth passes, resets and other changes, in any order, every peer's packet throttle is at most its limit, that at most 32, and the round trip time is not zero |
| `ThrottleRuns.UnlimitedStaysOpen` | ENet/include/enet/enet.h:4126-4181 | In every run the limit of a peer without a bandwidth, of a host without an outgoing one, stays at 32 |
| `DatagramCodec.SizesAgree` | ENet/include/enet/enet.h:1487-1506 | The size table agrees with the packed layouts of all twelve commands |
| `DatagramCodec.DecodeUndoesEncode` | ENet/include/enet/enet.h:283-390 | Every command read from where it was written is the command written |
| `DatagramCodec.NextItem` | ENet/include/enet/enet.h:2396-2417 | One turn of the walk finds what Front says, and never reads past the end |
| `DatagramCodec.Walk` | ENet/include/enet/enet.h:2394-2534 | The loop of the walk visits what Walked says and ends where it says |
| `DatagramCodec.WalkVisitsAll` | ENet/include/enet/enet.h:2394-2534 | The walk over a string of commands and payloads visits exactly these, in order, and ends exactly at the end |
| `DatagramCodec.WalkStopsAtCut` | ENet/include/enet/enet.h:2396-2414 | Of a datagram that is cut in the middle of an item the walk visits exactly the items before |
| `DatagramAssembly.SendAcknowledgements` | ENet/include/enet/enet.h:2597-2636 | The loop writes the first acknowledgements, as many as the command, buffer and byte limits leave room for, and keeps the others only if one of the limits is reached |
| `DatagramAssembly.IdleIsPinged` | ENet/include/enet/enet.h:2855-2858 | A peer with nothing queued, nothing unacknowledged and the ping interval past is sent a ping and nothing else |
| `DatagramAssembly.BusyIsNotPinged` | ENet/include/enet/enet.h:2855-2858 | None is sent before the interval has passed or while a command waits for its acknowledgement |
| `DatagramAssembly.AssemblyAccounted` | ENet/include/enet/enet.h:2825-2889 | For acknowledgements, a pass and perhaps a ping together: packetSize and commandCount are right, at most 32 commands, 65 buffers and mtu bytes, and the sent-time flag is up if anything reliable went in |
| `DatagramRuns.RunsAreFine` | ENet/include/enet/enet.h:3081-3177 | In every state of every run the fields of every queued command fit their widths and its slice lies in its packet: fragment counts, offsets and lengths stay below 2^32 |
| `DatagramRuns.ReachableIsWalkedThrough` | ENet/include/enet/enet.h:2825-2889 | Every datagram of every run has at most 32 commands and at most mtu bytes, and the receiver's walk over it, if the handlers meet no error in it, visits exactly the acknowledgements, commands and packet slices put in, in order, and ends exactly at its end; each is read by its handler as the acknowledgement or the kind of command it was, with channel, numbers, group, fragment and payload |
| `DatagramReading.ItemIsRead` | ENet/include/enet/enet.h:2417-2500 | The receiver's switch over command numbers and the fields its handlers read undo what is written, for all eleven kinds; the unsequenced flag is set iff the number is 9, or 4 without a request for an answer |
| `DatagramReading.AcknowledgementsRead` | ENet/include/enet/enet.h:2191-2201 | An acknowledgement is read with its channel, number and time |
| `DatagramReading.FlagsMasked` | ENet/include/enet/enet.h:242-265 | The number and the two flags are what the masks 0x0f, 0x80 and 0x40 take from the first byte |
| `DatagramCodec.FromNobody` | ENet/include/enet/enet.h:2415-2416 | In a datagram from nobody the walk finds a connect command that fills it, or nothing |
| `WireDelivery.ReadAsCopy` | ENet/include/enet/enet.h:1870-2027 | The item written for a command is read by the handlers of reliable commands with the number and body of the copy that the delivery theorem's network takes of it |
| `WireDelivery.FlushedBytesAreCopies` | ENet/include/enet/enet.h:2825-2889 | For every datagram flushed in any run of a connection: the walk over its bytes visits what went in, and what it hands to the handlers of reliable packets are exactly the copies the flush put on the network |
| `WireDelivery.HandledAsCopy` | ENet/include/enet/enet.h:2460-2480 | The receiver handles what it reads as the delivery theorem's network delivers the copy |
| `LinkedLists.Insert` | ENet/include/enet/enet.h:1059-1067 | Insertion keeps next and previous mutually inverse rings |
| `LinkedLists.Remove` | ENet/include/enet/enet.h:1069-1074 | Removal keeps the ring of the other nodes; the removed node keeps its links |
| `LinkedLists.Splice` | ENet/include/enet/enet.h:1076-1087 | A range moved within one ring |
| `LinkedLists.SpliceAcross` | ENet/include/enet/enet.h:1076-1087 | A range moved from one ring to another, which both stay rings |
| `LinkedLists.EnetList.InsertAt` | ENet/include/enet/enet.h:1059-1067 | On the list's contents: the node comes in before the position |
| `LinkedLists.EnetList.RemoveAt` | ENet/include/enet/enet.h:1069-1074 | On the list's contents: that node is gone, the others are as before |
| `LinkedLists.EnetList.MoveTo` | ENet/include/enet/enet.h:1076-1087 | On the list's contents: the range stands before the position, order kept |
| `LinkedLists.EnetList.MoveFrom` | ENet/include/enet/enet.h:1076-1087 | On the contents of both lists: the range has left one and stands in the other |
| `LinkedLists.EnetList.Size` | ENet/include/enet/enet.h:1089-1098 | The walk ends and counts the contents |
| `PeerStates.Host.ChangeState` | ENet/include/enet/enet.h:1508-1515 | A change of state keeps connectedPeers and bandwidthLimitedPeers equal to the number of peers they count |
| `PeerStates.Host.Tell` | ENet/include/enet/enet.h:1529-1575 | What telling of a peer makes of it: the event for its state, and a peer with more packets goes back to the end of the queue |
| `PeerStates.Host.PacketReady` | ENet/include/enet/enet.h:3620-3624 | A peer with a packet for the application is in the queue |
| `PeerStates.Host.DispatchState` | ENet/include/enet/enet.h:1517-1525 | A peer whose news is to be told is in the dispatch queue exactly once |
| `PeerStates.QueueForMeans` | ENet/include/enet/enet.h:1517-1525 | A peer that comes into the dispatch queue goes to its end, and one that leaves it leaves the others in order |
| `PeerStates.RankMeans` | ENet/include/enet/enet.h:1619-1634 | What the comparisons of states mean for the ten states |
| `PeerStates.Host.DispatchIncoming` | ENet/include/enet/enet.h:1527-1579 | The first peer in the queue with news is told of, peers before it leave the queue, all others stay as they were in the same order; there is no event iff no peer has news; event and new state for each of the ten states as the switch has them |
| `PeerStates.UntoldPackets` | ENet/include/enet/enet.h:1529-1575 | Packets that wait on a peer are told of iff it is CONNECTED: one in DISCONNECT_LATER leaves the queue without an event and its packets go on waiting; a zombie drops them with its disconnect event |
| `PeerStates.Host.AcknowledgeDisconnect` | ENet/include/enet/enet.h:2624-2625 | When a disconnect is acknowledged the peer becomes a zombie and is queued; counters, queue and its order stay right, news stays announced |
| `PeerStates.Host.NotifyConnect` | ENet/include/enet/enet.h:1581-1597 | Counters, queue and its order stay right, news stays announced; new state and event |
| `PeerStates.Host.NotifyDisconnect` | ENet/include/enet/enet.h:1599-1635 | Counters, queue and its order stay right, news stays announced; silent resets, zombies, events; when limits are to be recalculated |
| `PeerStates.Host.HandleVerifyConnect` | ENet/include/enet/enet.h:2288-2340 | Counters, queue and its order stay right, news stays announced; only a connecting peer reacts |
| `PeerStates.Host.HandleBandwidthLimit` | ENet/include/enet/enet.h:2127-2153 | The counter of limited peers stays right; refused unless connected |
| `PeerStates.Host.HandleDisconnect` | ENet/include/enet/enet.h:2166-2189 | Counters, queue and its order stay right, news stays announced, with the new state for each of the ten |
| `PeerStates.Host.HandleAcknowledge` | ENet/include/enet/enet.h:2255-2286 | Counters, queue and its order stay right, news stays announced; which acknowledged command each state accepts |
| `PeerStates.Host.Reset` | ENet/include/enet/enet.h:3300-3349 | Counters and queue stay right; the peer is as new |
| `PeerStates.Host.ResetQueues` | ENet/include/enet/enet.h:3251-3280 | The peer leaves the dispatch queue |
| `PeerStates.Host.Disconnect` | ENet/include/enet/enet.h:3393-3420 | Counters, queue and its order stay right, news stays announced, with the new state |
| `PeerStates.Host.DisconnectNow` | ENet/include/enet/enet.h:3373-3391 | Counters, queue and its order stay right, news stays announced; the peer is as new |
| `PeerStates.Host.DisconnectLaterOn` | ENet/include/enet/enet.h:3422-3429 | Counters, queue and its order stay right, news stays announced; at once if nothing is pending |
| `MsgPackPacker.Packer.PackImpUint64` | msgpack-cxx/include/msgpack/v1/pack.hpp:1447-1477 | In place, an unsigned number is appended in its shortest form; likewise the narrower types |
| `MsgPackPacker.Packer.PackImpInt64` | msgpack-cxx/include/msgpack/v1/pack.hpp:1572-1629 | In place, a signed number is appended in its shortest form, the unsigned families for numbers that are not negative; likewise the narrower types |
| `MsgPackPacker.Packer.PackGroup` | msgpack-cxx/include/msgpack/v1/pack.hpp:1194-1229 | In place, the array or map header |
| `MsgPackPacker.Packer.PackStr` | msgpack-cxx/include/msgpack/v1/pack.hpp:1231-1259 | In place, header and body of a string |
| `MsgPackPacker.Packer.PackBin` | msgpack-cxx/include/msgpack/v1/pack.hpp:1289-1313 | In place, header and body of binary data |
| `MsgPackPacker.Packer.PackExt` | msgpack-cxx/include/msgpack/v1/pack.hpp:1315-1379 | In place, header, type and body of an extension |
| `MsgPackPacker.PackObject` | msgpack-cxx/include/msgpack/v1/object.hpp:151-393 | The explicit-stack walk over any object with the packing visitor ends, and has appended exactly the object's encoding |
| `MsgPackDecode.RoundTrip` | msgpack-cxx/include/msgpack/v2/parse.hpp:235-619 | Reading a packed object, of any nesting and followed by anything, gives the object back and consumes exactly its bytes |
| `MsgPackDecode.EncodeIsShortest` | msgpack-cxx/include/msgpack/v1/pack.hpp:1194-1629 | No byte string that denotes an object is shorter than its packed form; every integer, length and count uses the smallest family |
| `MsgPackMeaning.AtomMeans` | msgpack-cxx/include/msgpack/v2/parse.hpp:315-326 | 0xc0, 0xc2 and 0xc3: nil, false and true |
| `Bytes.FirstWeighsMost` | msgpack-cxx/include/msgpack/sysdep.hpp:150-183 | The number that bytes in network order stand for: the first byte weighs most |
| `MsgPackMeaning.FixintMeans` | msgpack-cxx/include/msgpack/v2/parse.hpp:254-263 | A byte below 0x80 is itself, one from 0xe0 on itself less 256 |
| `MsgPackMeaning.UnsignedMeans` | msgpack-cxx/include/msgpack/v2/parse.hpp:368-395 | 0xcc to 0xcf and 1, 2, 4 or 8 bytes: the unsigned number of the bytes, however small |
| `MsgPackMeaning.SignedMeans` | msgpack-cxx/include/msgpack/v2/create_object_visitor.hpp:85-95 | 0xd0 to 0xd3 and 1, 2, 4 or 8 bytes: their two's complement number, filed as a positive integer iff it is not negative |
| `MsgPackMeaning.FloatMeans` | msgpack-cxx/include/msgpack/v2/parse.hpp:348-367 | 0xca and 0xcb: the bit pattern of 4 or 8 bytes |
| `MsgPackMeaning.StrMeans` | msgpack-cxx/include/msgpack/v2/parse.hpp:298-308 | A string behind its length in the header byte or in 1, 2 or 4 bytes, however short it is |
| `MsgPackMeaning.BinMeans` | msgpack-cxx/include/msgpack/v2/parse.hpp:463-476 | A binary behind its length in 1, 2 or 4 bytes |
| `MsgPackMeaning.ExtMeans` | msgpack-cxx/include/msgpack/v2/parse.hpp:424-448 | An extension of a fixed size, or behind its length in 1, 2 or 4 bytes: its type byte and payload |
| `MsgPackMeaning.GroupMeans` | msgpack-cxx/include/msgpack/v2/parse.hpp:592-609 | An array or map behind its number of items or pairs in the header byte or in 2 or 4 bytes: any spellings of its items, one after the other |
| `MsgPackMeaning.HeaderWritten` | msgpack-cxx/include/msgpack/v1/pack.hpp:1195-1638 | Numbers that are not negative are packed in the unsigned family, negative ones in the signed one, all else behind a header of its kind |
| `MsgPackDecode.DecodeOwnBytes` | msgpack-cxx/include/msgpack/v2/parse.hpp:235-619 | An object is read from the bytes that hold it, whatever follows |
| `MsgPackDecode.PackedSpells` | msgpack-cxx/include/msgpack/v1/pack.hpp:1194-1629 | Objects packed one after the other are read back one after the other, using all bytes |
| `MsgPackLexer.NextResumes` | msgpack-cxx/include/msgpack/v2/parse.hpp:235-619 | Reading a token may stop after any byte and go on with what comes later: same token, same length |
| `MsgPackMachine.RunResumes` | msgpack-cxx/include/msgpack/v2/parse.hpp:235-619 | So may a whole run: over two chunks it ends as over their concatenation, with the same state and offset |
| `MsgPackMachine.ErrorIsC1` | msgpack-cxx/include/msgpack/v2/parse.hpp:327-331 | A run ends in an error iff it meets 0xc1 where it expects a header byte, and reports that byte's offset |
| `MsgPackMachine.RunReads` | msgpack-cxx/include/msgpack/v2/parse.hpp:235-619 | The machine with a stack of open containers reads what the recursive definition reads |
| `MsgPackUnpackers.V1Step` | msgpack-cxx/include/msgpack/v1/unpack.hpp:358-445 | To every token the bottom-up stack of v1 answers as the reading machine does, with the containers in the matching state |
| `MsgPackVisitor.V2Step` | msgpack-cxx/include/msgpack/v2/create_object_visitor.hpp:68-254 | To every token the top-down construction in memory through a stack of cursors answers as the reading machine does; at the end the first cell holds the object |
| `MsgPackVisitor.HoldsOne` | msgpack-cxx/include/msgpack/v2/create_object_visitor.hpp:53-61 | A memory cell holds at most one object, so what a parse leaves is determined |
| `MsgPackUnpackV1.ParsersAgree` | msgpack-cxx/include/msgpack/v1/unpack.hpp:466-855 | On every input, under default limits and with a reference function and a visitor that never stops, the bottom-up and the visitor parsers agree with the recursive reading on success, need for more, or error, on the offset and on the object |
| `MsgPackCalls.VisitedInOrder` | msgpack-cxx/include/msgpack/v2/parse.hpp:153-222 | For every input read as an object, the visitor gets exactly the calls of its visiting order: starts and ends of arrays, maps, items, keys and values, nested as the object is, numbers by their sign |
| `MsgPackCopying.CopyingParsersAgree` | msgpack-cxx/include/msgpack/v2/create_object_visitor.hpp:157-179 | Without a reference function the same holds iff no extension of 2^32 bytes, type byte included, is met: there v1 throws, and v2 and v3 go on with an object whose bytes were never written; only inputs of 2^32 + 5 bytes and more hold one |
| `MsgPackCopying.CopyBuildIs` | msgpack-cxx/include/msgpack/v2/create_object_visitor.hpp:111-179 | The copying visitor builds what the referencing one builds, unless it visits that extension, whose length it is told as zero |
| `MsgPackCopying.V1Copies` | msgpack-cxx/include/msgpack/v1/unpack.hpp:204-218 | v1 with copying runs as v1 without, up to that extension, at which it throws |
| `MsgPackUnpackV1.ContextV1.Execute` | msgpack-cxx/include/msgpack/v1/unpack.hpp:466-855 | In place, the loop over bytes ends as the machine of v1 does: result, offset, stack, state |
| `MsgPackUnpackV1.ContextV1.PushItemInPlace` | msgpack-cxx/include/msgpack/v1/unpack.hpp:388-427 | In place, an item goes into the container above, completed containers go on upwards |
| `MsgPackUnpackV1.ContextV1.PushAggregate` | msgpack-cxx/include/msgpack/v1/unpack.hpp:358-386 | In place, a container is opened, or finished at once if empty |
| `MsgPackParser.Context.Execute` | msgpack-cxx/include/msgpack/v3/parse.hpp:245-628 | In place, v3 (and with its flag off v2): the loop over bytes ends as the machine does, never past the input; and the exact offset each version reports when the visitor stops it |
| `MsgPackParser.Context.ConsumeStack` | msgpack-cxx/include/msgpack/v3/parse.hpp:169-219 | In place, the visitor calls at the end of items and the stack end as Consume says |
| `MsgPackParser.Context.StartAggregate` | msgpack-cxx/include/msgpack/v2/parse.hpp:64-101 | In place, the calls and the stack at a container header end as Accept says |
| `MsgPackParser.ObjectVisitor.Call` | msgpack-cxx/include/msgpack/v2/create_object_visitor.hpp:53-260 | In place, with a reference function, cells, cursors and the referenced flag end as the history of calls says |
| `MsgPackUnpackV1.ParseImp` | msgpack-cxx/include/msgpack/v2/parse.hpp:1033-1059 | One-shot parse of v2 and v3 with a reference function: exact result and offset, and on success the object the recursive reading gives; so every spelling of an object, as `MsgPackMeaning` says for each header byte, gives the object |
| `MsgPackStream.GrowTo` | msgpack-cxx/include/msgpack/v2/parse.hpp:868-876 | The doubling loop ends with at least the asked size, also when doubling overflows |
| `MsgPackStream.StreamParser.ReserveBuffer` | msgpack-cxx/include/msgpack/v2/parse.hpp:847-852 | At least the asked capacity, the unread bytes and the parse state kept; a block objects may point into keeps its place and its bytes, is not freed, and is not rewound, so that nothing in it is handed out for writing again |
| `MsgPackStream.StreamParser.ExpandBuffer` | msgpack-cxx/include/msgpack/v2/parse.hpp:854-925 | The same on its four paths: rewind, realloc, copy to a new block, hand the old block over |
| `MsgPackStream.StreamParser.Fill` | msgpack-cxx/include/msgpack/v2/parse.hpp:927-944 | Bytes written at the end of the buffer and announced by buffer_consumed are the stream's next bytes, and no byte that an object may point to changes |
| `MsgPackStream.StreamParser.Next` | msgpack-cxx/include/msgpack/v2/unpack.hpp:92-105 | However the stream was cut and the calls interleaved, the next object is the one decoding the whole stream gives at this point, with its offset; otherwise need-more or the error of that decoding, where the throw leaves m_parsed as it was; bytes that objects may point to stay |
| `MsgPackStream.StreamParser.ReleaseZone` | msgpack-cxx/include/msgpack/v2/unpack.hpp:112-146 | A finished object takes with it the finalizers of its zone, one more if it points into the parser's block; every block's count is the number of finalizers alive and the parser, and what objects may point to stays |
| `MsgPackStream.StreamParser.DropZone` | msgpack-cxx/include/msgpack/v1/unpack.hpp:249-260 | Letting go of a finished object runs its finalizers: a block is freed iff neither another finalizer nor the parser holds it, never twice, and a count may come back to one; all bytes stay |
| `MsgPackStream.StreamParser.Destroy` | msgpack-cxx/include/msgpack/v2/parse.hpp:840-844 | The parser's end: what is left are exactly the blocks that objects handed out still hold |
| `MsgPackStream.Yields` | msgpack-cxx/include/msgpack/v2/unpack.hpp:92-105 | Object after object, what next yields spells the stream |
| `PacketFraming.CreatePacket` | NetCoreServer/Packet.hpp:74-100 | The bytes are the header length, the packed header and the packed data, and are taken apart to the type, the given time stamp, or the clock's for a negative one, and the data. Without data also createEmptyPacket |
| `PacketFraming.ParsePacket` | NetCoreServer/Packet.cpp:36-56 | The moving pointer takes apart what ParseResult says, with every failure of reading or conversion |
| `PacketFraming.ParseUndoesFraming` | NetCoreServer/Packet.cpp:36-56 | A framed packet is taken apart into the same header and payload iff the payload is shorter than 2^32 bytes |
| `PacketFraming.HeaderReadsBack` | NetCoreServer/Packet.cpp:42-48 | The packed header, type first and time stamp second, is read back as itself and converts to the same fields |
| `PacketFraming.ConvertsExactly` | NetCoreServer/Packet.cpp:42-48 | The conversion to the header succeeds iff the object is an array whose first item, if any, is a 16-bit number, and whose second, if any, a 64-bit signed one |
| `PacketFraming.LeastFirst` | NetCoreServer/Packet.hpp:86-91 | The header length has its bytes in the order of memory, the least significant first |
| `PacketFraming.AssembledHolds` | ENet/include/enet/enet.h:1946-2027 | After any sequence of fragments, exactly those that came are in place |
| `PacketFraming.FramedThroughFragments` | ENet/include/enet/enet.h:1946-2027 | A framed packet cut into fragments that arrive in any order any number of times: nothing is missing iff every fragment came, and then parsePacket finds header and payload |
| `PacketFraming.FramedDelivery` | NetCoreServer/Packet.cpp:36-56 | End to end: in every run over the unreliable network, the i-th packet taken parses to the i-th header sent and its data decodes to the i-th object |
| `Sha1.PaddedIsBlocks` | stduuid/uuid.h:171-197 | Padding ends on a block boundary, with less than a block of zeros |
| `Sha1.HashedJoins` | stduuid/uuid.h:143-169 | Hashing full blocks and then the rest is hashing the whole |
| `Sha1.StepAsCoded` | stduuid/uuid.h:235-288 | One step in the code's order of operations is the step of section 6.1 of RFC 3174 |
| `Sha1.FBitByBit` | stduuid/uuid.h:257-273 | The functions of the four rounds bit by bit: choice, parity, majority, parity |
| `Sha1.ConstantsAreRoots` | stduuid/uuid.h:257-273 | The constants of the rounds are the square roots of 2, 3, 5 and 10 times 2^30, rounded down |
| `Sha1.InitialBytes` | stduuid/uuid.h:130-137 | The initial words are the bytes 01 23 45 to EF, back down to 10, and C3 D2 E1 F0 |
| `Sha1.RotatedIsCircular` | stduuid/uuid.h:123-126 | The rotations are the circular shifts of 32-bit words |
| `Sha1.WordBytes` | stduuid/uuid.h:237-242 | A word of the block has its bytes most significant first |
| `Sha1.ScheduleUnwinds` | stduuid/uuid.h:243-245 | A later word of the schedule, rotated back, is the exclusive or of the words 3, 8, 14 and 16 before it |
| `Sha1.Hasher.ProcessBlock` | stduuid/uuid.h:235-288 | In place, the digest after the two loops is that of the standard for the block |
| `Sha1.Hasher.ProcessByte` | stduuid/uuid.h:143-152 | In place, the hasher stands where the definition over all bytes fed stands |
| `Sha1.Hasher.ProcessBytes` | stduuid/uuid.h:154-169 | The same for pieces of any size |
| `Sha1.Hasher.GetDigest` | stduuid/uuid.h:171-199 | However the message was fed, the digest is that of the bytes with padding and a 32-bit length; for messages below 2^29 bytes, SHA-1 of the message |
| `Sha1.LengthField` | stduuid/uuid.h:188-195 | The 32-bit length field is the standard's 64-bit one iff the message is shorter than 2^29 bytes |
| `UuidText.FromString` | stduuid/uuid.h:502-546 | A text is accepted iff it is 32 hexadecimal digits with dashes anywhere, in matching braces or none; the value is that of the digits |
| `UuidText.IsValidUuid` | stduuid/uuid.h:458-500 | Accepts exactly the texts from_string accepts |
| `UuidText.ToString` | stduuid/uuid.h:586-602 | The loop over the pattern gives the 8-4-4-4-12 form: dashes at four positions, and at every other one the lower-case digit of its half byte |
| `UuidText.PrintedReadsBack` | stduuid/uuid.h:502-602 | A printed UUID, with or without braces, is read back as itself |
| `UuidText.OnlyDigitsMatter` | stduuid/uuid.h:502-546 | The value depends on the hexadecimal digits only, not on dashes, braces or letter case |

## Left out

- Sockets, address resolution, clocks, random numbers and threads: service time, room for a packet, whether a caller waits for an event and whether a command is handled without error are parameters.
- Allocation failure, and the clean-up after it in `enet_peer_send` and elsewhere: allocation succeeds.
- Liveness: that packets arrive depends on the network and on being called; `DeliveryProof.NextIsHandedOver` says what follows once they do.
- EnetDelivery.DataStep: the network delivers no data whose packet starts more than nine windows behind the receiver; for a packet of many fragments this asks more than the same bound on each fragment.
- EnetDelivery.AckStep: the network delivers no acknowledgement more than fifteen windows behind the sender's newest number.
- EnetDelivery.FlushStep: no command has been sent 65535 times before; `SenderRuns.AttemptAccountingExactly` says what happens at the wrap. The same holds for `SenderRuns.Step`.
- WireDelivery.FlushedBytesAreCopies: control commands are of control kinds, and their handlers' effects on the peer are not followed.
- EnetDelivery.ControlStep: commands of the peer itself share the queue with the channel's, but their arrival is not followed; their acknowledgement is part of `SenderRuns` only.
- SenderRuns.Step: a datagram is filled while no reliable command stands directly behind an unsequenced one with number 0 (`SenderInvariants.NoneCaught`); `ThrottleDrops.CaughtIsLost` says what is lost otherwise. `DatagramRuns.ReachableIsWalkedThrough` asks the same, the ping included.
- SenderRuns.Step: commands without a packet ask for an acknowledgement. A goodbye that does not is written and read (`DatagramReading.ItemIsRead`), but not part of the runs.
- EnetDelivery.SendStep: only reliable packets are sent in these runs; unsequenced ones could take a reliable one with them as above.
- Reception of unreliable packets and unreliable fragments, and their dispatch order relative to reliable ones.
- IncomingChannels.IncomingChannel.OnReliable: channel number and peer state are one parameter, `Standing`; the runs of `EnetDelivery` and `WaitingData` are those of a peer that stays connected, since one in DISCONNECT_LATER acknowledges whole packets that it drops (`EnetReceiver.LeavingTakesNothing`).
- IncomingChannels.IncomingChannel.OnFragment: the bitmap of received fragments is a sequence of booleans, and bytes of a packet not yet received read as zero.
- IncomingChannels.IncomingChannel.Enqueue: the branches for unreliable commands are left out.
- OutgoingPeers.OutgoingPeer.CheckOutgoing: the disconnect at its end is `PeerStates.Host.Disconnect`, to be called when `idle`.
- OutgoingPeers.OutgoingPeer.RemoveSentUnreliable: as for `CheckOutgoing`.
- The peer lists of `OutgoingPeers.OutgoingPeer` are sequences of command values; aliasing of list nodes is the subject of `LinkedLists` alone. Counters that nothing reads back (packets sent, packets lost, data totals for statistics) are left out.
- DatagramRuns.ReachableIsWalkedThrough: takes the values of commands without a packet, and the bytes of the datagram's header, as given; the peer identifier, session bits and the checksum's value are not modelled, only the header's length. `idle` stands for the ping interval having passed and, for the ping, the peer being CONNECTED.
- DatagramCodec.Walk: handlers are a predicate on the item, so that what a handler does to the peer between commands of one datagram does not influence the walk.
- Bandwidth.Host.Throttle: requires that the products of bandwidths and times fit 32 bits, as the code assumes.
- PeerStates.Host.DispatchIncoming: `enet_peer_receive` called by the application itself, which alone could still take packets of a peer in DISCONNECT_LATER, is not an operation of the host.
- PeerStates.Host: incoming data is the number of packets waiting; the data of connect and disconnect events, session identifiers and the negotiation of parameters in a connect command are left out.
- Floating-point meaning: 32-bit and 64-bit patterns are carried unchanged.
- MessagePack limits on sizes and depth, which by default are no limits: containers and bodies up to 2^32 - 1 are covered, and an extension is its type byte with up to 2^32 - 1 bytes of data; the largest of these only with a reference function (`MsgPackCopying.CopyingParsersAgree`). Type adaptors, zones as allocators, exceptions and the callbacks on errors are left out.
- MsgPackParser.ObjectVisitor.Call: strings, binaries and extensions refer to the buffer, as with a reference function that always agrees; where bodies are copied instead is the subject of `MsgPackCopying`, on values.
- MsgPackUnpackV1.ParsersAgree: with a reference function; a copied extension with 2^32 - 1 bytes of payload is the exception that `MsgPackCopying.CopyingParsersAgree` states.
- MsgPackUnpackV1.ParseImp: as `ParsersAgree`, with a reference function.
- MsgPackParser.Context.Execute: v2 and v3 are one class with a flag, since they differ only in when the position advances.
- MsgPackStream.StreamParser.ReserveBuffer: sizes whose sum with the bytes in use would overflow `size_t` are excluded, as `realloc` could not serve them. The streaming parser is v2's; v3 has the same buffer code under its own context.
- MsgPackStream.StreamParser: `skip_nonparsed_buffer` and `remove_nonparsed_buffer` are left out.
- PacketFraming.CreatePacket: the packet's flag, and the conversion of C++ types to MessagePack objects other than the header, are left out: the data is an object.
- PacketFraming.ParsePacket: reading beyond the end of a short packet is the result `Beyond`; what the program then does is undefined.
- Sha1.Hasher.GetDigest: the digest as five words; `get_digest_bytes` only lists their bytes.
- UUID generators, comparison and hashing of UUIDs; `Server`, `Session`, `Logger` and the session tables.
- ENet's CRC64 table: the checksum is a parameter of sizes only.
