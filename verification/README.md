# Descriptor rings of the PCnet drivers

This project models the drivers for AMD's LANCE and PCnet Ethernet controllers in the repository:
the Darwin driver (`Source/`), the FreeBSD driver it grew out of, and the Linux driver
`pcnet32`. Driver and controller share two rings of descriptors in memory. A bit in each
descriptor, OWN, says whose it is; other bits (STP, ENP, ERR) mark where packets start and end;
flags in the register CSR0 (RINT, TINT) say that a packet has arrived or has been sent. The
drivers contain branches for the case that their place in a ring no longer agrees with the
controller's. The comments say that these branches are never taken. This is proved here, together
with what the rings are for: every frame gets through once, in order, with its bytes.

## How the model is built

- `Rings`: cursors with wrap-around, the ring as seen from a cursor, splitting into packets.
- `RxLayout`, `TxLayout`: the invariant each ring keeps, as a predicate on the ring seen from
  the driver's cursor, and the effect of every controller and driver step on it.
- `Receiver`, `Transmitter`: the driver's routines, loop by loop, on arrays. `Transmitter` holds
  both ways of queueing a packet, the single buffer of `lnc_output_packet` and the descriptor
  chain of `lnc_start`; `lnc_tint` is the same in both drivers.
- `Adapter`, `AdapterBooks`: interrupt handler, output path, reset and initialisation, and whole
  runs: the state before and after each request, and what each request makes of the one before.
- `Runs`: runs of any machine, used by both drivers.
- `AllocationFailure`, `Races`, `FrameLimit`: three properties that hold only on a condition,
  with the exact condition and an input that breaks it.
- `Counters`, `LinuxTransmit`, `LinuxReceive`, `LinuxDriver`: the Linux driver's rings.
- `ShiftRegister`, `Polynomials`, `Crc`, `MulticastFilter`: the CRC and the multicast filter.
- `Activation`, `LinkMonitor`, `MemoryMap`, `FirstFragment`: the activation levels, the link
  poll, the carving of the shared memory, the 100-byte rule of the LANCE.

Histories are only ever added to. `arrivals` is every frame the controller has finished
receiving and `log` what became of each, taken or lost in a reset; `accepted` is every frame
taken over from the stack, `finished` every frame the controller was done with, and `log` what
became of each, taken back or dropped. A transmitted frame is what the lengths in its
descriptors select, not what the driver was given (`Sends`, `Payload`). A reset enters what it
takes away and is counted under its reason (`Resets`). What the chip reports is counted apart,
by the controller's steps alone: memory errors (`merrs`), underruns (`underruns`), FIFO errors
of the Linux driver (`fifos`). Resets are bounded by these counts, plus what was pending at the
start.

The controller may act between any two accesses of the driver to a ring: each `Read`, `Put` or
write of the driver is preceded by a call of `Controller`, which takes any number of controller
steps of any kind. `budget` is how many steps the controller takes in all. It is arbitrary but
finite, so that the handlers' loops terminate; with an endless stream of packets they need not.
The two rings and their bits of CSR0 share nothing, so steps on one ring commute with accesses to
the other, and a routine that touches one ring is followed by the steps on the other.

What the environment is taken to do:

- The controller uses descriptors in ring order and only those it owns. A received frame fills
  all its buffers but the last; an error-free one has at least both addresses and a check
  sequence (16 bytes), at most 4095 bytes, and leaves at least one descriptor of the ring
  (`FrameLimit` shows why). A failed transmission gives up the rest of its packet in one step.
- In `Receiver` a packet can always be allocated. `AllocationFailure` shows that the rings stay
  in step exactly if it can.
- In `Transmitter`, `rereads` says whether each test of a status word reads the descriptor
  again, as the text of `lnc_tint` suggests, or uses the value at hand. With rereading, packets
  have at most two descriptors (one in the Darwin driver). `Races` shows what happens with three.
- A packet given to `lnc_output_packet` fits one 1544-byte buffer.
- Claims about the stall of the output queue hold while initialisation reaches IDON (`up`).
- In the Linux driver a mapped buffer's bus address is not zero.

## Model

| member | source | states |
|---|---|---|
| Rings.SlotStep | Source/PCNet_lnc.h:54-56 | Stepping a cursor commutes with counting slots from it, across the end of the ring |
| Rings.ViewSet | Source/PCNet_lnc.h:54-56 | Writing a slot changes exactly one place of the ring as seen from any cursor |
| Rings.PacketsFirst | Source/PCNet_lnc.cpp:407-412 | Searching for the first final descriptor peels off exactly the first packet |
| RxLayout.StoredPackets | Source/PCNet_lnc.cpp:366-373 | A descriptor stored by the controller either completes one more arrival, whose bytes are the open packet's buffers and its own, or lengthens the open packet |
| RxLayout.StoredLayout | Source/PCNet_lnc.cpp:366-373 | The receive ring's invariant survives every descriptor the controller stores |
| RxLayout.StoreSound | Source/PCNet_lnc.cpp:366-373 | Arrivals are always what the driver has taken followed by what the complete packets in the ring stand for |
| RxLayout.TakeSound | Source/PCNet_lnc.cpp:407-444 | Taking the packet at the front of the ring moves exactly the oldest waiting arrival to those taken, and it leaves a descriptor over |
| RxLayout.TakePackets | Source/PCNet_lnc.cpp:407-444 | The packets behind the one taken are unchanged |
| RxLayout.GiveBackLayout | Source/PCNet_lnc.cpp:488-493 | Returning the oldest descriptor with status exactly OWN keeps the invariant |
| RxLayout.CopyOne | Source/PCNet_lnc.cpp:561-586 | Copying one more buffer, or what is still wanted of it, yields the next prefix of the packet |
| RxLayout.PassedIs | Source/PCNet_lnc.cpp:440-525 | What the stack is owed for an undamaged packet is its buffers' bytes without the check sequence, unless it is from our own address |
| RxLayout.LogSnoc | Source/PCNet_lnc.cpp:446-533 | Each packet taken adds its own delivery, or its own error, to what is owed so far |
| ReceiveEngine.Receiver.ControllerStep | Source/PCNet_lnc.cpp:366-373 | A controller step keeps the invariant, and raises RINT only with a complete packet in the ring |
| ReceiveEngine.Receiver.RoomAhead | Source/PCNet_lnc.cpp:407-412 | The search stops before it comes round to its start |
| ReceiveEngine.Receiver.Scan | Source/PCNet_lnc.cpp:408-412 | The search stops at the first descriptor that ends a packet, starts one or is the controller's |
| ReceiveEngine.Receiver.StopsInside | Source/PCNet_lnc.cpp:408-437 | A search for the end of a packet never meets the start of another, and meets the controller only if no packet is complete |
| ReceiveEngine.Receiver.FindEnd | Source/PCNet_lnc.cpp:394-438 | The search ends at the packet's last descriptor, or, looking ahead, finds the packet incomplete and goes back; both resets are unreachable |
| ReceiveEngine.Receiver.PacketLength | Source/PCNet_lnc.cpp:440 | In 16-bit arithmetic the packet length is the message length less the check sequence |
| ReceiveEngine.Receiver.TakePacket | Source/PCNet_lnc.cpp:440-444 | The packet found is the oldest arrival, and `recv_next` goes to the start of the next |
| ReceiveEngine.Receiver.Drop | Source/PCNet_lnc.cpp:488-493 | A damaged packet's descriptors all go back to the controller |
| ReceiveEngine.Receiver.Discard | Source/PCNet_lnc.cpp:446-494 | A damaged packet counts as one input error and delivers nothing |
| ReceiveEngine.Receiver.CopyPart | Source/PCNet_lnc.cpp:562-576 | One turn copies the whole buffer or the rest of the packet |
| ReceiveEngine.Receiver.ReturnBuffer | Source/PCNet_lnc.cpp:578-585 | The buffer just copied goes back; the late write of its length changes nothing |
| ReceiveEngine.Receiver.MbufPacket | Source/PCNet_lnc.cpp:543-588 | Returns exactly the first `pktLen` bytes of the packet's buffers and gives every descriptor back, also across the end of the ring |
| ReceiveEngine.Receiver.PassOn | Source/PCNet_lnc.cpp:495-526 | A valid packet is queued for the stack if and only if it is not from our own address, and all its descriptors go back |
| ReceiveEngine.Receiver.Accept | Source/PCNet_lnc.cpp:440-535 | One packet more is dealt with, and fewer descriptors are the host's if the controller was quiet |
| ReceiveEngine.Receiver.Drained | Source/PCNet_lnc.cpp:392 | A descriptor without STP at `recv_next` means that no complete packet waits |
| ReceiveEngine.Receiver.CheckEntry | Source/PCNet_lnc.cpp:375-388 | The two checks of a debugging build never fail |
| ReceiveEngine.Receiver.LncRint | Source/PCNet_lnc.cpp:356-541 | With a complete packet at `recv_next` no reset is reached; whatever the controller does meanwhile, every frame that had arrived on entry has been dealt with on return, frames leave the ring only by being taken, and the stack is told exactly if the input queue has grown |
| ReceiveEngine.Receiver.Controller | Source/PCNet_lnc.cpp:366-373 | RINT is only raised with a complete packet in the ring |
| RxLayout.NoneWaiting | Source/PCNet_lnc.cpp:392 | With no complete packet in the ring, every frame that ever arrived has been dealt with |
| ReceiveEngine.Receiver.Init | Source/PCNet_lnc.cpp:101-132 | Initialisation restores the invariant; the frames still in the ring are entered as lost, and nothing else about the past changes |
| TxLayout.FramesSplit | Source/PCNet_lnc.cpp:622-634 | A run of descriptors split after a packet holds the frames of both parts |
| TxLayout.FinishSound | Source/PCNet_lnc.cpp:622-634 | Finishing or failing a packet keeps the invariant and finishes exactly the oldest unfinished frame |
| TxLayout.FinishGivesUp | Source/PCNet_lnc.cpp:622-634 | Finishing or failing a packet relinquishes every descriptor of it from the controller's on, reports in the controller's descriptor and touches no other |
| TxLayout.RelinquishLayout | Source/PCNet_lnc.cpp:622-634 | The transmit ring's invariant survives every step of the controller |
| TxLayout.TakeFrames | Source/PCNet_lnc.cpp:655-683 | Taking back the packet up to the first ENP takes back exactly the oldest frame |
| TxLayout.ClearLayout | Source/PCNet_lnc.cpp:796-802 | Clearing the oldest descriptor of a packet taken back keeps the invariant |
| TxLayout.InOrder | Source/PCNet_lnc.cpp:223-259 | Over the whole run, resets included, frames finish in the order they were accepted in, passing over only those a reset dropped unsent |
| TxLayout.PendingFrames | Source/PCNet_lnc.cpp:796-802 | With one descriptor a packet, descriptors in use are the frames in the ring |
| TxLayout.Conserved | Source/PCNet_lnc.cpp:223-259 | Frames ever accepted = taken back + dropped by a reset + in the ring, as multisets of frames, for packets of any number of descriptors |
| TxLayout.DroppingKeeps | Source/PCNet_lnc.cpp:914-921 | A reset drops the frames in the ring and forgets none, neither accepted nor finished |
| TxLayout.StageLayout | Useful Stuff/Sources/FreeBSD/if_lnc.c:1315-1347 | Writing free descriptors beyond the published ones keeps the invariant as long as the first has no OWN |
| TxLayout.PreparedSets | Useful Stuff/Sources/FreeBSD/if_lnc.c:1329-1347 | Each write to a prepared chain (ENP, padding, an OWN bit) keeps the rest of it |
| TxLayout.PreparedHolds | Useful Stuff/Sources/FreeBSD/if_lnc.c:1343-1349 | When the reverse loop reaches the first descriptor the chain is a packet but for that descriptor |
| TransmitEngine.Transmitter.Unseen | Useful Stuff/Sources/FreeBSD/if_lnc.c:1337-1347 | At every write of the reverse loop the chain's first descriptor has no OWN, and the controller's place is no owned descriptor of the chain, also if the chain fills the ring |
| TransmitEngine.Transmitter.HandNow | Useful Stuff/Sources/FreeBSD/if_lnc.c:1347-1349 | The last OWN write publishes the whole chain from STP to ENP, every descriptor with the length of its buffer and the last with the padding, and adds one accepted frame |
| TxLayout.PublishLayout | Useful Stuff/Sources/FreeBSD/if_lnc.c:1337-1349 | Giving away the first descriptor of a prepared chain keeps the invariant, also if the chain fills the ring |
| TxLayout.PublishFrames | Useful Stuff/Sources/FreeBSD/if_lnc.c:1313-1349 | Giving away the first descriptor of a prepared packet adds exactly one frame, which is what its descriptors send |
| TxLayout.WholePayload | Useful Stuff/Sources/FreeBSD/if_lnc.c:1313-1335 | A chain whose descriptors have the lengths of their buffers is sent as its bytes end to end, followed by as much padding as the last length has been extended by |
| TransmitEngine.Transmitter.ControllerFail | Source/PCNet_lnc.cpp:622-634 | A failed packet is relinquished whole in one step, the error in the descriptor the controller was at; TINT is raised, and an underrun turns the transmitter off |
| TransmitEngine.Transmitter.ControllerFinish | Source/PCNet_lnc.cpp:622-634 | A packet sent is finished by this step, at its last descriptor, and TINT is raised with it |
| TransmitEngine.Transmitter.Controller | Source/PCNet_lnc.cpp:622-634 | TINT is only raised with a finished packet in the ring |
| TransmitEngine.Transmitter.Prepare | Useful Stuff/Sources/FreeBSD/if_lnc.c:1315-1347 | Only descriptors without OWN are written, and the controller does not notice |
| TransmitEngine.Transmitter.FillChain | Useful Stuff/Sources/FreeBSD/if_lnc.c:1313-1327 | Each buffer has its descriptor, none with OWN, and the shortfall of the packet is counted |
| TransmitEngine.Transmitter.MarkLast | Useful Stuff/Sources/FreeBSD/if_lnc.c:1329-1335 | ENP and the padding of a short packet go to the chain's last descriptor |
| TransmitEngine.Transmitter.OwnAfterFirst | Useful Stuff/Sources/FreeBSD/if_lnc.c:1337-1347 | The reverse loop sets OWN on every descriptor but the first and ends there, also across the end of the ring |
| TransmitEngine.Transmitter.PublishChain | Useful Stuff/Sources/FreeBSD/if_lnc.c:1306-1349 | A chain becomes one accepted frame, padded to 64 bytes if it is shorter: every descriptor has the length of its buffer, the last one the shortfall in addition; `next_to_send` and the count of descriptors in use follow, whatever the controller does between the writes |
| TransmitEngine.Transmitter.StartOne | Useful Stuff/Sources/FreeBSD/if_lnc.c:1250-1304 | A packet is accepted with its bytes, padded if short, if and only if the ring has enough descriptors or there is a cluster; else the ring takes nothing. It goes out in its own buffers, for a LANCE with 100 bytes in the first of several, and in one buffer if there are not enough descriptors |
| TransmitEngine.Transmitter.LncStart | Useful Stuff/Sources/FreeBSD/if_lnc.c:1231-1380 | Packets leave the queue in order until it is empty or the ring is full, each accepted whole, padded if short, and in no more descriptors than it has buffers; a reset is asked for only if the next chain needs more descriptors than there are and no cluster is to be had |
| TransmitEngine.Transmitter.LncOutputPacket | Source/PCNet_lnc.cpp:223-259 | A packet is refused exactly if the ring is full, and then nothing changes; else it is accepted, and its one descriptor has its length, so that what is sent is its bytes and no other; OACTIVE marks a full ring |
| TransmitEngine.Transmitter.MbufToBuffer | Source/PCNet_lnc.cpp:261-274 | Copies a chain's bytes end to end |
| TransmitEngine.Transmitter.RoomAhead | Source/PCNet_lnc.cpp:655-659 | The search stops before it comes round to its start |
| TransmitEngine.Transmitter.StopsInside | Source/PCNet_lnc.cpp:655-682 | A search never meets the start of another packet; at the controller's descriptor no packet is finished, at the host's the packet found is |
| TransmitEngine.Transmitter.Tests | Source/PCNet_lnc.cpp:661-682 | Whether a status word is read once or for every test, both resets are unreachable |
| TransmitEngine.Transmitter.FindEnd | Source/PCNet_lnc.cpp:639-683 | The search ends at a finished packet's last or failed descriptor, or goes back to the start of a packet still being sent |
| TransmitEngine.Transmitter.AfterDescriptor | Source/PCNet_lnc.cpp:753-756 | Skipping a failed packet stops at the next packet's start and nowhere inside the failed one |
| TransmitEngine.Transmitter.SkipRest | Source/PCNet_lnc.cpp:753-756 | The rest of a failed packet is skipped, bounded by `next_to_send` |
| TransmitEngine.Transmitter.PassPacket | Source/PCNet_lnc.cpp:688-790 | `trans_next` ends behind the packet's last descriptor whether it was sent or failed; a reset is asked for exactly if the packet reports an underrun |
| TransmitEngine.Transmitter.Reclaim | Source/PCNet_lnc.cpp:796-802 | All descriptors of the packet are cleared and the count goes down by their number |
| TransmitEngine.Transmitter.ReclaimPacket | Source/PCNet_lnc.cpp:638-802 | One pass takes back exactly the oldest frame, or finds it still being sent, or finds a finished packet that reports an underrun |
| TransmitEngine.Transmitter.TintPass | Source/PCNet_lnc.cpp:638-818 | Each pass takes a packet back and reopens the queue, or is the last: no finished packet is left, or one of them reports an underrun |
| TransmitEngine.Transmitter.LncTint | Source/PCNet_lnc.cpp:591-825 | With a finished packet at `trans_next` no out-of-sync reset is reached; whatever the controller does meanwhile, every frame finished on entry has been taken back on return, unless a finished packet reports an underrun: only then a reset is asked for |
| TransmitEngine.Transmitter.Init | Source/PCNet_lnc.cpp:103-145 | Initialisation empties the ring, and if it reaches IDON starts the transmitter and asks the queue to run; the frames in the ring are entered as dropped, and what was accepted and finished before stays on record |
| AdapterEngine.Adapter.ReadCsr0 | Source/PCNet_lnc.cpp:310 | A RINT read from CSR0 has a complete packet behind it, a TINT a finished one |
| AdapterEngine.Adapter.Acknowledge | Source/PCNet_lnc.cpp:312 | The early write-back clears exactly the bits read, every other bit stays, and so do the packets behind those cleared |
| AdapterEngine.Adapter.ServeRings | Source/PCNet_lnc.cpp:339-347 | TINT may be served from the saved CSR0 after RINT; all that the flags read had announced is dealt with, and there is at most one reset, for an underrun the controller has had |
| AdapterEngine.Adapter.Turn | Source/PCNet_lnc.cpp:310-348 | A turn resets exactly once if CSR0 showed a memory error, else at most once, when a transmit interrupt finds an underrun; each reset answers an error that the controller has entered; a turn makes progress whenever the controller is quiet |
| AdapterEngine.Adapter.LncIntr | Source/PCNet_lnc.cpp:296-354 | The handler returns with no interrupting flag raised; if RINT was raised on entry every frame that had arrived has been dealt with, if TINT every frame that was finished, if MERR the adapter has been reset; resets are no more than the memory errors and underruns the controller had meanwhile and those pending on entry; it asks for a flush exactly if packets were queued, and a stalled queue with room is asked to run or about to be, the latter only if a packet was taken back |
| AdapterEngine.Adapter.LncReset | Source/PCNet_lnc.cpp:914-921 | A reset restores the invariant, enters exactly what it loses and drops, clears the conditions that call for one, starts the transmitter again exactly if it reaches IDON, and is counted under its reason; nothing else in the histories changes |
| AdapterEngine.Adapter.HandleInterrupt | Source/PCNet_Private.cpp:68-116 | With interrupts enabled all that RINT, TINT and MERR announced has been served afterwards, with no more resets than the chip called for; in any case no stalled queue with room in the ring is without a service request |
| AdapterEngine.Adapter.OutputPacket | Source/PCNet_Private.cpp:122-147 | A refused packet changes nothing; an accepted one is the newest in the ring |
| AdapterEngine.Adapter.InitAdapter | Source/PCNet_Private.cpp:39-56 | A full initialisation disables interrupts and puts the rings in step |
| AdapterEngine.Adapter.Conserved | Source/PCNet_lnc.cpp:223-259 | In every state frames accepted = taken back + in the ring + dropped by resets as multisets, also for chains; the stack was given exactly what the frames taken amount to; the transmitter is on unless the last initialisation failed or it has run dry since; OACTIVE marks a full ring; no stall is forgotten |
| AdapterBooks.AfterReset | Source/PCNet_lnc.cpp:914-921 | A reset for a reason the chip gave leaves nothing unserved that a flag had announced |
| AdapterBooks.Undisturbed | Source/PCNet_lnc.cpp:310-348 | With no memory error and no underrun meanwhile and none pending, no cluster missed and no initialisation asked for, there is no reset between two states of a run, and every frame that left a ring was taken by the driver |
| AdapterBooks.TraceGrows | Source/PCNet_lnc.cpp:296-354 | Between any two states of a run no history shrinks; resets for memory errors and for underruns are no more than the controller entered of each and were pending at the first; without a reset every frame that left a ring was taken by the driver |
| AdapterEngine.Adapter.Run | Source/PCNet_lnc.cpp:296-354 | Every sequence of requests yields a run of states, one for each request: each in balance, each the effect of its request on the one before (an interrupt served, a packet refused or accepted, a queue started, and reset only if its next chain exceeds the room that the packets before it have left, an initialisation) |
| AllocationFailure.InStepIffCopied | Source/PCNet_lnc.cpp:495-532 | After the packet at the front driver and controller are in step if and only if the packet could be allocated |
| AllocationFailure.StaleAtEnd | Source/PCNet_lnc.cpp:527-532 | A packet left behind can never be accounted for as the youngest in the ring |
| AllocationFailure.FrameOverlooked | Source/PCNet_lnc.cpp:527-532 | After one failed allocation a packet is delivered late, and a complete frame stays in the ring although RINT is raised; `recv_next` is at a descriptor with OWN set, for which a debugging build resets |
| AllocationFailure.SearchLost | Source/PCNet_lnc.cpp:390-438 | After one failed allocation, in a ring of four, a search that starts at `recv_next` itself meets a descriptor with OWN set, for which every build resets |
| AllocationFailure.GiveBackAll | Source/PCNet_lnc.cpp:561-586 | Giving a whole packet back leaves the driver at the next packet and the controller where it was |
| Races.ReliableIff | Source/PCNet_lnc.cpp:659-682 | Reading the status again for each test is safe against every controller step if and only if the first reading did not find the controller on a middle descriptor |
| Races.MiddleTakenForEnd | Useful Stuff/Sources/FreeBSD/if_lnc.c:682-700 | Otherwise one controller step makes the driver take the middle of a packet for its end |
| Races.ThreeDescriptors | Useful Stuff/Sources/FreeBSD/if_lnc.c:682-700 | Such a ring exists, with one packet of three descriptors |
| Races.ShortPacketsReliable | Source/PCNet_lnc.cpp:659-682 | Packets of at most two descriptors are safe |
| FrameLimit.AllGivenBackIff | Source/PCNet_lnc.cpp:488-493 | The loops that give a packet back do so if and only if it is shorter than the ring; a packet as long as the ring is not given back at all |
| FirstFragment.Shuffle | Useful Stuff/Sources/FreeBSD/if_lnc.c:1277-1304 | The packet's bytes stay the same, the chain gets no longer, its first buffer gets just enough for 100 bytes or the whole packet, a chain that has enough is left alone, and buffers that give all they have are gone |
| Runs.RunKeeps | Source/PCNet_lnc.cpp:296-354 | A transitive relation that every request keeps holds between any two states of a run |
| Counters.AheadNext | Useful Stuff/Sources/pcnet32-linux.c:1733-1852 | Unsigned distances follow the counters across the end of the word |
| Counters.MaskAhead | Useful Stuff/Sources/pcnet32-linux.c:1717 | The masked counter is the slot that far from the masked older counter |
| LinuxTransmit.LinuxTransmitter.BaseMarksWindow | Useful Stuff/Sources/pcnet32-linux.c:1726-1741 | A slot's address is non-zero if and only if its counter lies between the two counters |
| LinuxTransmit.LinuxTransmitter.FreeUnlessStopped | Useful Stuff/Sources/pcnet32-linux.c:1717-1744 | While the queue runs the slot at `cur_tx` is free |
| LinuxTransmit.LinuxTransmitter.FillFields | Useful Stuff/Sources/pcnet32-linux.c:1719-1729 | All fields but the status are written while the controller does not own the slot and the packet is not yet in the ring, whatever the controller does in between |
| LinuxTransmit.LinuxTransmitter.Give | Useful Stuff/Sources/pcnet32-linux.c:1730-1733 | The write of the status changes nothing but OWN, and adds the packet to the ring |
| LinuxTransmit.LinuxTransmitter.StartXmit | Useful Stuff/Sources/pcnet32-linux.c:1693-1747 | The packet joins the ring as the newest, with its length and bus address, and the queue is stopped exactly if the ring is full |
| LinuxTransmit.LinuxTransmitter.Reclaim | Useful Stuff/Sources/pcnet32-linux.c:1794-1849 | Exactly the oldest packet is freed and its slot marked unused; a restart is called for exactly if it met a FIFO error |
| LinuxTransmit.LinuxTransmitter.TxInterrupt | Useful Stuff/Sources/pcnet32-linux.c:1789-1868 | Whatever the controller does meanwhile, all packets sent on entry are freed in order and no sent packet is left; a restart is asked for exactly if a freed packet has turned the transmitter off; the out-of-sync branch is unreachable; a stopped queue is woken exactly if fewer than fourteen packets are left |
| LinuxTransmit.LinuxTransmitter.Purge | Useful Stuff/Sources/pcnet32-linux.c:1544-1561 | Exactly the packets in the ring are freed, once each |
| LinuxTransmit.LinuxTransmitter.InitRing | Useful Stuff/Sources/pcnet32-linux.c:1571-1604 | The emptied ring matches counters restarted from zero, and the transmitter runs again |
| LinuxTransmit.HeldPending | Useful Stuff/Sources/pcnet32-linux.c:1550-1560 | The buffers in the ring are those of the pending packets |
| LinuxTransmit.HeldView | Useful Stuff/Sources/pcnet32-linux.c:1550-1560 | Going through the slots in order of place finds the same packets as in order of age |
| LinuxReceive.LinuxReceiver.Replace | Useful Stuff/Sources/pcnet32-linux.c:1962-1974 | The new buffer is in no other slot, the old one is the stack's and in none |
| LinuxReceive.LinuxReceiver.TryPass | Useful Stuff/Sources/pcnet32-linux.c:1957-2020 | With memory an acceptable packet goes to the stack, one longer than the copy break in its own buffer and any other in a new one, and no other buffer does; without it nothing changes |
| LinuxReceive.ToldPacket | Useful Stuff/Sources/pcnet32-linux.c:1930-1952 | From what the controller reports of a whole frame the driver decides by the frame's length, and what it takes is the frame without its check sequence |
| LinuxReceive.LinuxReceiver.FindOwned | Useful Stuff/Sources/pcnet32-linux.c:1986-1989 | The scan finds the first slot of the controller, which is where its buffers begin |
| LinuxReceive.LinuxReceiver.Squeeze | Useful Stuff/Sources/pcnet32-linux.c:1981-1998 | Without memory the packet waits, or is dropped if the controller has at most one buffer; either way the controller has one |
| LinuxReceive.LinuxReceiver.Reject | Useful Stuff/Sources/pcnet32-linux.c:1927-1955 | A faulty, impossible or too short packet is counted, not delivered, and its buffer goes back |
| LinuxReceive.LinuxReceiver.HandBack | Useful Stuff/Sources/pcnet32-linux.c:2026-2029 | The slot goes back with its length restored and no error left in its status, and `cur_rx` advances by one, also across the end of the word |
| LinuxReceive.LinuxReceiver.Rx | Useful Stuff/Sources/pcnet32-linux.c:1917-2034 | It stops because nothing received is left, sixteen were handled or memory was short, and only the last may drop a packet; nothing is lost; on every exit the controller has a buffer, `cur_rx` advanced by as many as were handled, and the stack got exactly the acceptable frames kept, each without its check sequence |
| LinuxReceive.LinuxReceiver.InitRing | Useful Stuff/Sources/pcnet32-linux.c:1571-1596 | On a ring in use initialisation cannot fail; what was received and not handled is entered as lost |
| LinuxReceive.Unrolled | Useful Stuff/Sources/pcnet32-linux.c:1575-1596 | Every slot has a mapped buffer of its own, wherever `cur_rx` stands |
| LinuxDriver.Driver.Restart | Useful Stuff/Sources/pcnet32-linux.c:1621-1690 | A restart drops exactly the pending packets, enters as lost exactly what was received and not handled, keeps every other record and leaves transmitter and queue running |
| LinuxDriver.Driver.Turn | Useful Stuff/Sources/pcnet32-linux.c:1771-1898 | What RINT and TINT announced is handled and freed in the same turn, a queue below fourteen packets runs, and the driver restarts exactly once for each FIFO error, when a transmit interrupt has come upon it; otherwise no packet is dropped and no report lost; a ring for which nothing was read from CSR0 is left alone |
| LinuxDriver.Undisturbed | Useful Stuff/Sources/pcnet32-linux.c:1749-1915 | With no FIFO error meanwhile and none pending, and no timeout, nothing is restarted, dropped or lost between two states of a run |
| LinuxDriver.Driver.Conserved | Useful Stuff/Sources/pcnet32-linux.c:1693-1747 | Packets taken over, with their lengths and addresses, = freed after sending + in the ring + dropped by restarts, as multisets; a full ring has its queue stopped |
| LinuxDriver.Driver.Run | Useful Stuff/Sources/pcnet32-linux.c:1749-1915 | Every sequence of transmissions, interrupts and timeouts yields a run of states, each in balance and each the effect of its request on the one before, an interrupt that of each turn below `max_interrupt_work`; the distance of the counters is the number of packets in the ring, and receive buffers are not shared |
| Crc.NibbleTurns | Source/PCNet_lnc.cpp:840-845 | Each table entry does four turns of the bit-serial register |
| Crc.ByteTurns | Source/PCNet_lnc.cpp:851-855 | A byte taken in at once is its eight bits taken in one by one |
| Crc.EtherCrc32Le | Source/PCNet_lnc.cpp:838-858 | For every byte string the result is the bit-serial CRC, and the remainder that section 3.2.9 of IEEE Std 802.3-2018 defines, without the final complement |
| Crc.RegisterFeed | Source/PCNet_lnc.cpp:851-855 | A turn shifts the register's polynomial and subtracts the generator if the leading term asks for it |
| Crc.CrcIsRemainder | Source/PCNet_lnc.cpp:847-857 | For every bit sequence the register is the remainder modulo the generator |
| Crc.StartsComplemented | Source/PCNet_lnc.cpp:849 | Starting from all ones is complementing the first 32 bits |
| Crc.ReflectedGenerator | Source/PCNet_lnc.cpp:840-845 | The reflected constant is the generator of section 3.2.9 without its leading term |
| Polynomials.RemainderUnique | Source/PCNet_lnc.cpp:838-858 | There is only one remainder |
| ShiftRegister.TurnsSplit | Source/PCNet_lnc.cpp:851-855 | For any register into which words add linearly, several bits taken in at once are the same bits one by one |
| MulticastFilter.SetLadrf | Source/PCNet_lnc.cpp:863-890 | Bit k is set if and only if some listed address has CRC >> 26 == k; all bits with ALLMULTI |
| MulticastFilter.HashIs | Source/PCNet_lnc.cpp:883-885 | The hash of an address consists of the six lowest coefficients of its check sequence, which is the remainder that section 3.2.9 of IEEE Std 802.3-2018 defines |
| MulticastFilter.AcceptsIff | Source/PCNet_lnc.cpp:872-888 | An address is accepted if and only if it shares its hash with a listed one |
| MulticastFilter.LoadMulticast | Useful Stuff/Sources/pcnet32-linux.c:2119-2154 | The 16-bit form selects the hashes of the listed group addresses |
| MulticastFilter.FormsAgree | Useful Stuff/Sources/pcnet32-linux.c:2139-2152 | For group addresses both forms are the same 64 bits |
| MemoryMap.LncInit | Source/PCNet_lnc.cpp:101-141 | For every ring size and base the regions are in order within the size asked for, descriptors 16-byte aligned |
| MemoryMap.NdescSum | Source/PCNet_lnc.h:52 | Ring sizes multiply as their logarithms add, starting from 1 and 2: they are the powers of two |
| MemoryMap.PackedApart | Source/PCNet_lnc.cpp:101-141 | Regions in order are pairwise disjoint |
| Activation.Activator.EnableAdapter | Source/PCNet.cpp:314-370 | Level 1 that fails at the medium leaves the provider open |
| Activation.Activator.DisableAdapter | Source/PCNet.cpp:376-437 | Leaving a level never fails, and undoes what reaching it did |
| Activation.Activator.SetActivationLevel | Source/PCNet.cpp:447-475 | Ends at the wanted level, or at 0 if level 1 cannot be enabled; the provider is left open without a level exactly if that attempt opened it, or an earlier one did |
| Activation.Activator.Run | Source/PCNet.cpp:479-538 | After any sequence of enabling and disabling the clients enabled are exactly those the platform's answers let in, the level is 2 for BSD, else 1 for the debugger, else 0; levels change one at a time; interrupts are enabled exactly at level 2 |
| Activation.BsdEnabledIff | Source/PCNet.cpp:479-510 | The stack is enabled exactly if a request of its own has let it in since it was last disabled, whatever the debugger has asked for |
| Activation.DebuggerEnabledIff | Source/PCNet.cpp:515-538 | The debugger is enabled exactly if a request of its own has let it in since it was last disabled, whatever the stack has asked for |
| LinkMonitor.Monitor.Poll | Source/PCNet_PHY.cpp:105-125 | Unforced polls report exactly the samples that differ from their predecessor |
| LinkMonitor.ChangesDiffer | Source/PCNet_PHY.cpp:105-125 | No report repeats the one before it |
| LinkMonitor.ChangesEnd | Source/PCNet_PHY.cpp:105-125 | The last report is the state sampled last |

## Where code and comments differ

- The comments of `lnc_rint` and `lnc_tint` say that the resets signify a bug in the driver. That
  holds on two conditions: an error-free packet can be allocated (`AllocationFailure`), and no
  status word of a packet of three or more descriptors changes between two tests (`Races`).
  Without the first the resets can be reached: in every build (`SearchLost`), and by the check of
  a debugging build (`FrameOverlooked`). Without the second the middle of a packet can be taken
  for its end (`MiddleTakenForEnd`).
- A receive packet as long as the ring would never be given back (`FrameLimit`).
- `enableAdapter` leaves the provider open if the medium cannot be selected, although the level
  stays 0 (`stranded` in `Activation`).
- `mbuf_packet` writes a descriptor's length after it has given the descriptor away. The value
  is the one already there, so the controller cannot tell; `ReturnBuffer` has the same order.

## Left out

- ReceiveEngine.Receiver.LncRint: takes the allocation of a packet to succeed, because otherwise the property is false; `AllocationFailure` has the exact condition.
- RxLayout.Chunk.Proper: frames below 16 bytes are not modelled, because the source address would be read beyond the packet; the controller drops such runts.
- TransmitEngine.Transmitter.LncTint: with status words read again for every test it covers packets of at most two descriptors; `Races` has the exact condition.
- TransmitEngine.Transmitter.LncStart: the shared-memory mode and the queue's timer are not modelled.
- AdapterEngine.Adapter.Run: a flag raised after the last scan of a ring may be cleared with its packet still there, so it is not claimed that no interrupt is lost; the next handler run that is told of a packet deals with those left behind, too (`LncIntr`).
- Endless activity of the controller: `budget` is finite, so nothing is said about a handler that never catches up.
- The contents of the padding of a short chain: `lnc_start` lengthens the last descriptor only, so it is whatever follows in memory (`Stray`).
- Transmit lengths beyond 12 bits: counts are integers.
- Statistics counters other than receive errors, and messages.
- Extended status bits other than UFLO, and the clearing of TBUFF, which only affects messages.
- The quirk of some 79C965 revisions that clear a receive descriptor's length.
- The write of the filter to CSR8-11 in `lnc_set_multicast`, which indexes outside the filter's eight bytes.
- `lnc_down` and the RUNNING flag, whose test is mis-parenthesised.
- Chip reset without initialisation (`initAdapter(kResetChip)`) as far as the rings are concerned.
- The library CRC that `pcnet32_load_multicast` calls; it is taken to be the bit-serial form.
- Addresses near the end of the 32-bit address space in `MemoryMap`.
- IOKit, PCI, register access widths, PHY and LED code, the FreeBSD receive path with mbuf chains, and `pcnet32-sanos.c`.
