# CoreModel client: a model and its proofs

CoreModel connects device models on a host to a virtual machine. One byte stream carries the traffic of
many virtual bus interfaces. This project models the client library `coremodel.c` and two of its example
devices, in the imperative form of the source where the source changes state in place, and proves what
the library is for over whole runs:

- **Link.** Packets are padded to 4 bytes, queued in a linked list and written in pieces; the receiver
  reads pieces into a 4096-byte ring with free-running 32-bit counters and cuts packets out of it.
  `Wire`, `RxRing`, `TxQueue`, `LinkRuns`, `LinkEnds`.
- **Interfaces.** Each interface has a linked queue and a scan that may remove, skip, stop or start over.
  `Protocol` says what each bus does with a packet, `Ports` is the object that does it, and every method of
  it is proved equal to its part of `Protocol`. Whole runs (`PortRuns`) are then studied bus by bus:
  USB (`UsbRuns`), I2C, SPI, UART and Ethernet data (`TransferRuns`), GPIO and events (`NoticeRuns`), stalls
  and what ends them (`StallRuns`), CAN (`CanRuns`), credits (`CreditRuns`) and what the peer gets to see of
  what the host sends (`SendRuns`). `Books` and `Counting` do the bookkeeping.
- **Connection.** Attach, early packets and their deferral (`Hub` for the protocol, `Connection` for the
  objects), listing devices page by page (`DeviceList`), and waking the sleeping loop (`Wakeup`).
- **Example devices.** The sample FIFO of the ADXL36x accelerometer (`AdxlFifo`, `AdxlRuns`) and control
  transfers of the USB keyboard (`UsbControl`, `UsbControlRuns`).

The environment is arbitrary. Callback number n of an interface answers `dev(n)`, for any function `dev`,
which also says what the callback sends to the VM; the socket moves any nonempty piece of what is offered;
allocation may fail at any packet; packets, ready calls, resets, sends by other threads and acknowledgements
come in any order. A callback the source treats as absent answers with a constant, which is one of these
functions. Histories are kept in a `log` and an `out` list beside the source's fields.

## What the proofs need

- Frames have a length field of at least 8. With 0 the receive loop makes no progress, and with 1 to 7
  the header is cut short. Frames sent by the library always qualify.
- Callbacks do not call `*_ready`, attach, detach or the main loop. They may send on their own interface, any
  number of times, and that is part of every run; what they push elsewhere is part of `Wakeup`. A data callback
  returns a count between 0 and what was asked for; where the source tests for a negative answer (I2C start
  and write, USB) it may return one.
- The memory budget of a drain counts packets taken out of the ring, whether or not each would need memory;
  this only adds runs.
- USB tokens are OUT, IN and SETUP. For a UART send 8 plus the length fits 16 bits, and so it does for an
  Ethernet frame.
- In `UsbControl` a SETUP carries 8 bytes, endpoint numbers have 4 bits, as the library delivers them, and no
  piece of a data stage leaves the 512-byte endpoint buffer; what that takes is stated exactly.
- In the ADXL readout with 12-bit packing fewer than 2^32 bytes are read.

## Where the code falls short of its intent

For each of these the lemma named first says for all inputs when the code does what it should, and the one
behind it shows an input for which it does not.

- A frame whose padded length exceeds the ring blocks the stream for good. The ring has room again after a
  drain if and only if no such frame fills it (`RxRing.DrainMakesRoom`; in runs `LinkRuns.RoomAlways`,
  `LinkRuns.OversizeRun`, `LinkRuns.OversizeExample`).
- A UART or Ethernet `tx` that returns 0 with bytes to take loses the packet, and an I2C write refused
  half-way leaves `offs` behind, and an SPI transfer runs past the 512-byte read buffer if its payload does
  not fit. Every packet is served if and only if none of this happens (`TransferRuns.ServedIffClean`,
  `TransferRuns.SpiInsideIff`; `TransferRuns.StallLoses`, `TransferRuns.RefusalSpoils`,
  `TransferRuns.LargeSpiSpoils`).
- An I2C read or an SPI transfer of no bytes is never answered: a device that moves at most what it is offered
  moves nothing, which counts as a stall. After any clean run, with a device that moves a byte in each callback,
  ready calls empty the queue if and only if no such transfer, and no I2C write of no bytes, is queued
  (`StallRuns.QueueEmpties`; `StallRuns.NeverAnswered`, `StallRuns.VoidExample`).
- The length test of a CAN frame is 8 short (`CanRuns.LengthTestGap`; `CanRuns.LengthTestGapExample`).
- `coremodel_can_rx` does not notice a failed push: the frame is lost, and no other is ever sent
  (`CanRuns.LostIff`, `CanRuns.LostFrameBlocks`; `CanRuns.LostFrameExample`).
- `coremodel_eth_rx` returns 0 without credit although the frame is dropped, where coremodel.h:318 promises 1
  (`CreditRuns.EthResultIff`; `CreditRuns.EthDropsUnseen`).
- `coremodel_eth_rx` tests the credit before it takes the lock. Credit is conserved all through a run if and
  only if no thread takes the lock after the credit is gone (`CreditRuns.ConservedIff`, `CreditRuns.LockedIff`;
  `CreditRuns.RaceExample`). UART tests under the lock.
- A second thread in attach or list makes the sleeping loop miss a packet (`Wakeup.PushNoticedIff`;
  `Wakeup.SecondLoopLosesWakeup`).
- A list index of 0x8000 or more loses its top bit or turns the request into another
  (`DeviceList.RequestMeaning`; `DeviceList.RequestExample`).
- A lone trailing sample breaks the 12-bit readout of the accelerometer: the bytes of a run are right if and only
  if every middle byte was made from the high bits of the right sample (`AdxlRuns.Readout12Iff`,
  `AdxlRuns.LonePair`; `AdxlRuns.LoneSampleExample`), and `sample_count` drifts in 12- and 16-bit packing (`AdxlRuns.ReadCounted`;
  `AdxlRuns.CountWrapsIn16Bits`).
- The keyboard's configuration descriptor gives the length the host asked for as its total length, where
  examples/README.md:147 shows the full 34 bytes (`UsbControlRuns.ConfigTotalIff`;
  `UsbControlRuns.ShortConfigExample`).
- A refused request is followed by the data of an earlier one, as the log at examples/README.md:137-145 also
  shows (`UsbControlRuns.RefusedRead`; `UsbControlRuns.RefusedExample`).
- The keyboard never compares the length of a request with its endpoint buffer
  (`UsbControlRuns.WriteInsideIff`, `UsbControlRuns.ReadInsideIff`; `UsbControlRuns.WriteOutside`,
  `UsbControlRuns.ReadOutside`).

Two more are latent, since nothing in the program brings them about:

- All three axes of the accelerometer are sampled from the first. The set stored is the one selected if and
  only if the others agree with it as far as the packing keeps them (`AdxlFifo.Adxl.SampledIff`;
  `AdxlFifo.Adxl.WrongAxes`). The readings of this program are always equal.
- The accelerometer's reset does not clear `fifo_count`, and leaves the FIFO sound if and only if it was zero
  (`AdxlFifo.Adxl.Reset`). The program resets once, at start, when it is.

The branch for a length field split over the end of the ring (coremodel.c:1312) is never taken, as
`RxRing.Ring.PeekLen` shows.

## Model

The run theorems and the exact conditions come first, then the lemmas they rest on, then the methods, each
proved equal to the step that the theorems are about, and at the end helpers that unfold one definition.

| member | source | states |
|---|---|---|
| `LinkRuns.FramingSafe` | coremodel.c:300-331 | In every run of pushes, partial writes, partial reads and drains, the packets dispatched are the first pushed, in order and once each, less the oversized; the bytes under way are exactly the frames of the others. |
| `LinkRuns.FramingComplete` | coremodel.c:1270-1338 | Once everything has arrived, a drain with memory has dispatched all that was pushed, so that a failed allocation only delays. |
| `LinkRuns.RoomAlways` | coremodel.c:1310-1338 | In every reachable state, if every packet pushed fits the ring, a drain with memory leaves it with room, so that reading is never shut out. |
| `LinkRuns.Delivered` | coremodel.c:1270-1476 | From any reachable state in which every packet pushed fits the ring, after as many rounds of drain, write and read as there are bytes to go (weighed by their way), everything has been dispatched and nothing is left, however little moves in a round. |
| `RxRing.DrainMakesRoom` | coremodel.c:1371-1375 | After a drain that finds memory the occupancy is strictly below 4096, so reading resumes, if and only if no frame larger than the ring fills it. |
| `LinkRuns.OversizeRun` | coremodel.c:1317-1323 | A packet larger than the ring, wherever in a run it is pushed, blocks the stream: in every state only packets pushed before it have been consumed. |
| `LinkRuns.OversizeBlocks` | coremodel.c:1317-1323 | A frame larger than the ring ends all reading and dispatching, whatever happens later. |
| `LinkRuns.OversizeExample` | coremodel.c:1317-1323 | Such a run, with a small packet behind the large one. |
| `Ports.Interface.AdvanceIf` | coremodel.c:1213-1268 | The pointer scan ends for every device and computes the scan of the queue as a sequence; a deferred interface is left alone. |
| `UsbRuns.UsbScheduling` | coremodel.c:889-971 | Over every run each transfer is queued, answered by one DONE that echoes it and conveys the answer of the device, or discarded for a later reset; DONEs of one endpoint and token are in arrival order; between calls busy is 0, no reset is queued and every queued transfer is paused. |
| `UsbRuns.ResetBarrier` | coremodel.c:897-910 | A reset reached by a scan discards exactly the transfers ahead of it, none behind it, calls rst once and clears every pause. |
| `UsbRuns.XferOutcome` | coremodel.c:908-955 | What a transfer reached outside a flush leads to, answer by answer: a paused one is not offered; of those offered exactly the ones answered with -1 are kept, and pause their slot; any other leaves with one entry, which but for SETUP is the DONE that conveys the answer. |
| `UsbRuns.PausesExact` | coremodel.c:889-971 | Over every run a pause bit is set if and only if `xfr` has answered -1 to a transfer of that endpoint and token, and there was no usbh_ready for them and no reset since. |
| `StallRuns.BusyIff` | coremodel.c:611-847 | Over every run on any other bus `busy` is set if and only if some callback moved nothing and there was no ready call since. |
| `StallRuns.StallHolds` | coremodel.c:626-847 | While a stall stands, whatever else happens, no data packet is offered to the device, each callback made belongs to another packet, and data packets stay queued. |
| `StallRuns.Resumes` | coremodel.c:611-619 | A ready call on an attached interface asks the device again, first of all about the packet at the head. |
| `StallRuns.NothingWaits` | coremodel.c:1213-1268 | Over every run an attached interface with packets queued is stalled, or has just moved part of the packet at the head. |
| `StallRuns.QueueEmpties` | coremodel.c:611-847 | After any clean run, with a device that from then on moves at least a byte per callback, as many ready calls as there are bytes and packets to go leave the queue empty, if and only if no I2C or SPI transfer of no bytes is queued. |
| `StallRuns.NeverAnswered` | coremodel.c:751-766 | Once an I2C read or SPI transfer of no bytes is at the head, it and all behind it stay queued in every continuation, whatever the device answers. |
| `StallRuns.VoidExample` | coremodel.c:751-766 | A run that starts with such a read. |
| `TransferRuns.TransfersExact` | coremodel.c:701-847 | In every clean run the pieces of each request concatenate to exactly its payload, each request that asks for an answer has exactly one with its own index, in request order, reads and SPI transfers carry exactly the requested number of bytes, and START, STOP, chip select and BREAK make one callback each. |
| `TransferRuns.ServedIffClean` | coremodel.c:626-847 | All packets dealt with are served, and no SPI transfer is past the read buffer, if and only if no I2C write was refused half-way, no UART or Ethernet `tx` returned 0 with bytes to take, and no SPI transfer ran past the read buffer. |
| `TransferRuns.SpiInsideIff` | coremodel.c:822-843 | An SPI transfer that completes stays inside the read buffer if and only if its payload fits it. |
| `TransferRuns.StallLoses` | coremodel.c:633-641 | A run that loses a UART packet to a stall. |
| `TransferRuns.RefusalSpoils` | coremodel.c:736-746 | A run that refuses an I2C write half-way, with offs left at 1. |
| `TransferRuns.LargeSpiSpoils` | coremodel.c:822-843 | A run that moves 600 bytes in three pieces, of which the last runs past the read buffer. |
| `CanRuns.StopAndWait` | coremodel.c:1006-1059 | In every reachable state of host and peer, with sends between scans and from any callback within one, at most one host frame is outstanding, in exactly one place, which may be lost for want of memory; every acknowledgement under way carries the current index; frames accepted are completions plus the outstanding one. |
| `CanRuns.FramesAcknowledged` | coremodel.c:983-1005 | Each packet from the VM is queued or settled once, a frame by the one acknowledgement with its index and the verdict of the device, in order across stalls, whatever the callbacks send meanwhile. |
| `CanRuns.StallStands` | coremodel.c:983-1001 | In every reachable state `busy` is set if and only if the device has answered CAN_STALL and there was no ready call since, and then the frame that was stalled is the first packet queued and the last that was offered. |
| `CanRuns.NotOffered` | coremodel.c:983-1001 | Whatever arrives behind a stalled frame, no frame is offered to the device: each callback made belongs to another packet, and the frames stay queued. |
| `CanRuns.FrameResumes` | coremodel.c:611-619 | The ready call offers the stalled frame again, and with a device that does not stall any more it empties the queue. |
| `CanRuns.AckOvertakes` | coremodel.c:983-1012 | An acknowledgement that arrives behind a frame stalled earlier in the run is acted on at once: one more send has completed, and nothing is outstanding but what a callback has sent in the same scan, with the frame still stalled. |
| `CanRuns.AckOvertakesExample` | coremodel.c:983-1012 | Such a run: a stalled frame of the VM, a frame of the host, and its acknowledgement. |
| `CanRuns.LostIff` | coremodel.c:1040-1058 | A send that is accepted loses its frame if and only if the push fails. |
| `CanRuns.LostFrameBlocks` | coremodel.c:1040-1058 | After a lost frame no send completes and none is accepted, between scans or within, in every continuation of every run. |
| `CanRuns.LostFrameExample` | coremodel.c:1040-1058 | A run that loses a frame. |
| `CreditRuns.CreditConserved` | coremodel.c:553-568 | In every reachable state, with sends between scans, from any callback and from racing threads that still find credit, credit, data in flight, data buffered by the peer and credit on its way back add up to the grant; the peer is never overrun. |
| `CreditRuns.ConservedIff` | coremodel.c:1192-1202 | These parts add up all through a run if and only if no thread takes the lock of an Ethernet send when the credit is gone. |
| `CreditRuns.LockedIff` | coremodel.c:1196-1202 | The locked part keeps the total if and only if there still is credit when it runs or it has no memory; otherwise the counter wraps. |
| `CreditRuns.RaceExample` | coremodel.c:1192-1202 | Two threads test one credit and both send: the credit is 2^32 - 1. |
| `CreditRuns.ReadyFires` | coremodel.c:643-650 | From no credit, whatever credit comes in, rxrdy has been called on the way, also if callbacks or threads have spent it again. |
| `SendRuns.UartStream` | coremodel.c:661-689 | A sender that offers the rest again after each call, in any states and with failing pushes in between, has put UART packets of its connection on the wire whose payloads concatenate to exactly the front of its data that the results add up to, as much as there was credit for. |
| `SendRuns.StreamOnWire` | coremodel.c:661-689 | The same over every run of the two parties: what has gone to the peer is that front. |
| `SendRuns.FramesOnWire` | coremodel.c:1182-1206 | Over every run the peer gets exactly the Ethernet frames sent with credit and memory, whole and in order, those of threads that take the lock later included. |
| `SendRuns.CanOnWire` | coremodel.c:1024-1059 | Over every run each CAN frame that is accepted, and no other, becomes one packet, in order, indexed by its number modulo 256, from which the control words and as many data bytes as they say read back. |
| `CreditRuns.EthResultIff` | coremodel.c:1192-1205 | The result of an Ethernet send is 0 exactly when the frame was sent, if and only if there was credit. |
| `CreditRuns.EthDropsUnseen` | coremodel.c:1192-1205 | Runs in which it is not: without a grant any number of frames is reported sent and none leaves. |
| `Wakeup.NoLostWakeup` | coremodel.c:317-329 | No wake-up is lost, and a push while the loop sleeps is noticed whatever was noticed before. |
| `Wakeup.SecondLoopLosesWakeup` | coremodel.c:1393-1403 | With a second loop in attach or list the claim fails. |
| `Hub.EarlyPackets` | coremodel.c:1292-1353 | From the response until the attach returns no callback runs and every packet for the interface is queued in order; the next preparefds scans all of them from the first. |
| `Hub.CaughtUp` | coremodel.c:1383-1387 | Outside an attach the next preparefds leaves no packet deferred. |
| `Hub.DeferralHolds` | coremodel.c:476-551 | That invariant, and that nothing has happened on an interface whose attach is under way, in every reachable state, with ready calls of every kind. |
| `Hub.EachAlone` | coremodel.c:1270-1302 | Over every run in which its number is not given to another, an interface goes through exactly the inputs addressed to it, in order, as if it were alone. |
| `NoticeRuns.UpdatesTold` | coremodel.c:859-868 | Over every run on a GPIO or event interface each update makes one callback, in order of arrival, and once attached none waits. |
| `DeviceList.ListDevices` | coremodel.c:333-406 | Against a server with any page sizes the result is exactly the server's list with its terminator, after at most one response more than it has entries. |
| `AdxlRuns.QueueAlways` | examples/i2c-adxl36x/coremodel-adxl36x.c:150-360 | Over every mix of layouts, packings, samples and reads the queue is the end of what was stored, in order, and holds at most 2048. |
| `AdxlRuns.Readout8` | examples/i2c-adxl36x/coremodel-adxl36x.c:913-919 | In 8-bit packing the bytes read are the low halves of the samples used up, one for one and in order. |
| `AdxlRuns.Readout16` | examples/i2c-adxl36x/coremodel-adxl36x.c:940-952 | In 16-bit packing the bytes read are always those of the samples used up, in order, and possibly half of the next; whole, they give the samples back. |
| `AdxlRuns.Readout12` | examples/i2c-adxl36x/coremodel-adxl36x.c:920-938 | Over every mix of samples and reads with that proviso the bytes are those of the pairs used up, in order, and whole triples give the samples back. |
| `AdxlRuns.Readout12Iff` | examples/i2c-adxl36x/coremodel-adxl36x.c:920-938 | Over every run in 12-bit packing, between triples, the bytes read are those of the samples used up if and only if each middle byte was made from a value with the high bits of the second sample of its pair. |
| `AdxlRuns.MidReady` | examples/i2c-adxl36x/coremodel-adxl36x.c:926-931 | A middle byte read with two samples queued was made from the second sample of its pair. |
| `AdxlRuns.LonePair` | examples/i2c-adxl36x/coremodel-adxl36x.c:926-931 | From any state: if the middle byte is read with one sample queued, the readout is exact after the third byte if and only if the stale slot has those bits. |
| `AdxlRuns.LoneSampleExample` | examples/i2c-adxl36x/coremodel-adxl36x.c:926-931 | Such a run, from power-up, that gives a wrong sample. |
| `AdxlRuns.CountExact` | examples/i2c-adxl36x/coremodel-adxl36x.c:913-957 | In 8-bit packing with a fixed layout sample_count is the ceiling of fifo_count over sample_size in every reachable state. |
| `AdxlRuns.ReadCounted` | examples/i2c-adxl36x/coremodel-adxl36x.c:954-957 | A byte read keeps it if and only if it uses a sample up or the queued samples do not make whole sets. |
| `AdxlRuns.CountWrapsIn16Bits` | examples/i2c-adxl36x/coremodel-adxl36x.c:954-957 | In 16-bit packing one sample and two reads take it below zero. |
| `AdxlFifo.FirstAxisIff` | examples/i2c-adxl36x/coremodel-adxl36x.c:178-203 | A set made of the first axis alone is the selected one if and only if each other axis that is selected agrees with the first in the bits its packing keeps. |
| `AdxlFifo.Adxl.SampledIff` | examples/i2c-adxl36x/coremodel-adxl36x.c:178-203 | The same about the state of the device: the set it stores is the selected one if and only if that holds of its readings. |
| `AdxlFifo.Adxl.WrongAxes` | examples/i2c-adxl36x/coremodel-adxl36x.c:178-203 | A state in which it is not. |
| `UsbControlRuns.DescriptorRead` | examples/usbh/coremodel-usbh.c:174-280 | For a supported request any sequence of read sizes gives the front of the reply, each further read the next piece, a short packet exactly when it asks past the end, then nothing. |
| `UsbControlRuns.ConfigTotalIff` | examples/usbh/coremodel-usbh.c:196-201 | A host that asks for 4 bytes or more of the configuration descriptor reads its total length right if and only if it asks for all of it. |
| `UsbControlRuns.ShortConfigExample` | examples/usbh/coremodel-usbh.c:196-201 | The 9-byte request reads a total length of 9. |
| `UsbControlRuns.RefusedRead` | examples/usbh/coremodel-usbh.c:186-280 | After a refused request reads are served with what the buffer held, and return nothing only if nothing is asked for. |
| `UsbControlRuns.RefusedExample` | examples/usbh/coremodel-usbh.c:186-280 | Ten bytes of the device descriptor in answer to a request for another. |
| `UsbControlRuns.ControlWrite` | examples/usbh/coremodel-usbh.c:174-273 | A whole write inside the buffer: the data taken, exactly three requests accepted at the status stage, and a new address only then. |
| `UsbControlRuns.WriteInsideIff` | examples/usbh/coremodel-usbh.c:238-243 | The next piece of a write stays inside the endpoint buffer if and only if all that is sent, up to wLength, fits it. |
| `UsbControlRuns.ReadInsideIff` | examples/usbh/coremodel-usbh.c:275-280 | Reads of a known descriptor always stay inside; of a refused request if and only if all that is asked for, up to wLength, lies in the buffer. |
| `UsbControlRuns.WriteOutside` | examples/usbh/coremodel-usbh.c:238-243 | A request of 1024 bytes, sent at once, does not. |
| `UsbControlRuns.ReadOutside` | examples/usbh/coremodel-usbh.c:275-280 | Nor does the second read of 512 bytes after a refused request for 1024. |
| `UsbControlRuns.OverUntilSetup` | examples/usbh/coremodel-usbh.c:229-251 | After the status stage endpoint 0 stalls until the next SETUP, whatever else goes on. |
| `Wire.DecodeFrame` | coremodel.c:300-315 | Reading the header and payload of a padded frame gives back the packet, whatever follows it on the stream. |
| `Wire.FramesConcat` | coremodel.c:300-319 | The stream of a list of packets is the streams of its parts, one after the other. |
| `RxRing.WindowExtend` | coremodel.c:1422-1442 | Writing a piece at the write position modulo 4096 appends it to the occupied bytes and touches no other, through wrap-around. |
| `LinkRuns.DrainPrefix` | coremodel.c:1304-1338 | Draining any prefix of a stream of frames takes whole packets off its front, less the oversized ones, and leaves the start of the next. |
| `LinkRuns.PrefixHeadersOk` | coremodel.c:1310-1320 | Bytes of a stream that the library wrote never stop the receive loop: every header that has arrived is a real one. |
| `Protocol.AdvanceMeasure` | coremodel.c:896-916 | Only a reset that begins the flush asks to start over, and a skip never ends a flush: what makes the scan end. |
| `StallRuns.StalledScan` | coremodel.c:1213-1268 | A scan during a stall offers no data packet and removes none. |
| `StallRuns.ScanRests` | coremodel.c:1213-1268 | Where a scan comes to rest. |
| `StallRuns.ScanDrains` | coremodel.c:1213-1268 | A scan that is not stalled leaves strictly fewer bytes and packets to go, unless a transfer of no bytes is at the head. |
| `StallRuns.CanQueueEmpties` | coremodel.c:983-1005 | One ready call has the whole queue dealt with by a CAN device that does not stall again. |
| `StallRuns.HandsOver` | coremodel.c:626-847 | The device gets exactly as many of the bytes offered as it says it takes, at most 256 at a time on SPI, and the offset moves on by as many. |
| `StallRuns.TakesIn` | coremodel.c:751-847 | The bytes that the device makes are taken as it made them. |
| `UsbRuns.FlushStep` | coremodel.c:897-910 | Each step of a flush takes the packet at the front: a transfer is discarded, the reset ends the flush. |
| `UsbRuns.DoneEchoes` | coremodel.c:937-954 | A DONE echoes the index and the low 15 bits of the flags, and conveys the answer of the device: the bytes of an IN, the count of an OUT, or failure. |
| `UsbRuns.RemovalStep` | coremodel.c:908-955 | A transfer answered outside a flush has nothing of its own endpoint and token ahead of it. |
| `UsbRuns.SkipState` | coremodel.c:913-935 | A transfer that stays queued has its pause bit set and changes nothing else. |
| `UsbRuns.ScanKeeps` | coremodel.c:1213-1268 | Every scan keeps the invariant and ends with no reset queued and every transfer paused. |
| `UsbRuns.RunSound` | coremodel.c:1213-1302 | The invariant in every reachable state. |
| `UsbRuns.FlushRuns` | coremodel.c:897-910 | A flush discards everything up to the reset and calls rst once. |
| `TransferRuns.StartProgress` | coremodel.c:712-725 | START leads to exactly one answer if flagged, which says whether the device refused, and none otherwise. |
| `TransferRuns.NakProgress` | coremodel.c:736-742 | A write refused before any of it was accepted is answered as refused and gives the device nothing. |
| `TransferRuns.WriteProgress` | coremodel.c:727-749 | What the device has accepted of a write is always a prefix of the payload, and all of it when it is done. |
| `TransferRuns.ReadProgress` | coremodel.c:751-766 | What the device has produced is always the front of the read buffer, and the answer is exactly that, of the length asked for. |
| `TransferRuns.SpiProgress` | coremodel.c:822-843 | Both directions at once: pieces given and produced keep step, and the answer is what was produced. |
| `TransferRuns.StreamProgress` | coremodel.c:621-659 | UART and Ethernet payloads reach the device whole when `tx` does not stall. |
| `TransferRuns.HeadProgress` | coremodel.c:621-847 | Every call for the packet at the head serves it or moves it on, on all four buses. |
| `TransferRuns.OwnEntries` | coremodel.c:621-847 | A handler acts on behalf of its own packet only. |
| `TransferRuns.ScanKeeps` | coremodel.c:1213-1268 | Every scan keeps exact delivery, or keeps the evidence that it was lost. |
| `TransferRuns.FirstSpoilt` | coremodel.c:736-742 | The packet of a half-way refusal or of a stalled `tx` is removed unserved. |
| `CanRuns.HostStep` | coremodel.c:983-1012 | The handler, with any sends of its callback, keeps the acknowledgements under way equal to the frames outstanding. |
| `CanRuns.HostScan` | coremodel.c:1213-1268 | So does a whole scan; it accepts a frame only if nothing was outstanding elsewhere. |
| `CanRuns.CompletesIff` | coremodel.c:1006-1011 | An acknowledgement completes a send if and only if it carries the current index; any other changes nothing. |
| `CanRuns.FrameLength` | coremodel.c:973-989 | The data length by the low 11 bits of the control words. |
| `CanRuns.SendHost` | coremodel.c:1024-1059 | A send is accepted only when nothing is outstanding, so the new index meets no old acknowledgement, whether or not the push succeeds. |
| `CanRuns.VmScan` | coremodel.c:983-1005 | A scan keeps the books of VM frames, and one that starts stalled leaves nothing but frames. |
| `CreditRuns.CreditStep` | coremodel.c:643-650 | The handler takes in exactly the credit returned, held or spent by its callbacks, and calls rxrdy when that lifts it from zero. |
| `CreditRuns.AnnouncedIff` | coremodel.c:643-650 | rxrdy is called if and only if an acknowledgement finds no credit. |
| `CreditRuns.CreditInHand` | coremodel.c:643-650 | That callback can already spend the new credit. |
| `SendRuns.EthSend` | coremodel.c:1182-1206 | One Ethernet send in any state: the whole frame goes out if there is credit and memory. |
| `SendRuns.CanSend` | coremodel.c:1024-1059 | One CAN send in any state is accepted if and only if none is outstanding and its data is there, and gets the next index. |
| `CreditRuns.CreditScan` | coremodel.c:1213-1268 | Over a scan credit held, spent by callbacks and queued adds up to the same, and rxrdy was called if any came in on none. |
| `CreditRuns.SendConserves` | coremodel.c:661-689 | A send between scans moves credit into flight, byte by byte on UART and frame by frame on Ethernet. |
| `Wakeup.AsleepWakes` | coremodel.c:1355-1415 | In every run without a second loop, a sleeping loop with packets queued is armed or has a wake byte, it sleeps exactly while need_wake stands, and it asks for a writable socket only with packets queued. |
| `Hub.StepAlone` | coremodel.c:1270-1302 | One step does to an interface what its own input does, and nothing if it has none. |
| `Hub.StepDeferral` | coremodel.c:1299-1300 | Every step keeps: outside an attach a deferred interface with packets queued implies that the connection knows. |
| `DeviceList.FrontEncoded` | coremodel.c:452-464 | Reading the first entry inverts its padded encoding. |
| `DeviceList.ParseEncoded` | coremodel.c:435-465 | Reading a page gives back its entries. |
| `DeviceList.PageExtends` | coremodel.c:440-466 | A nonempty page turns a terminated prefix of the server's list into a longer one. |
| `Wire.HeaderBytes` | coremodel.c:31-38 | Each header field of a frame at its own place, little-endian, then the payload and zeros. |
| `AdxlFifo.LayoutBits` | examples/i2c-adxl36x/coremodel-adxl36x.c:205-354 | The two low bits of a channel selection pick the axes, the two high ones the temperature or a zero behind them. |
| `UsbControlRuns.ConfigChain` | examples/usbh/coremodel-usbh.c:67-104 | The configuration is a chain of descriptors that ends where it should, and names the length of the report descriptor. |
| `UsbControlRuns.ReportOnce` | examples/usbh/coremodel-usbh.c:282-289 | A report is given once: the first interrupt transfer gets it, after any control transfers, and from then on each is told to wait. |
| `AdxlFifo.SlotsPut` | examples/i2c-adxl36x/coremodel-adxl36x.c:205-216 | Storing at the write position appends to the queue, through wrap-around of ring and counters. |
| `AdxlFifo.SlotsPop` | examples/i2c-adxl36x/coremodel-adxl36x.c:916-918 | Advancing the read position drops the oldest sample. |
| `AdxlRuns.PhaseCounts` | examples/i2c-adxl36x/coremodel-adxl36x.c:954-958 | Over every run in any packings read_count is the number of bytes read, modulo 2^32. |
| `AdxlRuns.SampleIff` | examples/i2c-adxl36x/coremodel-adxl36x.c:205-354 | A set is stored whole if the FIFO has room for it, and not at all otherwise. |
| `AdxlRuns.RoundTrip16` | examples/i2c-adxl36x/coremodel-adxl36x.c:940-952 | Two bytes a sample give the samples back. |
| `AdxlRuns.RoundTrip12` | examples/i2c-adxl36x/coremodel-adxl36x.c:920-938 | Three bytes for two 12-bit samples give both back. |
| `AdxlRuns.Byte12` | examples/i2c-adxl36x/coremodel-adxl36x.c:920-938 | Each byte is the next of the triple, as long as the second sample of the pair is there when the middle byte is read. |
| `AdxlRuns.Readout12With` | examples/i2c-adxl36x/coremodel-adxl36x.c:920-938 | Over every run the bytes read are those of the samples used up, with middle bytes made from what stood in the slot behind, and at most two bytes of the next pair. |
| `AdxlRuns.LoneSample` | examples/i2c-adxl36x/coremodel-adxl36x.c:926-931 | A triple whose middle byte was made from a stale slot gives the pair back if and only if that slot has the second sample's high bits. |
| `AdxlRuns.StoreCounted` | examples/i2c-adxl36x/coremodel-adxl36x.c:205-354 | Sampling keeps sample_count the number of sets queued. |
| `UsbControlRuns.PreparedReply` | examples/usbh/coremodel-usbh.c:190-221 | What SETUP leaves at the front of the endpoint buffer is the reply the host is owed. |
| `UsbControlRuns.ReadPrefix` | examples/usbh/coremodel-usbh.c:275-280 | Reads of any sizes, with traffic on other endpoints in between, give the front of the buffer in order. |
| `UsbControlRuns.WritePrefix` | examples/usbh/coremodel-usbh.c:238-243 | Pieces of any sizes are taken in order up to the announced length. |
| `RxRing.Ring.Fill` | coremodel.c:1422-1442 | One read appends exactly its piece to the unread bytes and keeps occupancy within 0..4096. |
| `RxRing.Ring.CopyOut` | coremodel.c:1326-1332 | The packet handed on is the front of the unread bytes, also when it is split over the end of the ring. |
| `RxRing.Ring.Consume` | coremodel.c:1317-1336 | Advancing the 32-bit read counter drops exactly those bytes, and keeps it a multiple of 4. |
| `RxRing.Ring.Receive` | coremodel.c:1417-1443 | The read loop takes all that is available or fills the ring, for every sequence of read lengths, and appends it in order. |
| `RxRing.Ring.PeekLen` | coremodel.c:1311-1316 | The length is that of the next header, and its two bytes never straddle the end of the ring. |
| `RxRing.Ring.Round` | coremodel.c:1310-1337 | One round skips an oversized frame whole, hands on one packet, or stops and changes nothing. |
| `RxRing.Ring.ProcessRxq` | coremodel.c:1304-1338 | The loop hands on what draining the unread bytes as a plain string gives, and leaves what that leaves, wherever memory runs out. |
| `TxQueue.Queue.Link` | coremodel.c:317-318 | Appending through the last next-slot extends the list by one buffer and changes no other. |
| `TxQueue.Queue.Push` | coremodel.c:300-331 | A packet adds exactly its padded frame to the unwritten bytes and wakes a sleeping loop; without memory nothing changes. |
| `TxQueue.Queue.Unlink` | coremodel.c:1470-1475 | Removing the first buffer keeps the list, and the append slot when it becomes empty. |
| `TxQueue.Queue.Advance` | coremodel.c:1450-1470 | One partial write moves exactly its bytes from the unwritten to the written. |
| `TxQueue.Queue.Flush` | coremodel.c:1448-1476 | The write loop sends a prefix of the unwritten bytes, all of it if the socket takes it, for every sequence of write lengths. |
| `LinkEnds.Ends.Push` | coremodel.c:300-331 | Pushing on the real queue is the push step of the runs, or no step and an error without memory. |
| `LinkEnds.Ends.Write` | coremodel.c:1448-1476 | Writing from the real queue is the write step of the runs. |
| `LinkEnds.Ends.Read` | coremodel.c:1417-1443 | Reading into the real ring is the read step of the runs. |
| `LinkEnds.Ends.Drain` | coremodel.c:1304-1338 | Draining the real ring is the drain step of the runs. |
| `Ports.Interface.AdvanceGiveAll` | coremodel.c:626-641 | UART and Ethernet data: hands over the rest of the payload, remembers a partial accept, and on a stall marks the interface busy and lets the packet go. |
| `Ports.Interface.AddCredits` | coremodel.c:643-650 | Returned credit is added in 32 bits; rxrdy is called if there was none. |
| `Ports.Interface.AdvanceIfUart` | coremodel.c:621-659 | The UART handler, branch by branch. |
| `Ports.Interface.AdvanceIfEth` | coremodel.c:1148-1180 | The Ethernet handler, branch by branch. |
| `Ports.Interface.I2cStart` | coremodel.c:712-725 | START: stall, or an answer that says whether the device acknowledged, if flagged. |
| `Ports.Interface.I2cWrite` | coremodel.c:727-749 | WRITE: stall, refusal, partial accept or completion, with the answer that belongs to it. |
| `Ports.Interface.I2cRead` | coremodel.c:751-766 | READ: stall, partial or complete, the answer carrying the bytes collected in the read buffer. |
| `Ports.Interface.AdvanceIfI2c` | coremodel.c:701-775 | The I2C handler, branch by branch; nothing happens while busy. |
| `Ports.Interface.AdvanceIfSpi` | coremodel.c:812-847 | The SPI handler: chunks of at most 256 bytes, one answer at the end. |
| `Ports.Interface.SpiMove` | coremodel.c:829-836 | Bytes go both ways: stored at the offset if they fit, and noted if they do not. |
| `Ports.Interface.UsbhTransfer` | coremodel.c:908-955 | A transfer outside a flush: SETUP lifts its own pause, a paused one is skipped, the answer -1 pauses, any other is reported. |
| `Ports.Interface.MakeDone` | coremodel.c:937-954 | The packet that reports a finished transfer. |
| `Ports.Interface.AdvanceIfUsbh` | coremodel.c:889-958 | The USB handler with the two visits to a reset: first start over and flush, then clear and call rst. |
| `Ports.Interface.AdvanceIfCan` | coremodel.c:975-1016 | The CAN handler: frames are skipped while stalled, and an acknowledgement counts only if it carries the current index. |
| `Ports.Interface.AdvanceOne` | coremodel.c:1223-1250 | The switch over the interface type. |
| `Ports.Interface.Remove` | coremodel.c:1253-1258 | Unlinking a packet removes exactly it from the queue and keeps the append slot at the last next-slot, so that later packets are not lost. |
| `Ports.Interface.Append` | coremodel.c:1292-1297 | An arriving packet goes to the end of the queue, and nothing else changes. |
| `Ports.Interface.Deliver` | coremodel.c:1292-1300 | Appending, deferring during an attach, and advancing otherwise. |
| `Ports.Interface.ReadyInt` | coremodel.c:611-619 | A ready call lifts the stall and scans. |
| `Ports.Interface.UsbhReady` | coremodel.c:960-971 | usbh_ready lifts the pause of one endpoint and token and scans. |
| `Ports.Interface.FlushDeferred` | coremodel.c:1345-1349 | A deferred interface is advanced once and deferred no more. |
| `Ports.Interface.UartRx` | coremodel.c:661-689 | Sends as much as there is credit for and takes that much credit, or nothing without memory or credit. |
| `Ports.Interface.EthRx` | coremodel.c:1182-1206 | The test and the locked part in a row: a frame for one credit, or nothing and the result 0. |
| `Ports.Interface.EthTest` | coremodel.c:1192-1193 | The test of the credit, outside the lock. |
| `Ports.Interface.EthLocked` | coremodel.c:1196-1205 | The locked part pushes the frame and takes one credit, in 32 bits, whatever the credit is by then. |
| `Ports.Interface.CanRx` | coremodel.c:1024-1059 | Takes the next index modulo 256 and sends a frame with it, unless one is outstanding; a failed push goes unnoticed. |
| `Ports.Interface.Ask` | coremodel.c:1008-1010 | A callback answers, after it has sent any number of times on its own interface. |
| `Wakeup.EventLoop.PushAll` | coremodel.c:300-331 | Any number of pushes on the real queue. |
| `Wakeup.EventLoop.PrepareFds` | coremodel.c:1355-1391 | The real queue goes through the prepare step, callbacks of the deferred flush included. |
| `Wakeup.EventLoop.WakeUp` | coremodel.c:1403-1445 | Waking up clears need_wake and, if it was seen, the pipe; what callbacks push meanwhile is queued behind the rest. |
| `Wakeup.EventLoop.ProcessFds` | coremodel.c:1393-1480 | The real queue goes through the process step; if the socket is writable, or packets were queued with txflag clear, it sends as many bytes as there is room for or all there are, in order, and otherwise none. |
| `Wakeup.EventLoop.Turn` | coremodel.c:1493-1518 | One round of the main loop with nothing pushed meanwhile sends as much as there is room for, or everything. |
| `Wakeup.EventLoop.MainLoop` | coremodel.c:1493-1518 | As many rounds as there are unsent bytes empty the queue, in order, however little room each finds. |
| `Connection.CoreModel.FindIf` | coremodel.c:1286-1290 | The first interface with the packet's connection number, or none. |
| `Connection.CoreModel.DeliverTo` | coremodel.c:1292-1300 | Delivering to one interface object changes that one only. |
| `Connection.CoreModel.DeferPktFlush` | coremodel.c:1340-1353 | Every deferred interface object is advanced once. |
| `Connection.CoreModel.ProcessPacket` | coremodel.c:1270-1302 | The objects go through the data step of the protocol; without memory nothing changes. |
| `Connection.CoreModel.CatchUp` | coremodel.c:1383-1387 | The objects go through the prepare step. |
| `Connection.CoreModel.BeginAttach` | coremodel.c:483-534 | A new interface starts deferred and unconnected; a second request is refused. |
| `Connection.CoreModel.ConnResponse` | coremodel.c:553-568 | A positive response links the interface at the front, with its number and credit. |
| `Connection.CoreModel.EndAttach` | coremodel.c:542-550 | The attach returns the linked interface, or nothing if it was refused. |
| `DeviceList.Client.ProcessListResponse` | coremodel.c:420-474 | An empty page ends the query; any other places its entries from the base index, ends the array with a terminator, and asks for the index behind them. |
| `DeviceList.Client.CountEntries` | coremodel.c:435-438 | The first loop counts the entries of the page. |
| `DeviceList.Client.Fill` | coremodel.c:451-465 | The second loop stores them from the base index and touches nothing before it. |
| `AdxlFifo.Adxl.Reset` | examples/i2c-adxl36x/coremodel-adxl36x.c:517-522 | The ring is emptied; fifo_count agrees with it afterwards if and only if it was zero before. |
| `AdxlFifo.Adxl.PutAll` | examples/i2c-adxl36x/coremodel-adxl36x.c:205-354 | The stores of a set append it whole. |
| `AdxlFifo.Adxl.FifoSample` | examples/i2c-adxl36x/coremodel-adxl36x.c:150-360 | A set is stored whole or not at all, fifo_count stays wpt - rpt modulo 2^32 and at most 2048, and overrun and watermark say what happened. |
| `AdxlFifo.Adxl.TakeByte` | examples/i2c-adxl36x/coremodel-adxl36x.c:913-952 | The byte by packing and phase, and whether a sample is used up. |
| `AdxlFifo.Adxl.ReadFifo` | examples/i2c-adxl36x/coremodel-adxl36x.c:909-958 | One byte read is one step of the queue; an empty FIFO changes nothing. |
| `UsbControl.Keyboard.TakeSetup` | examples/usbh/coremodel-usbh.c:173-227 | SETUP parses the request and starts its data stage, or refuses it. |
| `UsbControl.Keyboard.Offer` | examples/usbh/coremodel-usbh.c:186-227 | A known descriptor is copied, cut to the length asked for, and its length fields filled in; anything else is refused and leaves the buffer as it was. |
| `UsbControl.Keyboard.TakeOut` | examples/usbh/coremodel-usbh.c:229-243 | OUT: acknowledges a read, or takes the next piece of a write. |
| `UsbControl.Keyboard.GiveIn` | examples/usbh/coremodel-usbh.c:245-280 | IN: the status stage of a write, or the next piece of a read. |
| `UsbControl.Keyboard.GiveReport` | examples/usbh/coremodel-usbh.c:282-289 | The interrupt endpoint gives each report once. |
| `UsbControl.Keyboard.Transfer` | examples/usbh/coremodel-usbh.c:168-293 | The switch over endpoint and token; ep0ptr never exceeds wLength after a transfer that stays inside the buffer. |
| `Ports.Interface.ScanStep` | coremodel.c:1222-1267 | One round of the scan loop leaves a scan that comes to the same, and less of it. |
| `DeviceList.RequestMeaning` | coremodel.c:468-473 | Helper: a request means what it should if and only if its index has 15 bits. |
| `DeviceList.RequestExample` | coremodel.c:468-473 | Helper: the first index that means another request. |
| `Wakeup.PushNoticedIff` | coremodel.c:320-329 | Helper: a push is noticed by a sleeping loop if and only if need_wake still stands or it was going to wake up anyway. |
| `CanRuns.LengthTestGap` | coremodel.c:986-991 | Helper: the length test accepts every whole frame, and wrongly exactly those that end in the last 8 bytes before. |
| `CanRuns.LengthTestGapExample` | coremodel.c:986-991 | Helper: such a frame. |
| `UsbControlRuns.StatusOfRead` | examples/usbh/coremodel-usbh.c:233-237 | Helper: an OUT ends a read, however much was read. |
| `UsbControlRuns.AddressKept` | examples/usbh/coremodel-usbh.c:257-259 | Helper: no other transfer in any state changes the address. |
| `AdxlRuns.ShiftedTwelve` | examples/i2c-adxl36x/coremodel-adxl36x.c:191-196 | Helper: samples stored in 12-bit packing have 12 bits. |

## Left out

- AdxlRuns.Readout12: needs the second sample of a pair to be queued when the middle byte is read, because otherwise the claim is false; `AdxlRuns.Readout12Iff` says exactly when it still holds. All need the count of reads not to wrap, because 2^32 is not a multiple of 3.
- AdxlRuns.CountExact: 8-bit packing only, because `AdxlRuns.ReadCounted` shows exactly which reads break it otherwise.
- CanRuns.StopAndWait: a CAN interface is not sent usbh_ready, which would clear its busy bit.
- TransferRuns.TransfersExact: safety only; after a partial accept the rest waits for the next packet or ready call (`StallRuns.NothingWaits`), and `StallRuns.QueueEmpties` says what ready calls achieve.
- StallRuns.QueueEmpties: after a clean run, because a half-refused I2C write leaves an offset for a packet it does not belong to (`TransferRuns.RefusalSpoils`).
- SendRuns.StreamOnWire: one sender, and callbacks that send nothing; `SendRuns.UartStream` is about the calls of one sender in any states, and so from callbacks too.
- SendRuns.FramesOnWire: callbacks that send nothing; `SendRuns.EthSend` is about one send in any state.
- SendRuns.CanOnWire: callbacks that send nothing; `SendRuns.CanSend` is about one send in any state.
- CreditRuns.CreditConserved: needs no thread to take the lock of an Ethernet send when the credit is gone; `CreditRuns.ConservedIff` shows that it fails otherwise.
- DeviceList.ListDevices: a server with fewer than 0x8000 entries, because `DeviceList.RequestMeaning` shows that a request from there on asks for something else.
- Hub.EarlyPackets: one attach at a time, as the mutex held by attach ensures.
- UsbControlRuns.DescriptorRead: reads that a host makes past a SETUP or OUT belong to another transfer.
- UsbControl.Keyboard.TakeOut: needs the piece to stay inside the endpoint buffer, because what the memory behind it holds is not part of the model; `UsbControlRuns.WriteInsideIff` says exactly when it does.
- UsbControl.Keyboard.GiveIn: likewise for reads, with `UsbControlRuns.ReadInsideIff`.
- UsbControl.Keyboard.Transfer: likewise for both.
- Sockets, name lookup, select, errno, the clock and the loss of the connection; only reading, writing and the wake byte are kept.
- Allocation failure outside the data path: its error returns in attach and list, and replies of handlers that are lost when a push fails.
- Disconnect, detach and the order in which memory is freed; the mutex, beyond taking each locked region as one step, with the unlocked test of `coremodel_eth_rx` as a step of its own.
- `coremodel_eth_ready` takes no lock (coremodel.c:1208-1211); its scan is one step all the same, so what a scan by another thread at the same time would do is not modelled.
- The contents of GPIO and event updates and of BREAK, and the level of chip select, which are passed on unexamined.
- `coremodel_i2c_push_read`, gpio_set and the event calls, which push one packet and read no state.
- The list of interfaces and the array of listed devices are sequences, not linked nodes or reallocated memory; the bytes of a transmit buffer are a constant of its node.
- What lies behind the read buffer: a transfer that runs past it is noted, and the bytes that do not fit are dropped.
- Sends of a callback on another interface come between the scans of that one. The data bytes of CAN frames towards the VM are the argument of the call; the peer that acknowledges them is any that keeps order.
- Registers of the accelerometer outside the FIFO, its interrupts, timers and temperature conversion.
- The keyboard's own report source and the example mains.
- The Ethernet switch, the I2C and SPI muxes, the RTC examples and all Python files.
