/**
 What one attached interface does with a queued packet, bus by bus, and the scan over its queue.
 These are the specifications of the methods of Ports.Interface.

 A callback of the device model is an arbitrary answer: callback number n of an interface gives dev(n).
 The history of an interface is its `log`: the callbacks made and the packets pushed in answer.
 */
module Protocol {
  import opened Wire

  datatype Kind = Uart | I2c | Spi | Gpio | Usbh | Can | Eth | Event

  const PKT_UART_TX := 0
  const PKT_UART_RX := 1
  const PKT_UART_RX_ACK := 2
  const PKT_UART_BRK := 3
  const PKT_I2C_START := 0
  const PKT_I2C_WRITE := 1
  const PKT_I2C_READ := 2
  const PKT_I2C_STOP := 3
  const PKT_I2C_DONE := 4
  const PKT_SPI_CS := 0
  const PKT_SPI_TX := 1
  const PKT_SPI_RX := 2
  const PKT_USBH_RESET := 0
  const PKT_USBH_XFR := 1
  const PKT_USBH_DONE := 2
  const PKT_CAN_TX := 0
  const PKT_CAN_TX_ACK := 1
  const PKT_CAN_RX := 2
  const PKT_CAN_RX_ACK := 3
  const PKT_GPIO_UPDATE := 0
  const PKT_EVENT_UPDATE := 0
  const PKT_ETH_TX := 0
  const PKT_ETH_RX := 1
  const PKT_ETH_RX_ACK := 2

  const USB_TKN_IN := 1
  const USB_TKN_SETUP := 2
  const USB_XFR_NAK := -1
  const CAN_STALL := -1
  const RDBUF := 512

  /** A queued packet with its arrival number on the interface. */
  datatype Item = Item(id: nat, pkt: Packet)

  /** What a callback returns, and what it sends to the VM on its own interface before that. */
  datatype Answer = Answer(res: int, bytes: seq<byte>, sends: seq<Send>)

  /** One call that sends to the VM; the control words are those of CAN, and `memory` tells whether the
      packet can be pushed. */
  datatype Send = Send(ctrl: seq<byte>, data: seq<byte>, memory: bool)

  /** A packet sent to the VM; without memory it is never pushed. */
  datatype Outgoing = Outgoing(pkt: Packet, pushed: bool)

  type Device = nat -> Answer

  datatype Entry =
    | Gave(id: nat, bytes: seq<byte>)            // payload bytes the device accepted
    | Made(id: nat, bytes: seq<byte>)            // bytes the device produced
    | Overran(id: nat)                           // bytes were produced past the end of the read buffer
    | Stalled(id: nat)                           // the device took nothing for now
    | Nak(id: nat, offs: nat)                    // an I2C start or write refused, with offs bytes already accepted
    | Reply(id: nat, pkt: Packet, ans: Answer)   // a packet pushed, after the callback returned ans
    | Called(id: nat)                            // any other callback: stop, cs, brk, notify, update, SETUP
    | RxReady(id: nat)                           // rxrdy
    | Completed(id: nat, nak: u16)               // rxcomplete
    | Paused(id: nat, ans: Answer)               // a transfer that stays queued, after xfr returned ans
    | Reset(id: nat)                             // rst
    | Discarded(id: nat)                         // a transfer thrown away ahead of a reset
    | Dropped(id: nat)                           // a malformed packet, or one of no known type

  /** The fields of struct coremodel_if that the handlers use.  `ebusy` is the set of bits that are 1;
      `log` and `out` are the history of what was received and what was sent. */
  datatype IfState = IfState(
    kind: Kind, conn: u16, trnidx: u16, cred: u32, busy: bool, offs: nat, ebusy: set<nat>,
    rdbuf: seq<byte>, calls: nat, log: seq<Entry>, out: seq<Outgoing>)
  {
    function Note(e: Entry): IfState {
      this.(log := log + [e])
    }

    /** The next callback is made. */
    function Asked(dev: Device): (st: IfState)
      ensures OnlySends(this.(calls := calls + 1), st)
    {
      Sending(this.(calls := calls + 1), dev(calls).sends)
    }
  }

  /** res > 0 leaves the packet queued and ends the scan, 0 removes it, -1 skips it, -2 starts over. */
  datatype Outcome = Outcome(st: IfState, res: int)

  /** How many of at most n bytes the device moves. */
  function Amount(a: Answer, n: nat): (k: nat)
    ensures k <= n
  {
    if a.res < 0 then 0 else if a.res < n then a.res else n
  }

  function Bytes(a: Answer, k: nat): (s: seq<byte>)
    ensures |s| == k
  {
    if k <= |a.bytes| then a.bytes[..k] else a.bytes + Zeros(k - |a.bytes|)
  }

  /** The part of a payload not yet handed over. */
  function Left(data: seq<byte>, offs: nat): seq<byte> {
    if offs <= |data| then data[offs..] else []
  }

  function Remaining(want: nat, offs: nat): nat {
    if offs <= want then want - offs else 0
  }

  /** The read buffer with bytes stored at offs; what lies behind it is not part of the model. */
  function Store(buf: seq<byte>, offs: nat, bytes: seq<byte>): (r: seq<byte>)
    ensures |r| == |buf|
  {
    if offs + |bytes| <= |buf| then buf[..offs] + bytes + buf[offs + |bytes|..] else buf
  }

  function Prefix(buf: seq<byte>, n: nat): seq<byte> {
    if n <= |buf| then buf[..n] else buf
  }

  /** A stall takes the packet off the queue all the same; of an empty payload nothing is lost by it. */
  function GiveAll(st: IfState, it: Item, dev: Device): Outcome {
    if st.busy then Outcome(st, 1)
    else
      var rest := Left(it.pkt.data, st.offs);
      var k := Amount(dev(st.calls), |rest|);
      if k == 0 then
        Outcome(st.Asked(dev).(busy := true).Note(if rest == [] then Gave(it.id, []) else Stalled(it.id)), 0)
      else if st.offs + k < |it.pkt.data| then
        Outcome(st.Asked(dev).(offs := st.offs + k).Note(Gave(it.id, rest[..k])), 1)
      else
        Outcome(st.Asked(dev).(offs := 0).Note(Gave(it.id, rest[..k])), 0)
  }

  /** A packet that only makes a callback, if that. */
  function Pass(st: IfState, it: Item, calls: bool, dev: Device): Outcome {
    Outcome(if calls then st.Asked(dev).Note(Called(it.id)) else st.Note(Dropped(it.id)), 0)
  }

  /** Credits returned by the peer; rxrdy fires when there were none. */
  function AddCredit(st: IfState, it: Item, dev: Device): Outcome {
    var more := st.(cred := (st.cred + it.pkt.hflag) % WRAP);
    Outcome(if st.cred == 0 then more.Note(RxReady(it.id)).Asked(dev) else more, 0)
  }

  function AdvanceUart(st: IfState, it: Item, dev: Device): Outcome {
    if it.pkt.kind == PKT_UART_TX then GiveAll(st, it, dev)
    else if it.pkt.kind == PKT_UART_RX_ACK then AddCredit(st, it, dev)
    else Pass(st, it, it.pkt.kind == PKT_UART_BRK, dev)
  }

  function AdvanceEth(st: IfState, it: Item, dev: Device): Outcome {
    if it.pkt.kind == PKT_ETH_TX then GiveAll(st, it, dev)
    else if it.pkt.kind == PKT_ETH_RX_ACK then AddCredit(st, it, dev)
    else Pass(st, it, false, dev)
  }

  function Done(st: IfState, nak: bool, data: seq<byte>): Packet {
    Packet(st.conn, PKT_I2C_DONE, if nak then 1 else 0, st.trnidx, data)
  }

  predicate Flagged(p: Packet) {
    p.bflag % 2 == 1
  }

  function ReplyIf(flag: bool, st: IfState, id: nat, p: Packet, a: Answer): IfState {
    if flag then st.Note(Reply(id, p, a)) else st
  }

  function AdvanceI2c(st0: IfState, it: Item, dev: Device): Outcome {
    if st0.busy then Outcome(st0, 1)
    else
      var st := st0.(trnidx := it.pkt.hflag);
      if it.pkt.kind == PKT_I2C_START then
        var res := dev(st.calls).res;
        if res == 0 then Outcome(st.Asked(dev).(busy := true).Note(Stalled(it.id)), 1)
        else
          var e := if res < 0 then Nak(it.id, 0) else Called(it.id);
          Outcome(ReplyIf(Flagged(it.pkt), st.Asked(dev).Note(e), it.id, Done(st, res < 0, []), dev(st.calls)), 0)
      else if it.pkt.kind == PKT_I2C_WRITE then
        var rest := Left(it.pkt.data, st.offs);
        var k := Amount(dev(st.calls), |rest|);
        if dev(st.calls).res < 0 then
          var e := Nak(it.id, st.offs);
          Outcome(ReplyIf(Flagged(it.pkt), st.Asked(dev).Note(e), it.id, Done(st, true, []), dev(st.calls)), 0)
        else if k == 0 then
          Outcome(st.Asked(dev).(busy := true).Note(Stalled(it.id)), 1)
        else if st.offs + k < |it.pkt.data| then
          Outcome(st.Asked(dev).(offs := st.offs + k).Note(Gave(it.id, rest[..k])), 1)
        else
          var st1 := st.Asked(dev).(offs := 0).Note(Gave(it.id, rest[..k]));
          Outcome(ReplyIf(Flagged(it.pkt), st1, it.id, Done(st, false, []), dev(st.calls)), 0)
      else if it.pkt.kind == PKT_I2C_READ then
        var want: nat := it.pkt.bflag;
        var k := Amount(dev(st.calls), Remaining(want, st.offs));
        var got := Bytes(dev(st.calls), k);
        if k == 0 then
          Outcome(st.Asked(dev).(busy := true).Note(Stalled(it.id)), 1)
        else
          var st1 := st.Asked(dev).(rdbuf := Store(st.rdbuf, st.offs, got)).Note(Made(it.id, got));
          if st.offs + k < want then
            Outcome(st1.(offs := st.offs + k), 1)
          else
            Outcome(st1.(offs := 0).Note(Reply(it.id, Done(st, false, Prefix(st1.rdbuf, want)), dev(st.calls))), 0)
      else
        Pass(st, it, it.pkt.kind == PKT_I2C_STOP, dev)
  }

  function AdvanceSpi(st0: IfState, it: Item, dev: Device): Outcome {
    if it.pkt.kind != PKT_SPI_TX then Pass(st0, it, it.pkt.kind == PKT_SPI_CS, dev)
    else if st0.busy then Outcome(st0, 1)
    else
      var st := st0.(trnidx := it.pkt.hflag);
      var rest := Left(it.pkt.data, st.offs);
      var k := Amount(dev(st.calls), if |rest| > 256 then 256 else |rest|);
      var got := Bytes(dev(st.calls), k);
      if k == 0 then
        Outcome(st.Asked(dev).(busy := true).Note(Stalled(it.id)), 1)
      else
        var moved := st.Asked(dev).(rdbuf := Store(st.rdbuf, st.offs, got)).Note(Gave(it.id, rest[..k]));
        var made := moved.Note(Made(it.id, got));
        var st1 := if st.offs + k > RDBUF then made.Note(Overran(it.id)) else made;
        if st.offs + k < |it.pkt.data| then
          Outcome(st1.(offs := st.offs + k), 1)
        else
          var p := Packet(st.conn, PKT_SPI_RX, 0, st.trnidx, Prefix(st1.rdbuf, |it.pkt.data|));
          Outcome(st1.(offs := 0).Note(Reply(it.id, p, dev(st.calls))), 0)
  }

  function Endpoint(p: Packet): nat {
    p.hflag / 0x10 % 0x10
  }

  function Token(p: Packet): nat {
    p.hflag % 0x10
  }

  function Address(p: Packet): nat {
    p.hflag / 0x100 % 0x80
  }

  /** The number of the `ebusy` bit of a transfer. */
  function Slot(p: Packet): nat {
    Endpoint(p) * 4 + Token(p)
  }

  /** The 16-bit size in an IN transfer, cut to the read buffer. */
  function InSize(p: Packet): nat
    requires |p.data| >= 2
  {
    var size := GetLE16(p.data, 0);
    if size > RDBUF then RDBUF else size
  }

  function UsbDone(conn: u16, p: Packet, a: Answer): Packet
    requires Token(p) == USB_TKN_IN ==> |p.data| >= 2
  {
    var head := Token(p) + 0x10 * Endpoint(p) + 0x100 * Address(p);
    if a.res < 0 then
      Packet(conn, PKT_USBH_DONE, p.bflag, head + 0x8000, if Token(p) == USB_TKN_IN then [] else LE16(0))
    else if Token(p) == USB_TKN_IN then
      Packet(conn, PKT_USBH_DONE, p.bflag, head, Bytes(a, Amount(a, InSize(p))))
    else
      Packet(conn, PKT_USBH_DONE, p.bflag, head, LE16(Amount(a, |p.data|) % 0x1_0000))
  }

  function AdvanceUsbh(st: IfState, it: Item, dev: Device): Outcome {
    if it.pkt.kind == PKT_USBH_RESET then
      if !st.busy then Outcome(st.(busy := true), -2)
      else Outcome(st.(busy := false, ebusy := {}).Note(Reset(it.id)).Asked(dev), 0)
    else if it.pkt.kind == PKT_USBH_XFR then
      if st.busy then Outcome(st.Note(Discarded(it.id)), 0)
      else
        var tkn, slot := Token(it.pkt), Slot(it.pkt);
        var st1 := if tkn == USB_TKN_SETUP then st.(ebusy := st.ebusy - {slot}) else st;
        if slot in st1.ebusy then Outcome(st1, -1)
        else if tkn == USB_TKN_IN && |it.pkt.data| < 2 then Outcome(st1.Note(Dropped(it.id)), 0)
        else
          var a := dev(st.calls);
          if tkn == USB_TKN_SETUP then Outcome(st1.Asked(dev).Note(Called(it.id)), 0)
          else if a.res == USB_XFR_NAK then
            Outcome(st1.Asked(dev).(ebusy := st1.ebusy + {slot}).Note(Paused(it.id, a)), -1)
          else Outcome(st1.Asked(dev).Note(Reply(it.id, UsbDone(st.conn, it.pkt, a), a)), 0)
    else Pass(st, it, false, dev)
  }

  function CanDataLen(dlc: nat): nat {
    if dlc <= 8 then dlc
    else if dlc < 16 then [12, 16, 20, 24, 32, 48, 64][dlc - 9]
    else dlc + 1
  }

  /** The data length code: the low 11 bits of the control word. */
  function CanDlc(ctrl: seq<byte>): nat
    requires |ctrl| >= 2
  {
    GetLE16(ctrl, 0) % 0x800
  }

  /** The length test of the CAN handler, as the source has it. */
  predicate CanAccepts(p: Packet) {
    p.Len() >= 16 && p.Len() >= 16 + CanDataLen(CanDlc(p.data))
  }

  function TxAck(st: IfState, p: Packet, nak: bool): Packet {
    Packet(st.conn, PKT_CAN_TX_ACK, p.bflag, if nak then 1 else 0, [])
  }

  function AdvanceCan(st: IfState, it: Item, dev: Device): Outcome {
    if it.pkt.kind == PKT_CAN_TX then
      if st.busy then Outcome(st, -1)
      else if !CanAccepts(it.pkt) then Outcome(st.Note(Dropped(it.id)), 0)
      else
        var a := dev(st.calls);
        if a.res == CAN_STALL then Outcome(st.Asked(dev).(busy := true).Note(Stalled(it.id)), 1)
        else Outcome(st.Asked(dev).Note(Reply(it.id, TxAck(st, it.pkt, a.res != 0), a)), 0)
    else if it.pkt.kind == PKT_CAN_RX_ACK then
      if it.pkt.bflag == st.trnidx then Outcome(st.(ebusy := {}).Note(Completed(it.id, it.pkt.hflag)).Asked(dev), 0)
      else Pass(st, it, false, dev)
    else Pass(st, it, false, dev)
  }

  function Advance(st: IfState, it: Item, dev: Device): Outcome {
    match st.kind
    case Uart => AdvanceUart(st, it, dev)
    case I2c => AdvanceI2c(st, it, dev)
    case Spi => AdvanceSpi(st, it, dev)
    case Usbh => AdvanceUsbh(st, it, dev)
    case Can => AdvanceCan(st, it, dev)
    case Eth => AdvanceEth(st, it, dev)
    case Gpio => Pass(st, it, it.pkt.kind == PKT_GPIO_UPDATE, dev)
    case Event => Pass(st, it, it.pkt.kind == PKT_EVENT_UPDATE, dev)
  }

  /** Only a reset that begins the flush starts over, and a skip never ends a flush. */
  lemma AdvanceMeasure(st: IfState, it: Item, dev: Device)
    ensures var o := Advance(st, it, dev);
            o.st.kind == st.kind && o.st.conn == st.conn && o.res >= -2 &&
            (o.res == -2 ==> st.kind == Usbh && !st.busy && o.st.busy) &&
            (o.res == -1 && st.kind == Usbh ==> o.st.busy == st.busy)
  {
    hide Sending, Store, Bytes, Prefix, Amount, Left, UsbDone, Done, TxAck, CanAccepts;
  }

  function Without(q: seq<Item>, i: nat): seq<Item>
    requires i < |q|
  {
    q[..i] + q[i + 1..]
  }

  datatype Scanned = Scanned(st: IfState, q: seq<Item>)

  /** The scan over the queue from position i.  It ends because the queue shrinks, or else a reset
      flush begins, which can only happen once before the queue shrinks, or else i moves on. */
  function Scan(st: IfState, q: seq<Item>, i: nat, dev: Device): Scanned
    requires i <= |q|
    decreases |q|, !(st.kind == Usbh && st.busy), |q| - i
  {
    if i == |q| then Scanned(st, q)
    else
      AdvanceMeasure(st, q[i], dev);
      var o := Advance(st, q[i], dev);
      if o.res > 0 then Scanned(o.st, q)
      else if o.res == 0 then Scan(o.st, Without(q, i), 0, dev)
      else if o.res == -2 then Scan(o.st, q, 0, dev)
      else Scan(o.st, q, i + 1, dev)
  }

  /** An interface with its queue; `arrived` numbers the packets it has been sent. */
  datatype Port = Port(st: IfState, q: seq<Item>, defer: bool, arrived: nat)

  function Rescan(p: Port, dev: Device): Port {
    if p.defer then p
    else
      var s := Scan(p.st, p.q, 0, dev);
      p.(st := s.st, q := s.q)
  }

  /** A packet arrives.  While the interface is still being attached it is only queued. */
  function Arrive(p: Port, pkt: Packet, attaching: bool, dev: Device): Port {
    Rescan(p.(q := p.q + [Item(p.arrived, pkt)], arrived := p.arrived + 1, defer := attaching), dev)
  }

  /** The device model lifts a stall. */
  function Ready(p: Port, dev: Device): Port {
    Rescan(p.(st := p.st.(busy := false)), dev)
  }

  /** The device model lifts the pause of one endpoint and token. */
  function UsbReady(p: Port, ep: nat, tkn: nat, dev: Device): Port {
    Rescan(p.(st := p.st.(ebusy := p.st.ebusy - {ep * 4 + tkn})), dev)
  }

  /** What was put off during the attach is caught up on. */
  function Flush(p: Port, dev: Device): Port {
    if p.defer then Rescan(p.(defer := false), dev) else p
  }

  predicate Credited(kind: Kind) {
    kind == Uart || kind == Eth
  }

  /** What a call that sends may change: nothing on a bus that has no such call. */
  predicate OnlySends(st: IfState, st': IfState) {
    st' == st.(cred := st'.cred, trnidx := st'.trnidx, ebusy := st'.ebusy, out := st'.out) && st.out <= st'.out &&
    (st.kind != Can ==> st'.trnidx == st.trnidx && st'.ebusy == st.ebusy) &&
    (!Credited(st.kind) ==> st'.cred == st.cred) &&
    (!Credited(st.kind) && st.kind != Can ==> st'.out == st.out)
  }

  /** The new state and the return value of a call that sends to the VM. */
  datatype Sent = Sent(st: IfState, ret: nat)

  function Push(st: IfState, p: Packet, memory: bool): IfState {
    st.(out := st.out + [Outgoing(p, memory)])
  }

  /** Sends as many bytes as there is credit for; 8 + that number must fit the 16-bit length field. */
  function SendUart(st: IfState, data: seq<byte>, memory: bool): Sent
    requires |data| < 0xFFF8 || st.cred < 0xFFF8
  {
    var n := if |data| <= st.cred then |data| else st.cred;
    if st.cred == 0 || !memory then Sent(st, 0)
    else Sent(Push(st.(cred := st.cred - n), Packet(st.conn, PKT_UART_RX, 0, 0, data[..n]), true), n)
  }

  /** The part of an Ethernet send that runs under the lock, whatever the credit is by then. */
  function SendLocked(st: IfState, data: seq<byte>, memory: bool): Sent
    requires |data| < 0xFFF8
  {
    if !memory then Sent(st, 1)
    else Sent(Push(st.(cred := (st.cred - 1) % WRAP), Packet(st.conn, PKT_ETH_RX, 0, 0, data), true), 0)
  }

  /** Sends one Ethernet frame if there is credit, when nothing happens between the test and the lock.
      Without credit the frame is dropped and the result is 0 all the same. */
  function SendEth(st: IfState, data: seq<byte>, memory: bool): Sent
    requires |data| < 0xFFF8
  {
    if st.cred == 0 then Sent(st, 0) else SendLocked(st, data, memory)
  }

  /** Sends one CAN frame unless the previous one is still unacknowledged.  A push that fails is not
      noticed. */
  function SendCan(st: IfState, ctrl: seq<byte>, data: seq<byte>, memory: bool): Sent
    requires |ctrl| == 16
  {
    var dlen := CanDataLen(CanDlc(ctrl));
    if st.ebusy != {} || |data| < dlen then Sent(st, 1)
    else
      var trn := (st.trnidx + 1) % 0x100;
      Sent(Push(st.(trnidx := trn, ebusy := {0}), Packet(st.conn, PKT_CAN_RX, trn, 0, ctrl + data[..dlen]), memory), 0)
  }

  /** The call that sends on this bus; sends that the 16-bit length field cannot describe are left out. */
  function SendAny(st: IfState, s: Send): (r: Sent)
    ensures OnlySends(st, r.st)
  {
    if st.kind == Uart && (|s.data| < 0xFFF8 || st.cred < 0xFFF8) then SendUart(st, s.data, s.memory)
    else if st.kind == Eth && |s.data| < 0xFFF8 then SendEth(st, s.data, s.memory)
    else if st.kind == Can && |s.ctrl| == 16 then SendCan(st, s.ctrl, s.data, s.memory)
    else Sent(st, 0)
  }

  function Sending(st: IfState, sends: seq<Send>): (st': IfState)
    ensures OnlySends(st, st')
  {
    if sends == [] then st else SendAny(Sending(st, sends[..|sends| - 1]), sends[|sends| - 1]).st
  }
}
