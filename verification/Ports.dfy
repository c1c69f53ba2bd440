/**
 One attached interface: struct coremodel_if with its linked queue of received packets, the scan that
 advances it, and the operations that append to it or wake it up.
 */
module Ports {
  import opened Wire
  import opened Protocol
  import opened PortRuns

  class RxBuf {
    const item: Item
    var next: RxBuf?

    constructor (item: Item)
      ensures this.item == item && next == null
    {
      this.item := item;
      next := null;
    }
  }

  function ItemsOf(nodes: seq<RxBuf>): (q: seq<Item>)
    ensures |q| == |nodes|
  {
    seq(|nodes|, i requires 0 <= i < |nodes| => nodes[i].item)
  }

  /** Packets are queued in the order of their arrival. */
  ghost predicate Ordered(nodes: seq<RxBuf>) {
    forall i, j :: 0 <= i < j < |nodes| ==> nodes[i].item.id < nodes[j].item.id
  }

  lemma RemoveOrdered(nodes: seq<RxBuf>, i: nat)
    requires Ordered(nodes) && i < |nodes|
    ensures var rest := nodes[..i] + nodes[i + 1..];
            Ordered(rest) && ItemsOf(rest) == Without(ItemsOf(nodes), i) &&
            (rest != [] ==> rest[|rest| - 1].item.id <= nodes[|nodes| - 1].item.id) &&
            (i > 0 ==> forall j :: 0 <= j < |rest| && j != i - 1 ==> rest[j] != nodes[i - 1])
  {
    var rest := nodes[..i] + nodes[i + 1..];
    assert forall j :: 0 <= j < |rest| ==> rest[j] == nodes[if j < i then j else j + 1];
  }

  lemma CutAt(nodes: seq<RxBuf>, i: nat, j: nat)
    requires i <= j < |nodes| - 1
    ensures var rest := nodes[..i] + nodes[i + 1..];
            rest[j] == nodes[j + 1] && (j + 1 < |rest| ==> rest[j + 1] == nodes[j + 2])
  {
  }

  lemma CutEnds(nodes: seq<RxBuf>, i: nat)
    requires i < |nodes|
    ensures var rest := nodes[..i] + nodes[i + 1..];
            (rest == [] <==> |nodes| == 1) &&
            (rest != [] ==>
              rest[0] == (if i == 0 then nodes[1] else nodes[0]) &&
              rest[|rest| - 1] == if i == |nodes| - 1 then nodes[i - 1] else nodes[|nodes| - 1])
  {
  }

  class Interface {
    const kind: Kind
    const dev: Device
    var conn: u16
    var trnidx: u16
    var cred: u32
    var busy: bool
    var offs: nat
    var ebusy: set<nat>
    const rdbuf: array<byte>
    var deferPkt: bool
    /** The head of the queue, and the packet whose `next` is the slot for the next append; null
        stands for the head itself. */
    var rxbufs: RxBuf?
    var erxbufs: RxBuf?
    var arrived: nat
    var calls: nat
    var log: seq<Entry>
    var out: seq<Outgoing>
    ghost var nodes: seq<RxBuf>

    ghost predicate NodeOk(i: nat)
      requires i < |nodes|
      reads this`nodes, nodes
    {
      nodes[i].next == if i + 1 < |nodes| then nodes[i + 1] else null
    }

    ghost predicate Valid()
      reads this`rxbufs, this`erxbufs, this`nodes, this`arrived, nodes
    {
      rdbuf.Length == RDBUF && Ordered(nodes) &&
      (rxbufs == if nodes == [] then null else nodes[0]) &&
      (erxbufs == if nodes == [] then null else nodes[|nodes| - 1]) &&
      (nodes != [] ==> nodes[|nodes| - 1].item.id < arrived) &&
      forall i | 0 <= i < |nodes| :: NodeOk(i)
    }

    ghost function Items(): seq<Item>
      reads this`nodes
    {
      ItemsOf(nodes)
    }

    ghost function State(): IfState
      reads this`conn, this`trnidx, this`cred, this`busy, this`offs, this`ebusy, this`calls, this`log, this`out, rdbuf
    {
      IfState(kind, conn, trnidx, cred, busy, offs, ebusy, rdbuf[..], calls, log, out)
    }

    /** The objects that make up this interface. */
    ghost function Footprint(): set<object>
      reads this`nodes
    {
      {this, rdbuf} + set n <- nodes
    }

    constructor (kind: Kind, dev: Device)
      ensures Valid() && fresh(Footprint()) && this.kind == kind && this.dev == dev
      ensures View() == Start(kind, CONN_QUERY)
    {
      this.kind, this.dev := kind, dev;
      conn, trnidx, cred, busy, offs, ebusy := CONN_QUERY, 0, 0, false, 0, {};
      rdbuf := new byte[RDBUF](_ => 0);
      deferPkt, rxbufs, erxbufs, nodes := true, null, null, [];
      arrived, calls, log, out := 0, 0, [], [];
    }

    method UartRx(data: seq<byte>, memory: bool) returns (ret: nat)
      requires |data| < 0xFFF8 || cred < 0xFFF8
      modifies this`cred, this`out
      ensures Sent(State(), ret) == SendUart(old(State()), data, memory)
    {
      if cred == 0 {
        return 0;
      }
      var len := |data|;
      if len > cred {
        len := cred;
      }
      if !memory {
        return 0;
      }
      out := out + [Outgoing(Packet(conn, PKT_UART_RX, 0, 0, data[..len]), true)];
      cred := cred - len;
      ret := len;
    }

    method EthRx(data: seq<byte>, memory: bool) returns (ret: nat)
      requires |data| < 0xFFF8
      modifies this`cred, this`out
      ensures Sent(State(), ret) == SendEth(old(State()), data, memory)
    {
      var go := EthTest();
      if !go {
        return 0;
      }
      ret := EthLocked(data, memory);
    }

    /** The test of the credit, before the lock is taken. */
    method EthTest() returns (go: bool)
      ensures go == (cred > 0)
    {
      go := cred != 0;
    }

    /** The rest of coremodel_eth_rx, under the lock. */
    method EthLocked(data: seq<byte>, memory: bool) returns (ret: nat)
      requires |data| < 0xFFF8
      modifies this`cred, this`out
      ensures Sent(State(), ret) == SendLocked(old(State()), data, memory)
    {
      if !memory {
        return 1;
      }
      out := out + [Outgoing(Packet(conn, PKT_ETH_RX, 0, 0, data), true)];
      cred := (cred - 1) % WRAP;
      ret := 0;
    }

    method CanRx(ctrl: seq<byte>, data: seq<byte>, memory: bool) returns (ret: nat)
      requires |ctrl| == 16
      modifies this`trnidx, this`ebusy, this`out
      ensures Sent(State(), ret) == SendCan(old(State()), ctrl, data, memory)
    {
      var dlen := CanDataLen(CanDlc(ctrl));
      if ebusy != {} || |data| < dlen {
        return 1;
      }
      trnidx := (trnidx + 1) % 0x100;
      out := out + [Outgoing(Packet(conn, PKT_CAN_RX, trnidx, 0, ctrl + data[..dlen]), memory)];
      ebusy := {0};
      ret := 0;
    }

    /** A callback sends on its own interface. */
    method SendOne(s: Send)
      modifies this`trnidx, this`cred, this`ebusy, this`out
      ensures State() == SendAny(old(State()), s).st
    {
      hide SendUart, SendEth, SendCan;
      if kind == Uart && (|s.data| < 0xFFF8 || cred < 0xFFF8) {
        var ret := UartRx(s.data, s.memory);
      } else if kind == Eth && |s.data| < 0xFFF8 {
        var ret := EthRx(s.data, s.memory);
      } else if kind == Can && |s.ctrl| == 16 {
        var ret := CanRx(s.ctrl, s.data, s.memory);
      }
    }

    /** The answer to the next callback, with what it sends. */
    method Ask() returns (a: Answer)
      modifies this`trnidx, this`cred, this`ebusy, this`calls, this`out
      ensures a == dev(old(calls)) && State() == old(State()).Asked(dev)
    {
      hide SendAny, OnlySends;
      a := dev(calls);
      calls := calls + 1;
      ghost var st := State();
      assert a.sends[..0] == [];
      for i := 0 to |a.sends|
        invariant State() == Sending(st, a.sends[..i])
      {
        assert a.sends[..i + 1][..i] == a.sends[..i];
        SendOne(a.sends[i]);
      }
      assert a.sends[..|a.sends|] == a.sends;
    }

    method StoreAt(at: nat, bytes: seq<byte>)
      modifies rdbuf
      ensures rdbuf[..] == Store(old(rdbuf[..]), at, bytes)
    {
      if at + |bytes| <= rdbuf.Length {
        forall i | 0 <= i < |bytes| {
          rdbuf[at + i] := bytes[i];
        }
      }
    }

    method AdvanceGiveAll(it: Item) returns (res: int)
      modifies this`trnidx, this`cred, this`busy, this`offs, this`ebusy, this`calls, this`log, this`out
      ensures Outcome(State(), res) == GiveAll(old(State()), it, dev)
    {
      hide Sending;
      if busy {
        return 1;
      }
      var rest := Left(it.pkt.data, offs);
      var a := Ask();
      var k := Amount(a, |rest|);
      if k == 0 {
        busy := true;
        log := log + [if rest == [] then Gave(it.id, []) else Stalled(it.id)];
        return 0;
      }
      offs := offs + k;
      log := log + [Gave(it.id, rest[..k])];
      if offs < |it.pkt.data| {
        return 1;
      }
      offs := 0;
      return 0;
    }

    method AddCredits(it: Item)
      modifies this`trnidx, this`cred, this`busy, this`offs, this`ebusy, this`calls, this`log, this`out
      ensures Outcome(State(), 0) == AddCredit(old(State()), it, dev)
    {
      hide Sending;
      if cred == 0 {
        cred := (cred + it.pkt.hflag) % WRAP;
        log := log + [RxReady(it.id)];
        var a := Ask();
      } else {
        cred := (cred + it.pkt.hflag) % WRAP;
      }
    }

    method PassOn(it: Item, calls: bool)
      modifies this`trnidx, this`cred, this`busy, this`offs, this`ebusy, this`calls, this`log, this`out
      ensures Outcome(State(), 0) == Pass(old(State()), it, calls, dev)
    {
      hide Sending;
      if calls {
        var a := Ask();
      }
      log := log + [if calls then Called(it.id) else Dropped(it.id)];
    }

    method AdvanceIfUart(it: Item) returns (res: int)
      modifies this`trnidx, this`cred, this`busy, this`offs, this`ebusy, this`calls, this`log, this`out
      ensures Outcome(State(), res) == AdvanceUart(old(State()), it, dev)
    {
      if it.pkt.kind == PKT_UART_TX {
        res := AdvanceGiveAll(it);
      } else if it.pkt.kind == PKT_UART_RX_ACK {
        AddCredits(it);
        res := 0;
      } else {
        PassOn(it, it.pkt.kind == PKT_UART_BRK);
        res := 0;
      }
    }

    method AdvanceIfEth(it: Item) returns (res: int)
      modifies this`trnidx, this`cred, this`busy, this`offs, this`ebusy, this`calls, this`log, this`out
      ensures Outcome(State(), res) == AdvanceEth(old(State()), it, dev)
    {
      if it.pkt.kind == PKT_ETH_TX {
        res := AdvanceGiveAll(it);
      } else if it.pkt.kind == PKT_ETH_RX_ACK {
        AddCredits(it);
        res := 0;
      } else {
        PassOn(it, false);
        res := 0;
      }
    }

    method I2cStart(it: Item) returns (res: int)
      requires kind == I2c && it.pkt.kind == PKT_I2C_START && !busy
      modifies this`trnidx, this`cred, this`busy, this`offs, this`ebusy, this`calls, this`log, this`out
      ensures Outcome(State(), res) == AdvanceI2c(old(State()), it, dev)
    {
      hide Sending;
      trnidx := it.pkt.hflag;
      var a := Ask();
      if a.res == 0 {
        busy := true;
        log := log + [Stalled(it.id)];
        return 1;
      }
      log := log + [if a.res < 0 then Nak(it.id, 0) else Called(it.id)];
      if Flagged(it.pkt) {
        log := log + [Reply(it.id, Packet(conn, PKT_I2C_DONE, if a.res < 0 then 1 else 0, trnidx, []), a)];
      }
      return 0;
    }

    method I2cWrite(it: Item) returns (res: int)
      requires kind == I2c && it.pkt.kind == PKT_I2C_WRITE && !busy
      modifies this`trnidx, this`cred, this`busy, this`offs, this`ebusy, this`calls, this`log, this`out
      ensures Outcome(State(), res) == AdvanceI2c(old(State()), it, dev)
    {
      hide Sending;
      trnidx := it.pkt.hflag;
      var rest := Left(it.pkt.data, offs);
      var a := Ask();
      if a.res < 0 {
        log := log + [Nak(it.id, offs)];
        if Flagged(it.pkt) {
          log := log + [Reply(it.id, Packet(conn, PKT_I2C_DONE, 1, trnidx, []), a)];
        }
        return 0;
      }
      var k := Amount(a, |rest|);
      if k == 0 {
        busy := true;
        log := log + [Stalled(it.id)];
        return 1;
      }
      offs := offs + k;
      log := log + [Gave(it.id, rest[..k])];
      if offs < |it.pkt.data| {
        return 1;
      }
      offs := 0;
      if Flagged(it.pkt) {
        log := log + [Reply(it.id, Packet(conn, PKT_I2C_DONE, 0, trnidx, []), a)];
      }
      return 0;
    }

    method I2cRead(it: Item) returns (res: int)
      requires kind == I2c && it.pkt.kind == PKT_I2C_READ && !busy
      modifies this`trnidx, this`cred, this`busy, this`offs, this`ebusy, this`calls, this`log, this`out, rdbuf
      ensures Outcome(State(), res) == AdvanceI2c(old(State()), it, dev)
    {
      hide Store, Bytes, Prefix, Amount, Sending;
      trnidx := it.pkt.hflag;
      var want: nat := it.pkt.bflag;
      var a := Ask();
      var k := Amount(a, if offs <= want then want - offs else 0);
      if k == 0 {
        busy := true;
        log := log + [Stalled(it.id)];
        return 1;
      }
      var got := Bytes(a, k);
      StoreAt(offs, got);
      log := log + [Made(it.id, got)];
      offs := offs + k;
      if offs < want {
        return 1;
      }
      offs := 0;
      log := log + [Reply(it.id, Packet(conn, PKT_I2C_DONE, 0, trnidx, Prefix(rdbuf[..], want)), a)];
      return 0;
    }

    method AdvanceIfI2c(it: Item) returns (res: int)
      requires kind == I2c
      modifies this`trnidx, this`cred, this`busy, this`offs, this`ebusy, this`calls, this`log, this`out, rdbuf
      ensures Outcome(State(), res) == AdvanceI2c(old(State()), it, dev)
    {
      if busy {
        return 1;
      }
      if it.pkt.kind == PKT_I2C_START {
        res := I2cStart(it);
      } else if it.pkt.kind == PKT_I2C_WRITE {
        res := I2cWrite(it);
      } else if it.pkt.kind == PKT_I2C_READ {
        res := I2cRead(it);
      } else {
        trnidx := it.pkt.hflag;
        PassOn(it, it.pkt.kind == PKT_I2C_STOP);
        res := 0;
      }
    }

    /** Bytes have gone both ways. */
    method SpiMove(id: nat, rest: seq<byte>, got: seq<byte>)
      modifies this`offs, this`log, rdbuf
      ensures var st := old(State());
              var moved := st.log + [Gave(id, rest)] + [Made(id, got)];
              State() == st.(rdbuf := Store(st.rdbuf, st.offs, got), offs := st.offs + |got|,
                             log := if st.offs + |got| > RDBUF then moved + [Overran(id)] else moved)
    {
      hide Store;
      StoreAt(offs, got);
      log := log + [Gave(id, rest)] + [Made(id, got)];
      offs := offs + |got|;
      if offs > RDBUF {
        log := log + [Overran(id)];
      }
    }

    method AdvanceIfSpi(it: Item) returns (res: int)
      requires kind == Spi
      modifies this`trnidx, this`cred, this`busy, this`offs, this`ebusy, this`calls, this`log, this`out, rdbuf
      ensures Outcome(State(), res) == AdvanceSpi(old(State()), it, dev)
    {
      hide Store, Bytes, Prefix, Amount, Left, Sending;
      if it.pkt.kind != PKT_SPI_TX {
        PassOn(it, it.pkt.kind == PKT_SPI_CS);
        return 0;
      }
      if busy {
        return 1;
      }
      trnidx := it.pkt.hflag;
      var rest := Left(it.pkt.data, offs);
      var a := Ask();
      var k := Amount(a, if |rest| > 256 then 256 else |rest|);
      if k == 0 {
        busy := true;
        log := log + [Stalled(it.id)];
        return 1;
      }
      SpiMove(it.id, rest[..k], Bytes(a, k));
      if offs < |it.pkt.data| {
        return 1;
      }
      offs := 0;
      log := log + [Reply(it.id, Packet(conn, PKT_SPI_RX, 0, trnidx, Prefix(rdbuf[..], |it.pkt.data|)), a)];
      return 0;
    }

    /** The packet that reports a finished transfer. */
    method MakeDone(p: Packet, a: Answer) returns (done: Packet)
      requires Token(p) == USB_TKN_IN ==> |p.data| >= 2
      ensures done == UsbDone(conn, p, a)
    {
      hide Bytes, Amount, InSize, LE16;
      var ep, tkn := p.hflag / 0x10 % 0x10, p.hflag % 0x10;
      var head := tkn + 0x10 * ep + 0x100 * (p.hflag / 0x100 % 0x80);
      if a.res < 0 {
        done := Packet(conn, PKT_USBH_DONE, p.bflag, head + 0x8000, if tkn == USB_TKN_IN then [] else LE16(0));
      } else if tkn == USB_TKN_IN {
        done := Packet(conn, PKT_USBH_DONE, p.bflag, head, Bytes(a, Amount(a, InSize(p))));
      } else {
        done := Packet(conn, PKT_USBH_DONE, p.bflag, head, LE16(Amount(a, |p.data|) % 0x1_0000));
      }
    }

    method UsbhTransfer(it: Item) returns (res: int)
      requires kind == Usbh && it.pkt.kind == PKT_USBH_XFR && !busy
      modifies this`trnidx, this`cred, this`busy, this`offs, this`ebusy, this`calls, this`log, this`out
      ensures Outcome(State(), res) == AdvanceUsbh(old(State()), it, dev)
    {
      hide Sending, UsbDone;
      var ep, tkn := it.pkt.hflag / 0x10 % 0x10, it.pkt.hflag % 0x10;
      if tkn == USB_TKN_SETUP {
        ebusy := ebusy - {ep * 4 + tkn};
      }
      if ep * 4 + tkn in ebusy {
        return -1;
      }
      if tkn == USB_TKN_IN && |it.pkt.data| < 2 {
        log := log + [Dropped(it.id)];
        return 0;
      }
      var a := Ask();
      if tkn == USB_TKN_SETUP {
        log := log + [Called(it.id)];
        return 0;
      }
      if a.res == USB_XFR_NAK {
        ebusy := ebusy + {ep * 4 + tkn};
        log := log + [Paused(it.id, a)];
        return -1;
      }
      var done := MakeDone(it.pkt, a);
      log := log + [Reply(it.id, done, a)];
      return 0;
    }

    method AdvanceIfUsbh(it: Item) returns (res: int)
      requires kind == Usbh
      modifies this`trnidx, this`cred, this`busy, this`offs, this`ebusy, this`calls, this`log, this`out
      ensures Outcome(State(), res) == AdvanceUsbh(old(State()), it, dev)
    {
      hide Sending;
      if it.pkt.kind == PKT_USBH_RESET {
        if !busy {
          busy := true;
          return -2;
        }
        busy, ebusy := false, {};
        log := log + [Reset(it.id)];
        var a := Ask();
        return 0;
      }
      if it.pkt.kind == PKT_USBH_XFR {
        if busy {
          log := log + [Discarded(it.id)];
          return 0;
        }
        res := UsbhTransfer(it);
        return;
      }
      PassOn(it, false);
      return 0;
    }

    method AdvanceIfCan(it: Item) returns (res: int)
      modifies this`trnidx, this`cred, this`busy, this`offs, this`ebusy, this`calls, this`log, this`out
      ensures Outcome(State(), res) == AdvanceCan(old(State()), it, dev)
    {
      hide Sending;
      if it.pkt.kind == PKT_CAN_TX {
        if busy {
          return -1;
        }
        if it.pkt.Len() < 16 || it.pkt.Len() < 16 + CanDataLen(CanDlc(it.pkt.data)) {
          log := log + [Dropped(it.id)];
          return 0;
        }
        var a := Ask();
        if a.res == CAN_STALL {
          busy := true;
          log := log + [Stalled(it.id)];
          return 1;
        }
        log := log + [Reply(it.id, Packet(conn, PKT_CAN_TX_ACK, it.pkt.bflag, if a.res != 0 then 1 else 0, []), a)];
        return 0;
      }
      if it.pkt.kind == PKT_CAN_RX_ACK && it.pkt.bflag == trnidx {
        ebusy := {};
        log := log + [Completed(it.id, it.pkt.hflag)];
        var a := Ask();
        return 0;
      }
      PassOn(it, false);
      return 0;
    }

    /** The switch over the interface type. */
    method AdvanceOne(it: Item) returns (res: int)
      modifies this`trnidx, this`cred, this`busy, this`offs, this`ebusy, this`calls, this`log, this`out, rdbuf
      ensures Outcome(State(), res) == Advance(old(State()), it, dev)
    {
      match kind
      case Uart => res := AdvanceIfUart(it);
      case I2c => res := AdvanceIfI2c(it);
      case Spi => res := AdvanceIfSpi(it);
      case Usbh => res := AdvanceIfUsbh(it);
      case Can => res := AdvanceIfCan(it);
      case Eth => res := AdvanceIfEth(it);
      case Gpio => PassOn(it, it.pkt.kind == PKT_GPIO_UPDATE); res := 0;
      case Event => PassOn(it, it.pkt.kind == PKT_EVENT_UPDATE); res := 0;
    }

    /** Unlinks the packet after slot prxb; erxbufs falls back to that slot if it was the last. */
    method Remove(prxb: RxBuf?, ghost i: nat)
      requires Valid() && i < |nodes|
      requires prxb == if i == 0 then null else nodes[i - 1]
      modifies this`rxbufs, this`erxbufs, this`nodes, prxb
      ensures Valid() && nodes == old(nodes)[..i] + old(nodes)[i + 1..]
      ensures Items() == Without(old(Items()), i)
    {
      hide Ordered, ItemsOf;
      assert NodeOk(i);
      assert i > 0 ==> NodeOk(i - 1);
      var rxb := if prxb == null then rxbufs else prxb.next;
      if rxb.next == null {
        erxbufs := prxb;
      }
      if prxb == null {
        rxbufs := rxb.next;
      } else {
        prxb.next := rxb.next;
      }
      ghost var was := nodes;
      nodes := was[..i] + was[i + 1..];
      RemoveOrdered(was, i);
      CutEnds(was, i);
      forall j | 0 <= j < |nodes|
        ensures NodeOk(j)
      {
        if j + 1 == i {
          assert nodes[j] == prxb;
        } else if j < i {
          assert old(NodeOk(j)) && nodes[j] == was[j];
        } else {
          CutAt(was, i, j);
          assert old(NodeOk(j + 1));
        }
      }
    }

    /** The packet in slot prxb. */
    method Peek(prxb: RxBuf?, ghost i: nat) returns (rxb: RxBuf?)
      requires Valid() && i <= |nodes|
      requires prxb == if i == 0 then null else nodes[i - 1]
      ensures rxb == if i == |nodes| then null else nodes[i]
      ensures rxb != null ==> rxb.item == Items()[i]
    {
      assert i > 0 ==> NodeOk(i - 1);
      rxb := if prxb == null then rxbufs else prxb.next;
    }

    ghost predicate Flushing()
      reads this`busy
    {
      kind == Usbh && busy
    }

    /** One round of the scan loop, at the packet in slot prxb: what is left to scan afterwards comes to
        the same, and is less. */
    method ScanStep(prxb: RxBuf?, ghost i: nat) returns (more: bool, next: RxBuf?, ghost j: nat)
      requires Valid() && i <= |nodes|
      requires prxb == if i == 0 then null else nodes[i - 1]
      modifies this`trnidx, this`cred, this`busy, this`offs, this`ebusy, this`calls, this`log, this`out,
        this`rxbufs, this`erxbufs, this`nodes, rdbuf, prxb
      ensures Valid() && j <= |nodes| && next == if j == 0 then null else nodes[j - 1]
      ensures |nodes| <= |old(nodes)| && forall k :: 0 <= k < |nodes| ==> nodes[k] in old(nodes)
      ensures old(Scan(State(), Items(), i, dev)) ==
              if more then Scan(State(), Items(), j, dev) else Scanned(State(), Items())
      ensures more && |nodes| == |old(nodes)| ==>
              (!old(Flushing()) && Flushing()) || (old(Flushing()) == Flushing() && j > i)
    {
      hide Advance, Ordered, ItemsOf;
      more, next, j := true, null, 0;
      var rxb := Peek(prxb, i);
      if rxb == null {
        more := false;
        return;
      }
      AdvanceMeasure(State(), Items()[i], dev);
      var res := AdvanceOne(rxb.item);
      if res > 0 {
        more := false;
      } else if res == 0 {
        Remove(prxb, i);
      } else if res == -1 {
        next, j := rxb, i + 1;
      }
    }

    /** The scan loop. */
    method AdvanceIf()
      requires Valid()
      modifies this`trnidx, this`cred, this`busy, this`offs, this`ebusy, this`calls, this`log, this`out,
        this`rxbufs, this`erxbufs, this`nodes, rdbuf, nodes
      ensures Valid() && forall n <- nodes :: n in old(nodes)
      ensures Scanned(State(), Items()) ==
              if deferPkt then old(Scanned(State(), Items())) else Scan(old(State()), old(Items()), 0, dev)
    {
      hide Scan, Ordered, ItemsOf;
      if deferPkt {
        return;
      }
      var prxb: RxBuf?, more := null, true;
      ghost var i := 0;
      ghost var result := Scan(State(), Items(), 0, dev);
      while more
        invariant Valid() && forall n <- nodes :: n in old(nodes)
        invariant 0 <= i <= |nodes| && prxb == if i == 0 then null else nodes[i - 1]
        invariant result == if more then Scan(State(), Items(), i, dev) else Scanned(State(), Items())
        decreases more, |nodes|, !Flushing(), |nodes| - i
      {
        assert prxb != null ==> prxb in nodes;
        more, prxb, i := ScanStep(prxb, i);
      }
    }

    ghost function View(): Port
      reads this, rdbuf
    {
      Port(State(), Items(), deferPkt, arrived)
    }

    /** The part of coremodel_process_packet that concerns the interface it is addressed to. */
    method Deliver(pkt: Packet, attaching: bool)
      requires Valid()
      modifies this, rdbuf, nodes
      ensures Valid() && fresh(Footprint() - old(Footprint()))
      ensures View() == Arrive(old(View()), pkt, attaching, dev)
    {
      hide Scan, Ordered, ItemsOf, NodeOk, Sending;
      Append(pkt);
      deferPkt := attaching;
      AdvanceIf();
    }

    /** Appends through the slot erxbufs stands for. */
    method Append(pkt: Packet)
      requires Valid()
      modifies this`rxbufs, this`erxbufs, this`nodes, this`arrived, erxbufs
      ensures Valid() && |nodes| == |old(nodes)| + 1
      ensures nodes[..|old(nodes)|] == old(nodes) && fresh(nodes[|old(nodes)|])
      ensures Items() == old(Items()) + [Item(old(arrived), pkt)] && arrived == old(arrived) + 1
    {
      assert nodes != [] ==> NodeOk(|nodes| - 1);
      var rxb := new RxBuf(Item(arrived, pkt));
      if erxbufs == null {
        rxbufs := rxb;
      } else {
        erxbufs.next := rxb;
      }
      erxbufs := rxb;
      nodes, arrived := nodes + [rxb], arrived + 1;
      forall j | 0 <= j < |nodes|
        ensures NodeOk(j)
      {
        assert j < |old(nodes)| ==> old(NodeOk(j));
      }
    }

    /** coremodel_ready_int. */
    method ReadyInt()
      requires Valid()
      modifies this, rdbuf, nodes
      ensures Valid() && Footprint() <= old(Footprint())
      ensures View() == Ready(old(View()), dev)
    {
      hide Scan;
      busy := false;
      AdvanceIf();
    }

    method UsbhReady(ep: byte, tkn: byte)
      requires Valid()
      modifies this, rdbuf, nodes
      ensures Valid() && Footprint() <= old(Footprint())
      ensures View() == UsbReady(old(View()), ep, tkn, dev)
    {
      hide Scan;
      ebusy := ebusy - {ep * 4 + tkn};
      AdvanceIf();
    }

    /** The part of coremodel_defer_pkt_flush that concerns one interface. */
    method FlushDeferred()
      requires Valid()
      modifies this, rdbuf, nodes
      ensures Valid() && Footprint() <= old(Footprint())
      ensures View() == Flush(old(View()), dev)
    {
      hide Scan;
      if deferPkt {
        deferPkt := false;
        AdvanceIf();
      }
    }
  }
}
