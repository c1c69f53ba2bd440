/**
 What the peer gets to see of what the host sends: UART data as a stream, Ethernet frames and CAN frames
 whole and in order.
 */
module SendRuns {
  import opened Wire
  import opened Protocol
  import opened PortRuns
  import C = CreditRuns
  import N = CanRuns

  /** A call of uart_rx in state st: whatever has happened since the call before. */
  datatype Call = Call(st: IfState, memory: bool)

  /** Calls the length field can describe, on one connection. */
  ghost predicate Callable(conn: u16, data: seq<byte>, calls: seq<Call>) {
    forall c <- calls :: c.st.conn == conn && (|data| < 0xFFF8 || c.st.cred < 0xFFF8)
  }

  /** The sender offers the rest again: the sum of the results. */
  ghost function Taken(conn: u16, data: seq<byte>, calls: seq<Call>): (n: nat)
    requires Callable(conn, data, calls)
    ensures n <= |data|
  {
    if calls == [] then 0
    else
      var ret := SendUart(calls[0].st, data, calls[0].memory).ret;
      ret + Taken(conn, data[ret..], calls[1..])
  }

  /** The packets that these calls have added, in order. */
  ghost function Wired(conn: u16, data: seq<byte>, calls: seq<Call>): seq<Outgoing>
    requires Callable(conn, data, calls)
  {
    if calls == [] then []
    else
      var s := SendUart(calls[0].st, data, calls[0].memory);
      s.st.out[|calls[0].st.out|..] + Wired(conn, data[s.ret..], calls[1..])
  }

  function Payload(out: seq<Outgoing>): seq<byte> {
    if out == [] then [] else out[0].pkt.data + Payload(out[1..])
  }

  lemma {:induction false} PayloadConcat(a: seq<Outgoing>, b: seq<Outgoing>)
    ensures Payload(a + b) == Payload(a) + Payload(b)
  {
    if a == [] {
      assert a + b == b;
    } else {
      assert (a + b)[1..] == a[1..] + b;
      PayloadConcat(a[1..], b);
    }
  }

  lemma PayloadOne(o: Outgoing)
    ensures Payload([o]) == o.pkt.data
  {
  }

  /** The credit that the calls have found, leaving out those without memory. */
  function Found(calls: seq<Call>): nat {
    if calls == [] then 0 else (if calls[0].memory then calls[0].st.cred else 0) + Found(calls[1..])
  }

  predicate UartPacket(o: Outgoing, conn: u16) {
    o.pushed && o.pkt == Packet(conn, PKT_UART_RX, 0, 0, o.pkt.data)
  }

  /** UART data is a stream: a sender that offers the rest again after each call, in any states and with
      failing pushes in between, has put exactly the front of the data on the wire that the results
      add up to, and that is as much as there was credit for. */
  lemma {:induction false} UartStream(conn: u16, data: seq<byte>, calls: seq<Call>)
    requires Callable(conn, data, calls)
    ensures var n, out := Taken(conn, data, calls), Wired(conn, data, calls);
            Payload(out) == data[..n] && (forall o <- out :: UartPacket(o, conn)) &&
            n == if |data| <= Found(calls) then |data| else Found(calls)
    decreases |calls|
  {
    hide Payload, SendUart, UartPacket;
    if calls != [] {
      var st, memory := calls[0].st, calls[0].memory;
      var s := SendUart(st, data, memory);
      UartCall(st, data, memory);
      UartStream(conn, data[s.ret..], calls[1..]);
      PayloadConcat(s.st.out[|st.out|..], Wired(conn, data[s.ret..], calls[1..]));
    } else {
      PayloadNone();
    }
  }

  lemma PayloadNone()
    ensures Payload([]) == []
  {
  }

  /** One call takes what there is credit for, and puts that front of the data on the wire. */
  lemma UartCall(st: IfState, data: seq<byte>, memory: bool)
    requires |data| < 0xFFF8 || st.cred < 0xFFF8
    ensures var s := SendUart(st, data, memory);
            s.ret == (if !memory then 0 else if |data| <= st.cred then |data| else st.cred) &&
            st.out <= s.st.out && Payload(s.st.out[|st.out|..]) == data[..s.ret] &&
            forall o <- s.st.out[|st.out|..] :: UartPacket(o, st.conn)
  {
    var s := SendUart(st, data, memory);
    if |s.st.out| > |st.out| {
      assert s.st.out[|st.out|..] == [s.st.out[|st.out|]];
      PayloadOne(s.st.out[|st.out|]);
    }
  }

  /** The callbacks send nothing. */
  ghost predicate Silent(dev: Device) {
    forall n :: dev(n).sends == []
  }

  ghost predicate Quiet(st: IfState, st': IfState) {
    st'.kind == st.kind && st'.conn == st.conn && st'.out == st.out && (st.kind == Can ==> st'.trnidx == st.trnidx)
  }

  lemma SilentStep(st: IfState, it: Item, dev: Device)
    requires Silent(dev)
    ensures var st' := Advance(st, it, dev).st;
            st'.out == st.out && (st.kind == Can ==> st'.trnidx == st.trnidx)
  {
    hide AdvanceI2c, Left, Store, Bytes, Prefix, Amount, UsbDone, TxAck, CanAccepts, Slot, Token;
    if st.kind == I2c {
      SilentI2c(st, it, dev);
    }
  }

  lemma SilentI2c(st: IfState, it: Item, dev: Device)
    requires Silent(dev)
    ensures AdvanceI2c(st, it, dev).st.out == st.out
  {
    hide Left, Store, Bytes, Prefix, Amount, Done;
  }

  lemma {:induction false} SilentScan(st: IfState, q: seq<Item>, i: nat, dev: Device)
    requires Silent(dev) && i <= |q|
    ensures var s := Scan(st, q, i, dev);
            Quiet(st, s.st)
    decreases |q|, !(st.kind == Usbh && st.busy), |q| - i
  {
    if i < |q| {
      hide Advance, Silent;
      SilentStep(st, q[i], dev);
      AdvanceMeasure(st, q[i], dev);
      var o := Advance(st, q[i], dev);
      if o.res == 0 {
        SilentScan(o.st, Without(q, i), 0, dev);
      } else if o.res == -2 {
        SilentScan(o.st, q, 0, dev);
      } else if o.res < 0 {
        SilentScan(o.st, q, i + 1, dev);
      }
    }
  }

  lemma SilentNext(p: Port, input: Input, dev: Device)
    requires Silent(dev)
    ensures Quiet(p.st, Next(p, input, dev).st)
  {
    hide Scan, Silent;
    match input
    case Deliver(pkt, attaching) => SilentScan(p.st, p.q + [Item(p.arrived, pkt)], 0, dev);
    case Unstall => SilentScan(p.st.(busy := false), p.q, 0, dev);
    case UsbUnpause(ep, tkn) => SilentScan(p.st.(ebusy := p.st.ebusy - {ep * 4 + tkn}), p.q, 0, dev);
    case CatchUp => SilentScan(p.st, p.q, 0, dev);
  }

  /** The sum of the results of the host's sends. */
  ghost function Results(kind: Kind, conn: u16, grant: u32, moves: seq<C.Move>, dev: Device): nat {
    if moves == [] then 0
    else
      var init, last := moves[..|moves| - 1], moves[|moves| - 1];
      Results(kind, conn, grant, init, dev) +
      if last.HostSend? then SendAny(C.Play(kind, conn, grant, init, dev).port.st, last.send).ret else 0
  }

  /** Each send offers what the results so far have left of the data. */
  ghost predicate OneSender(conn: u16, grant: u32, data: seq<byte>, moves: seq<C.Move>, dev: Device) {
    forall k :: 0 <= k < |moves| && moves[k].HostSend? ==>
      moves[k].send.data == Left(data, Results(Uart, conn, grant, moves[..k], dev))
  }

  /** What one move adds to what the peer gets to see. */
  lemma MoveSends(w: C.World, move: C.Move, dev: Device)
    requires Silent(dev)
    ensures var st, st' := w.port.st, C.Step(w, move, dev).port.st;
            st'.kind == st.kind && st'.conn == st.conn &&
            (move.HostSend? ==> st' == SendAny(st, move.send).st) &&
            (!move.HostSend? && !(move.Locked? && st.kind == Eth) ==> st'.out == st.out)
  {
    hide Next, Silent, SendAny;
    var st := w.port.st;
    match move
    case Receive(attaching) =>
      if w.toHost != [] {
        SilentNext(w.port, Deliver(w.toHost[0], attaching), dev);
        DeliverArrives(w.port, w.toHost[0], attaching, dev);
      }
    case Wake(input) =>
      SilentNext(w.port, input, dev);
    case _ =>
  }

  lemma DeliverArrives(p: Port, pkt: Packet, attaching: bool, dev: Device)
    ensures Next(p, Deliver(pkt, attaching), dev) == Arrive(p, pkt, attaching, dev)
  {
  }

  lemma PlayKind(kind: Kind, conn: u16, grant: u32, moves: seq<C.Move>, dev: Device)
    requires Silent(dev)
    ensures var st := C.Play(kind, conn, grant, moves, dev).port.st; st.kind == kind && st.conn == conn
  {
    hide C.Step;
    if moves != [] {
      PlayKind(kind, conn, grant, moves[..|moves| - 1], dev);
      MoveSends(C.Play(kind, conn, grant, moves[..|moves| - 1], dev), moves[|moves| - 1], dev);
    }
  }

  lemma UartSend(st: IfState, send: Send)
    requires st.kind == Uart
    ensures var s := SendAny(st, send);
            s.ret <= |send.data| && st.out <= s.st.out && Payload(s.st.out[|st.out|..]) == send.data[..s.ret] &&
            forall o <- s.st.out[|st.out|..] :: UartPacket(o, st.conn)
  {
    hide SendUart, UartPacket, Payload;
    PayloadNone();
    if |send.data| < 0xFFF8 || st.cred < 0xFFF8 {
      UartCall(st, send.data, send.memory);
    } else {
      assert st.out[|st.out|..] == [];
    }
  }

  /** Over every run: with one sender, what has gone to the peer is the front of the data that the results
      add up to, whatever credit comes in between and whichever pushes fail. */
  lemma {:induction false} StreamOnWire(conn: u16, grant: u32, data: seq<byte>, moves: seq<C.Move>, dev: Device)
    requires Silent(dev) && OneSender(conn, grant, data, moves, dev)
    ensures var n, st := Results(Uart, conn, grant, moves, dev), C.Play(Uart, conn, grant, moves, dev).port.st;
            n <= |data| && Payload(st.out) == data[..n] && forall o <- st.out :: UartPacket(o, conn)
  {
    hide C.Step, Silent, UartPacket, SendAny;
    if moves != [] {
      var init, last := moves[..|moves| - 1], moves[|moves| - 1];
      assert forall k :: 0 <= k < |init| ==> moves[..k] == init[..k];
      StreamOnWire(conn, grant, data, init, dev);
      PlayKind(Uart, conn, grant, init, dev);
      var w := C.Play(Uart, conn, grant, init, dev);
      MoveSends(w, last, dev);
      if last.HostSend? {
        UartSend(w.port.st, last.send);
        var out := SendAny(w.port.st, last.send).st.out;
        assert out == w.port.st.out + out[|w.port.st.out|..];
        PayloadConcat(w.port.st.out, out[|w.port.st.out|..]);
      }
    }
  }

  /** The Ethernet frames that found credit and memory, sent at once or by threads that take the lock
      later, which do not look at the credit again. */
  ghost function Frames(conn: u16, grant: u32, moves: seq<C.Move>, dev: Device): seq<seq<byte>> {
    if moves == [] then []
    else
      var init, last := moves[..|moves| - 1], moves[|moves| - 1];
      var w := C.Play(Eth, conn, grant, init, dev);
      var goes := match last
        case HostSend(s) => s.memory && |s.data| < 0xFFF8 && w.port.st.cred > 0
        case Locked(data, memory) => memory && |data| < 0xFFF8 && w.passed > 0
        case _ => false;
      Frames(conn, grant, init, dev) + if !goes then [] else [if last.HostSend? then last.send.data else last.data]
  }

  /** The packets of these frames, in order. */
  function EthPackets(conn: u16, frames: seq<seq<byte>>): (out: seq<Outgoing>)
    ensures |out| == |frames|
  {
    seq(|frames|, i requires 0 <= i < |frames| => Outgoing(Packet(conn, PKT_ETH_RX, 0, 0, frames[i]), true))
  }

  /** One Ethernet send, in any state: the whole frame goes out if there is credit and memory. */
  lemma EthSend(st: IfState, s: Send)
    requires st.kind == Eth && |s.data| < 0xFFF8
    ensures SendAny(st, s).st.out ==
            st.out + if s.memory && st.cred > 0 then EthPackets(st.conn, [s.data]) else []
    ensures SendLocked(st, s.data, s.memory).st.out ==
            st.out + if s.memory then EthPackets(st.conn, [s.data]) else []
  {
  }

  lemma EthMove(w: C.World, move: C.Move, dev: Device)
    requires w.port.st.kind == Eth && (move.HostSend? || move.Locked?)
    ensures var st := w.port.st;
            var data := if move.HostSend? then move.send.data else move.data;
            var goes := if move.HostSend? then move.send.memory && |data| < 0xFFF8 && st.cred > 0
                        else move.memory && |data| < 0xFFF8 && w.passed > 0;
            C.Step(w, move, dev).port.st.out == st.out + if goes then EthPackets(st.conn, [data]) else []
  {
    hide SendAny, SendLocked, EthPackets;
    var s := if move.HostSend? then move.send else Send([], move.data, move.memory);
    if |s.data| < 0xFFF8 {
      EthSend(w.port.st, s);
    } else {
      TooLong(w.port.st, s);
    }
  }

  lemma TooLong(st: IfState, s: Send)
    requires st.kind == Eth && |s.data| >= 0xFFF8
    ensures SendAny(st, s).st == st
  {
  }

  /** Over every run: the peer gets exactly those Ethernet frames, whole and in order. */
  lemma {:induction false} FramesOnWire(conn: u16, grant: u32, moves: seq<C.Move>, dev: Device)
    requires Silent(dev)
    ensures C.Play(Eth, conn, grant, moves, dev).port.st.out == EthPackets(conn, Frames(conn, grant, moves, dev))
  {
    hide C.Step, Silent;
    if moves != [] {
      var init, last := moves[..|moves| - 1], moves[|moves| - 1];
      FramesOnWire(conn, grant, init, dev);
      PlayKind(Eth, conn, grant, init, dev);
      var w := C.Play(Eth, conn, grant, init, dev);
      if last.HostSend? || last.Locked? {
        EthMove(w, last, dev);
      } else {
        MoveSends(w, last, dev);
      }
    }
  }

  /** The CAN sends that are to be accepted. */
  ghost function Accepted(conn: u16, moves: seq<N.Move>, dev: Device): seq<Send> {
    if moves == [] then []
    else
      var init, last := moves[..|moves| - 1], moves[|moves| - 1];
      Accepted(conn, init, dev) +
      if last.HostSend? && Acceptable(N.Play(conn, init, dev).port.st, last.send) then [last.send] else []
  }

  /** No frame is outstanding, and there are as many data bytes as the control words say. */
  predicate Acceptable(st: IfState, s: Send) {
    st.ebusy == {} && |s.ctrl| == 16 && |s.data| >= CanDataLen(CanDlc(s.ctrl))
  }

  /** The packet carries the frame: 16 bytes of control words, then as many data bytes as these say. */
  ghost predicate Carries(o: Outgoing, s: Send, k: nat, conn: u16) {
    o.pushed == s.memory && o.pkt.conn == conn && o.pkt.kind == PKT_CAN_RX && o.pkt.bflag == (k + 1) % 0x100 &&
    o.pkt.hflag == 0 && |s.ctrl| == 16 && |o.pkt.data| == 16 + CanDataLen(CanDlc(s.ctrl)) &&
    o.pkt.data[..16] == s.ctrl && o.pkt.data[16..] <= s.data
  }

  /** One CAN send, in any state: a frame is accepted and numbered, and it is outstanding then, if and only if
      none is outstanding and its data is there. */
  lemma CanSend(st: IfState, s: Send)
    requires st.kind == Can
    ensures var r := SendAny(st, s);
            (|s.ctrl| == 16 ==> (r.ret == 0 <==> Acceptable(st, s))) &&
            if Acceptable(st, s) then
              |r.st.out| == |st.out| + 1 && st.out <= r.st.out && r.st.trnidx == (st.trnidx + 1) % 0x100 &&
              r.st.ebusy != {} && Carries(r.st.out[|st.out|], s, st.trnidx, st.conn)
            else
              r.st == st
  {
    hide CanDlc, CanDataLen;
  }

  lemma CanMoveSends(w: N.World, move: N.Move, dev: Device)
    requires Silent(dev)
    ensures var st, st' := w.port.st, N.Step(w, move, dev).port.st;
            if move.HostSend? then st' == SendAny(st, move.send).st else Quiet(st, st')
  {
    hide Next, Silent, SendAny;
    match move
    case Receive(attaching) =>
      if w.toHost != [] {
        SilentNext(w.port, Deliver(w.toHost[0], attaching), dev);
        DeliverArrives(w.port, w.toHost[0], attaching, dev);
      }
    case Wake(input) =>
      SilentNext(w.port, input, dev);
    case _ =>
  }

  /** The next number goes round with the index. */
  lemma NextIndex(n: nat)
    ensures (n % 0x100 + 1) % 0x100 == (n + 1) % 0x100
  {
  }

  lemma CarriesLater(o: Outgoing, s: Send, n: nat, conn: u16)
    requires Carries(o, s, n % 0x100, conn)
    ensures Carries(o, s, n, conn)
  {
    hide CanDataLen, CanDlc;
    NextIndex(n);
  }

  /** Over every run: each of these CAN frames, and no other, becomes one packet, in order, whose index is its
      number and from which the peer reads back the control words and the data. */
  lemma {:induction false} CanOnWire(conn: u16, moves: seq<N.Move>, dev: Device)
    requires Silent(dev)
    ensures var sends, st := Accepted(conn, moves, dev), N.Play(conn, moves, dev).port.st;
            st.kind == Can && st.conn == conn && |st.out| == |sends| && st.trnidx == |sends| % 0x100 &&
            forall k :: 0 <= k < |sends| ==> Carries(st.out[k], sends[k], k, conn)
  {
    hide N.Step, Silent, Carries, SendAny, Acceptable;
    if moves != [] {
      var init, last := moves[..|moves| - 1], moves[|moves| - 1];
      CanOnWire(conn, init, dev);
      var w := N.Play(conn, init, dev);
      CanMoveSends(w, last, dev);
      if last.HostSend? {
        CanSend(w.port.st, last.send);
        NextIndex(|w.port.st.out|);
        if |N.Step(w, last, dev).port.st.out| > |w.port.st.out| {
          CarriesLater(N.Step(w, last, dev).port.st.out[|w.port.st.out|], last.send, |w.port.st.out|, conn);
        }
      }
    }
  }
}
