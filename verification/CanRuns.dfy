/**
 The CAN protocol between the host and a peer that acknowledges each host frame once, over two
 channels that keep order.  Frames of the VM and acknowledgements share the channel to the host.  The
 host sends at any time, between scans or from any callback within one.
 */
module CanRuns {
  import opened Wire
  import opened Protocol
  import opened PortRuns
  import opened Books
  import S = StallRuns

  /** `toPeer` holds the indices of host frames the peer has not acknowledged yet; `lost` counts those
      accepted and never pushed, for want of memory. */
  datatype World = World(port: Port, hist: seq<Packet>, toPeer: seq<byte>, toHost: seq<Packet>, accepted: nat,
    lost: nat)

  datatype Move =
    | HostSend(send: Send)
    | PeerAck(nak: bool)
    | PeerFrame(pkt: Packet)
    | Receive(attaching: bool)
    | Wake(input: Input)

  function Begin(conn: u16): World {
    World(Start(Can, conn), [], [], [], 0, 0)
  }

  /** The indices of the packets that were pushed. */
  function Indices(out: seq<Outgoing>): (s: seq<byte>)
    ensures |s| <= |out|
  {
    if out == [] then []
    else Indices(out[..|out| - 1]) + if out[|out| - 1].pushed then [out[|out| - 1].pkt.bflag] else []
  }

  function News(before: seq<Outgoing>, after: seq<Outgoing>): (out: seq<Outgoing>)
    ensures before <= after ==> after == before + out
  {
    if |before| <= |after| then after[|before|..] else []
  }

  /** The interface goes on, and what it has sent meanwhile is on its way to the peer, or lost. */
  function Carry(w: World, port: Port): (w': World)
    ensures w'.toHost == w.toHost
  {
    var out := News(w.port.st.out, port.st.out);
    w.(port := port, toPeer := w.toPeer + Indices(out), accepted := w.accepted + |out|,
       lost := w.lost + |out| - |Indices(out)|)
  }

  function Step(w: World, move: Move, dev: Device): World {
    match move
    case HostSend(send) =>
      Carry(w, w.port.(st := SendAny(w.port.st, send).st))
    case PeerAck(nak) =>
      if w.toPeer == [] then w
      else
        var ack := Packet(w.port.st.conn, PKT_CAN_RX_ACK, w.toPeer[0], if nak then 1 else 0, []);
        w.(toPeer := w.toPeer[1..], toHost := w.toHost + [ack])
    case PeerFrame(pkt) =>
      if pkt.kind == PKT_CAN_TX then w.(toHost := w.toHost + [pkt]) else w
    case Receive(attaching) =>
      if w.toHost == [] then w
      else
        Carry(w, Arrive(w.port, w.toHost[0], attaching, dev)).(hist := w.hist + [w.toHost[0]], toHost := w.toHost[1..])
    case Wake(input) =>
      if input.Deliver? then w else Carry(w, Next(w.port, input, dev))
  }

  function Play(conn: u16, moves: seq<Move>, dev: Device): World {
    if moves == [] then Begin(conn)
    else Step(Play(conn, moves[..|moves| - 1], dev), moves[|moves| - 1], dev)
  }

  predicate IsFrame(p: Packet) {
    p.kind == PKT_CAN_TX
  }

  predicate IsAck(p: Packet) {
    p.kind == PKT_CAN_RX_ACK
  }

  function Acks(ps: seq<Packet>): nat {
    if ps == [] then 0 else Acks(ps[..|ps| - 1]) + if IsAck(ps[|ps| - 1]) then 1 else 0
  }

  function Packets(q: seq<Item>): (ps: seq<Packet>)
    ensures |ps| == |q|
  {
    seq(|q|, i requires 0 <= i < |q| => q[i].pkt)
  }

  lemma {:induction false} AcksConcat(ps: seq<Packet>, rs: seq<Packet>)
    ensures Acks(ps + rs) == Acks(ps) + Acks(rs)
  {
    if rs == [] {
      assert ps + rs == ps;
    } else {
      assert (ps + rs)[..|ps + rs| - 1] == ps + rs[..|rs| - 1];
      AcksConcat(ps, rs[..|rs| - 1]);
    }
  }

  lemma AcksOne(p: Packet)
    ensures Acks([p]) == if IsAck(p) then 1 else 0
  {
    assert [p][..0] == [];
  }

  lemma AcksWithout(q: seq<Item>, i: nat)
    requires i < |q|
    ensures Acks(Packets(q)) == Acks(Packets(Without(q, i))) + if IsAck(q[i].pkt) then 1 else 0
  {
    var ps := Packets(q);
    assert ps == ps[..i] + ([ps[i]] + ps[i + 1..]);
    assert Packets(Without(q, i)) == ps[..i] + ps[i + 1..];
    AcksConcat(ps[..i], [ps[i]] + ps[i + 1..]);
    AcksConcat([ps[i]], ps[i + 1..]);
    AcksConcat(ps[..i], ps[i + 1..]);
    AcksOne(ps[i]);
  }

  lemma AcksAppend(q: seq<Item>, it: Item)
    ensures Acks(Packets(q + [it])) == Acks(Packets(q)) + if IsAck(it.pkt) then 1 else 0
  {
    assert Packets(q + [it]) == Packets(q) + [it.pkt];
    AcksConcat(Packets(q), [it.pkt]);
    AcksOne(it.pkt);
  }

  function Pending(st: IfState): nat {
    if st.ebusy == {} then 0 else 1
  }

  function Completions(log: seq<Entry>): nat {
    if log == [] then 0
    else Completions(log[..|log| - 1]) + if log[|log| - 1].Completed? then 1 else 0
  }

  lemma CompletionsAppend(log: seq<Entry>, e: Entry)
    ensures Completions(log + [e]) == Completions(log) + if e.Completed? then 1 else 0
  {
    assert (log + [e])[..|log|] == log;
  }

  /** The acknowledgements in the queue and the `elsewhere` others add up to the frame outstanding, if
      any, and they all carry its index. */
  ghost predicate Host(st: IfState, q: seq<Item>, elsewhere: nat) {
    st.kind == Can && Acks(Packets(q)) + elsewhere == Pending(st) &&
    forall k :: 0 <= k < |q| ==> IsAck(q[k].pkt) ==> q[k].pkt.bflag == st.trnidx
  }

  /** From st to st' the host's own frames are accounted for: each one accepted is outstanding now or has
      been completed, and the last one accepted has the current index. */
  ghost predicate Counted(st: IfState, st': IfState) {
    st'.kind == Can && st'.conn == st.conn && st.out <= st'.out &&
    var n := |st'.out| - |st.out|;
    Completions(st'.log) + Pending(st') == Completions(st.log) + Pending(st) + n &&
    if n == 0 then st'.trnidx == st.trnidx else st'.out[|st'.out| - 1].pkt.bflag == st'.trnidx
  }

  lemma CountedTrans(a: IfState, b: IfState, c: IfState)
    requires Counted(a, b) && Counted(b, c)
    ensures Counted(a, c)
  {
    hide Completions, Pending;
  }

  lemma CountedNone(st: IfState)
    requires st.kind == Can
    ensures Counted(st, st)
  {
  }

  /** A send is accepted only with nothing outstanding, so that its index meets no old acknowledgement. */
  lemma SendHost(st: IfState, q: seq<Item>, elsewhere: nat, s: Send)
    requires Host(st, q, elsewhere)
    ensures var st' := SendAny(st, s).st;
            Counted(st, st') && Host(st', q, elsewhere + |st'.out| - |st.out|) &&
            (|st'.out| > |st.out| ==> elsewhere == 0)
  {
    hide CanDataLen, CanDlc, Completions;
    if Pending(st) == 0 {
      NoAcks(Packets(q));
      assert forall k :: 0 <= k < |q| ==> Packets(q)[k] == q[k].pkt;
    }
  }

  lemma {:induction false} SendingHost(st: IfState, q: seq<Item>, elsewhere: nat, sends: seq<Send>)
    requires Host(st, q, elsewhere)
    ensures var st' := Sending(st, sends);
            Counted(st, st') && Host(st', q, elsewhere + |st'.out| - |st.out|) &&
            (|st'.out| > |st.out| ==> elsewhere == 0)
  {
    if sends == [] {
      CountedNone(st);
    } else {
      hide SendAny, Host, Counted;
      var init := Sending(st, sends[..|sends| - 1]);
      SendingHost(st, q, elsewhere, sends[..|sends| - 1]);
      SendHost(init, q, elsewhere + |init.out| - |st.out|, sends[|sends| - 1]);
      CountedTrans(st, init, Sending(st, sends));
    }
  }

  /** An acknowledgement completes a send if and only if it carries the index of the last frame sent; any
      other is dropped, and whatever is outstanding stays so. */
  lemma CompletesIff(st: IfState, it: Item, dev: Device)
    requires st.kind == Can && IsAck(it.pkt)
    ensures var o := Advance(st, it, dev);
            if it.pkt.bflag == st.trnidx then
              o.st.log == st.log + [Completed(it.id, it.pkt.hflag)] && o.st.calls == st.calls + 1 &&
              (dev(st.calls).sends == [] ==> o.st.ebusy == {})
            else
              o == Outcome(st.Note(Dropped(it.id)), 0)
  {
    hide SendAny;
  }

  /** What is done about one packet, apart from what its callback sends. */
  lemma AskedHost(st: IfState, q: seq<Item>, elsewhere: nat, dev: Device)
    requires Host(st, q, elsewhere)
    ensures var st' := st.Asked(dev);
            Counted(st, st') && Host(st', q, elsewhere + |st'.out| - |st.out|) &&
            (|st'.out| > |st.out| ==> elsewhere == 0)
  {
    hide Completions, Acks, Packets, Sending;
    SendingHost(st.(calls := st.calls + 1), q, elsewhere, dev(st.calls).sends);
  }

  lemma HostWithout(st: IfState, q: seq<Item>, i: nat, elsewhere: nat)
    requires Host(st, q, elsewhere) && i < |q| && !IsAck(q[i].pkt)
    ensures Host(st, Without(q, i), elsewhere)
  {
    hide Without, Acks, Packets;
    AcksWithout(q, i);
    WithoutAt(q, i);
  }

  /** The acknowledgement of the frame outstanding. */
  lemma HostCompletes(st: IfState, q: seq<Item>, i: nat, elsewhere: nat)
    requires Host(st, q, elsewhere) && i < |q| && IsAck(q[i].pkt)
    ensures q[i].pkt.bflag == st.trnidx && elsewhere == 0 && Pending(st) == 1
    ensures Host(st.(ebusy := {}, log := st.log + [Completed(q[i].id, q[i].pkt.hflag)]), Without(q, i), elsewhere)
  {
    hide Without, Acks, Packets;
    AcksWithout(q, i);
    WithoutAt(q, i);
  }

  /** Entries that are no completion change nothing for the host's own frames, nor does the stall. */
  lemma NotedHost(st: IfState, st': IfState, q: seq<Item>, elsewhere: nat, e: Entry, busy: bool)
    requires !e.Completed? && Counted(st, st') && Host(st', q, elsewhere)
    ensures Counted(st, st'.(busy := busy).Note(e)) && Host(st'.(busy := busy).Note(e), q, elsewhere)
  {
    hide Acks, Packets, Completions;
    CompletionsAppend(st'.log, e);
  }

  /** What the handler and the callback it makes do as far as the host's own frames are concerned. */
  ghost predicate HostKept(st: IfState, q: seq<Item>, i: nat, elsewhere: nat, o: Outcome)
    requires i < |q|
  {
    Counted(st, o.st) && o.res != -2 &&
    Host(o.st, if o.res == 0 then Without(q, i) else q, elsewhere + |o.st.out| - |st.out|) &&
    (|o.st.out| > |st.out| ==> elsewhere == 0)
  }

  lemma FrameStep(st: IfState, q: seq<Item>, i: nat, elsewhere: nat, dev: Device)
    requires Host(st, q, elsewhere) && i < |q| && IsFrame(q[i].pkt)
    ensures HostKept(st, q, i, elsewhere, AdvanceCan(st, q[i], dev))
  {
    hide Host, Counted, Without, CanAccepts, TxAck, Sending;
    HostKind(st, q, elsewhere);
    CountedNone(st);
    HostWithout(st, q, i, elsewhere);
    AskedHost(st, q, elsewhere, dev);
    var asked := st.Asked(dev);
    var more := elsewhere + |asked.out| - |st.out|;
    HostWithout(asked, q, i, more);
    NotedHost(st, st, Without(q, i), elsewhere, Dropped(q[i].id), st.busy);
    NotedHost(st, asked, q, more, Stalled(q[i].id), true);
    var ack := Reply(q[i].id, TxAck(st, q[i].pkt, dev(st.calls).res != 0), dev(st.calls));
    NotedHost(st, asked, Without(q, i), more, ack, asked.busy);
  }

  lemma AckStep(st: IfState, q: seq<Item>, i: nat, elsewhere: nat, dev: Device)
    requires Host(st, q, elsewhere) && i < |q| && IsAck(q[i].pkt)
    ensures HostKept(st, q, i, elsewhere, AdvanceCan(st, q[i], dev))
    ensures Completions(AdvanceCan(st, q[i], dev).st.log) == Completions(st.log) + 1
  {
    hide Acks, Packets, Without, Completions, Sending;
    HostCompletes(st, q, i, elsewhere);
    var e := Completed(q[i].id, q[i].pkt.hflag);
    CompletionsAppend(st.log, e);
    var done := st.(ebusy := {}).Note(e);
    AskedHost(done, Without(q, i), elsewhere, dev);
  }

  lemma HostStep(st: IfState, q: seq<Item>, i: nat, elsewhere: nat, dev: Device)
    requires Host(st, q, elsewhere) && i < |q|
    ensures HostKept(st, q, i, elsewhere, AdvanceCan(st, q[i], dev))
  {
    hide HostKept;
    if IsFrame(q[i].pkt) {
      FrameStep(st, q, i, elsewhere, dev);
    } else if IsAck(q[i].pkt) {
      AckStep(st, q, i, elsewhere, dev);
    } else {
      OtherStep(st, q, i, elsewhere, dev);
    }
  }

  lemma OtherStep(st: IfState, q: seq<Item>, i: nat, elsewhere: nat, dev: Device)
    requires Host(st, q, elsewhere) && i < |q| && !IsFrame(q[i].pkt) && !IsAck(q[i].pkt)
    ensures HostKept(st, q, i, elsewhere, AdvanceCan(st, q[i], dev))
  {
    hide Host, Counted, Without;
    HostKind(st, q, elsewhere);
    CountedNone(st);
    HostWithout(st, q, i, elsewhere);
    NotedHost(st, st, Without(q, i), elsewhere, Dropped(q[i].id), st.busy);
  }

  /** From st to st', with q' queued then. */
  ghost predicate Goes(st: IfState, elsewhere: nat, st': IfState, q': seq<Item>) {
    Counted(st, st') && Host(st', q', elsewhere + |st'.out| - |st.out|) && (|st'.out| > |st.out| ==> elsewhere == 0)
  }

  lemma GoesTrans(a: IfState, elsewhere: nat, b: IfState, q: seq<Item>, c: IfState, r: seq<Item>)
    requires Goes(a, elsewhere, b, q) && Goes(b, elsewhere + |b.out| - |a.out|, c, r)
    ensures Goes(a, elsewhere, c, r)
  {
    hide Host, Completions, Pending;
    CountedTrans(a, b, c);
  }

  lemma GoesNone(st: IfState, q: seq<Item>, elsewhere: nat)
    requires Host(st, q, elsewhere)
    ensures Goes(st, elsewhere, st, q)
  {
    CountedNone(st);
  }

  lemma StepGoes(st: IfState, q: seq<Item>, i: nat, elsewhere: nat, dev: Device)
    requires Host(st, q, elsewhere) && i < |q|
    ensures var o := AdvanceCan(st, q[i], dev);
            var q' := if o.res == 0 then Without(q, i) else q;
            o.res != -2 && o.st.kind == Can && |st.out| <= |o.st.out| && Goes(st, elsewhere, o.st, q') &&
            Host(o.st, q', elsewhere + |o.st.out| - |st.out|)
  {
    hide AdvanceCan, Host, Without, Completions, Pending;
    HostStep(st, q, i, elsewhere, dev);
  }

  lemma {:induction false} HostScan(st: IfState, q: seq<Item>, i: nat, elsewhere: nat, dev: Device)
    requires Host(st, q, elsewhere) && i <= |q|
    ensures var s := Scan(st, q, i, dev); Goes(st, elsewhere, s.st, s.q)
    decreases |q|, |q| - i
  {
    hide AdvanceCan, Host, Goes, Without;
    HostKind(st, q, elsewhere);
    GoesNone(st, q, elsewhere);
    if i < |q| {
      WithoutAt(q, i);
      StepGoes(st, q, i, elsewhere, dev);
      var o := AdvanceCan(st, q[i], dev);
      var more := elsewhere + |o.st.out| - |st.out|;
      if o.res == 0 {
        HostScan(o.st, Without(q, i), 0, more, dev);
        var s := Scan(o.st, Without(q, i), 0, dev);
        GoesTrans(st, elsewhere, o.st, Without(q, i), s.st, s.q);
      } else if o.res < 0 {
        HostScan(o.st, q, i + 1, more, dev);
        var s := Scan(o.st, q, i + 1, dev);
        GoesTrans(st, elsewhere, o.st, q, s.st, s.q);
      }
    }
  }

  lemma HostKind(st: IfState, q: seq<Item>, elsewhere: nat)
    requires Host(st, q, elsewhere)
    ensures st.kind == Can
  {
  }

  ghost predicate HostSound(w: World) {
    var trn := w.port.st.trnidx;
    Host(w.port.st, w.port.q, Acks(w.toHost) + |w.toPeer| + w.lost) &&
    (forall p <- w.toHost :: IsAck(p) ==> p.bflag == trn) &&
    (forall t <- w.toPeer :: t == trn) &&
    w.accepted == Completions(w.port.st.log) + Pending(w.port.st)
  }

  lemma RescanHost(p: Port, elsewhere: nat, dev: Device)
    requires Host(p.st, p.q, elsewhere)
    ensures var r := Rescan(p, dev);
            Counted(p.st, r.st) && Host(r.st, r.q, elsewhere + |r.st.out| - |p.st.out|) &&
            (|r.st.out| > |p.st.out| ==> elsewhere == 0)
  {
    hide Scan, Host, Counted;
    HostKind(p.st, p.q, elsewhere);
    CountedNone(p.st);
    HostScan(p.st, p.q, 0, elsewhere, dev);
  }

  /** The world after the interface has gone on: at most one new frame, with nothing else outstanding. */
  lemma CarryHost(w: World, before: IfState, port: Port, toHost: seq<Packet>)
    requires before == w.port.st.(busy := before.busy) && Counted(before, port.st)
    requires w.accepted == Completions(w.port.st.log) + Pending(w.port.st)
    requires (forall p <- toHost :: IsAck(p) ==> p.bflag == w.port.st.trnidx) &&
             (forall t <- w.toPeer :: t == w.port.st.trnidx)
    requires var elsewhere := Acks(toHost) + |w.toPeer| + w.lost;
             var n := |port.st.out| - |w.port.st.out|;
             Host(port.st, port.q, elsewhere + n) && (n > 0 ==> elsewhere == 0)
    ensures HostSound(Carry(w, port).(toHost := toHost))
  {
    hide Completions, Packets;
    var out := News(w.port.st.out, port.st.out);
    if out == [] {
      assert Indices(out) == [] && w.toPeer + [] == w.toPeer;
    } else {
      NoAcks(toHost);
      assert |out| == 1;
      assert out[..0] == [];
    }
  }

  lemma {:induction false} NoAcks(ps: seq<Packet>)
    requires Acks(ps) == 0
    ensures forall p <- ps :: !IsAck(p)
  {
    if ps != [] {
      NoAcks(ps[..|ps| - 1]);
      assert ps == ps[..|ps| - 1] + [ps[|ps| - 1]];
    }
  }

  lemma PeerHost(w: World, move: Move, dev: Device)
    requires HostSound(w) && (move.PeerAck? || move.PeerFrame?)
    ensures HostSound(Step(w, move, dev))
  {
    hide Completions, Pending, Packets, Acks, Carry, Arrive, Next, SendAny;
    var next := Step(w, move, dev);
    if next != w {
      var p := next.toHost[|w.toHost|];
      assert next.toHost == w.toHost + [p];
      AcksConcat(w.toHost, [p]);
      AcksOne(p);
      if move.PeerAck? {
        assert w.toPeer[0] in w.toPeer;
        assert forall t <- w.toPeer[1..] :: t in w.toPeer;
      }
    }
  }

  lemma ReceiveHost(w: World, attaching: bool, dev: Device)
    requires HostSound(w) && w.toHost != []
    ensures HostSound(Step(w, Receive(attaching), dev))
  {
    hide Completions, Pending, Packets, Rescan, Acks, Carry, Counted;
    var p, rest := w.toHost[0], w.toHost[1..];
    assert w.toHost == [p] + rest;
    AcksConcat([p], rest);
    AcksOne(p);
    AcksAppend(w.port.q, Item(w.port.arrived, p));
    var port := w.port.(q := w.port.q + [Item(w.port.arrived, p)], arrived := w.port.arrived + 1, defer := attaching);
    RescanHost(port, Acks(rest) + |w.toPeer| + w.lost, dev);
    CarryHost(w, w.port.st, Rescan(port, dev), rest);
    SameSound(Carry(w, Rescan(port, dev)).(toHost := rest), w.hist + [p]);
  }

  lemma SameSound(w: World, hist: seq<Packet>)
    requires HostSound(w)
    ensures HostSound(w.(hist := hist))
  {
  }

  lemma WakeHost(w: World, input: Input, dev: Device)
    requires HostSound(w) && !input.Deliver? && !input.UsbUnpause?
    ensures HostSound(Step(w, Wake(input), dev))
  {
    hide Completions, Packets, Rescan, Acks, Carry, Counted;
    var elsewhere := Acks(w.toHost) + |w.toPeer| + w.lost;
    CountedNone(w.port.st);
    match input
    case Unstall =>
      var port := w.port.(st := w.port.st.(busy := false));
      RescanHost(port, elsewhere, dev);
      CarryHost(w, port.st, Rescan(port, dev), w.toHost);
      assert Carry(w, Rescan(port, dev)).(toHost := w.toHost) == Carry(w, Rescan(port, dev));
    case CatchUp =>
      if w.port.defer {
        RescanHost(w.port.(defer := false), elsewhere, dev);
      }
      var port := Next(w.port, CatchUp, dev);
      CarryHost(w, w.port.st, port, w.toHost);
      assert Carry(w, port).(toHost := w.toHost) == Carry(w, port);
  }

  lemma HostSendHost(w: World, send: Send, dev: Device)
    requires HostSound(w)
    ensures HostSound(Step(w, HostSend(send), dev))
  {
    hide Completions, Packets, Acks, Carry, Counted, SendAny;
    var elsewhere := Acks(w.toHost) + |w.toPeer| + w.lost;
    SendHost(w.port.st, w.port.q, elsewhere, send);
    var port := w.port.(st := SendAny(w.port.st, send).st);
    CarryHost(w, w.port.st, port, w.toHost);
    assert Carry(w, port).(toHost := w.toHost) == Carry(w, port);
  }

  /** The wake-ups of a CAN interface: its ready call and the flush after the attach. */
  predicate CanMove(move: Move) {
    move.Wake? ==> !move.input.UsbUnpause?
  }

  lemma {:induction false} HostAlways(conn: u16, moves: seq<Move>, dev: Device)
    requires forall m <- moves :: CanMove(m)
    ensures HostSound(Play(conn, moves, dev))
  {
    if moves != [] {
      hide Step, HostSound;
      var w, move := Play(conn, moves[..|moves| - 1], dev), moves[|moves| - 1];
      assert forall m <- moves[..|moves| - 1] :: m in moves;
      HostAlways(conn, moves[..|moves| - 1], dev);
      assert CanMove(move);
      HostMove(w, move, dev);
    } else {
      BeginHost(conn);
    }
  }

  lemma BeginHost(conn: u16)
    ensures HostSound(Begin(conn))
  {
  }

  lemma HostMove(w: World, move: Move, dev: Device)
    requires HostSound(w) && CanMove(move)
    ensures HostSound(Step(w, move, dev))
  {
    hide HostSound, Arrive, Next, SendAny, Carry;
    match move
    case HostSend(send) => HostSendHost(w, send, dev);
    case PeerAck(_) => PeerHost(w, move, dev);
    case PeerFrame(_) => PeerHost(w, move, dev);
    case Receive(attaching) =>
      if w.toHost != [] {
        ReceiveHost(w, attaching, dev);
      }
    case Wake(input) =>
      if !input.Deliver? {
        WakeHost(w, input, dev);
      }
  }

  /** Stop and wait: in every reachable state of the two parties at most one host frame is outstanding;
      it is in exactly one place, on its way to the peer, acknowledged on the way back, acknowledged and
      queued, or lost because its push failed; every acknowledgement under way carries the current index, so
      none is mistaken; and the frames accepted are those completed plus the one outstanding. */
  lemma StopAndWait(conn: u16, moves: seq<Move>, dev: Device)
    requires forall m <- moves :: CanMove(m)
    ensures var w := Play(conn, moves, dev);
            var st := w.port.st;
            Acks(Packets(w.port.q)) + Acks(w.toHost) + |w.toPeer| + w.lost == Pending(st) <= 1 &&
            (forall k :: 0 <= k < |w.port.q| ==> IsAck(w.port.q[k].pkt) ==> w.port.q[k].pkt.bflag == st.trnidx) &&
            (forall p <- w.toHost :: IsAck(p) ==> p.bflag == st.trnidx) &&
            (forall t <- w.toPeer :: t == st.trnidx) &&
            w.accepted == Completions(st.log) + Pending(st)
  {
    hide Play, Acks, Packets, Completions;
    HostAlways(conn, moves, dev);
  }

  /** A send that is accepted loses its frame exactly if the push fails, which the caller is not told. */
  lemma LostIff(conn: u16, moves: seq<Move>, send: Send, dev: Device)
    requires forall m <- moves :: CanMove(m)
    requires |send.ctrl| == 16 && SendAny(Play(conn, moves, dev).port.st, send).ret == 0
    ensures Step(Play(conn, moves, dev), HostSend(send), dev).lost == 0 <==> send.memory
  {
    hide Play, Acks, Packets, Completions, CanDataLen, CanDlc;
    HostAlways(conn, moves, dev);
    var st := Play(conn, moves, dev).port.st;
    var out := News(st.out, SendAny(st, send).st.out);
    assert |out| == 1 && out[..0] == [];
  }

  /** A lost frame ends sending for good: no acknowledgement ever comes, and every later send is refused. */
  lemma {:induction false} LostFrameBlocks(conn: u16, moves: seq<Move>, more: seq<Move>, dev: Device)
    requires (forall m <- moves + more :: CanMove(m)) && Play(conn, moves, dev).lost > 0
    ensures var w, w' := Play(conn, moves, dev), Play(conn, moves + more, dev);
            w'.lost == 1 && w'.port.st.ebusy != {} && w'.accepted == w.accepted &&
            Completions(w'.port.st.log) == Completions(w.port.st.log)
  {
    hide Step, HostSound, Acks, Packets, Completions, Pending;
    assert forall m <- moves :: m in moves + more;
    HostAlways(conn, moves, dev);
    LostOnly(Play(conn, moves, dev));
    if more == [] {
      assert moves + more == moves;
    } else {
      var init, last := more[..|more| - 1], more[|more| - 1];
      assert (moves + more)[..|moves + more| - 1] == moves + init && forall m <- moves + init :: m in moves + more;
      LostFrameBlocks(conn, moves, init, dev);
      HostAlways(conn, moves + init, dev);
      HostAlways(conn, moves + more, dev);
      LostStep(Play(conn, moves + init, dev), last, dev);
    }
  }

  lemma LostOnly(w: World)
    requires HostSound(w) && w.lost > 0
    ensures w.lost == 1 && w.port.st.ebusy != {} && w.toPeer == [] && w.accepted == Completions(w.port.st.log) + 1
  {
    hide Acks, Packets, Completions;
  }

  lemma LostStep(w: World, move: Move, dev: Device)
    requires HostSound(w) && w.lost > 0 && HostSound(Step(w, move, dev))
    ensures var w' := Step(w, move, dev);
            w'.lost == 1 && w'.port.st.ebusy != {} && w'.accepted == w.accepted &&
            Completions(w'.port.st.log) == Completions(w.port.st.log)
  {
    hide HostSound, Arrive, Next, SendAny, Completions, News;
    LostOnly(w);
    LostOnly(Step(w, move, dev));
  }

  /** Such a run: one send whose push fails. */
  lemma LostFrameExample(conn: u16, dev: Device)
    ensures Play(conn, [HostSend(Send(Zeros(16), [], false))], dev).lost == 1
  {
    hide CanDataLen, CanDlc;
    var m := HostSend(Send(Zeros(16), [], false));
    assert [m][..0] == [];
    assert Play(conn, [m], dev) == Step(Begin(conn), m, dev);
    assert CanDataLen(CanDlc(Zeros(16))) == 0 by {
      NoData();
    }
    var out := News([], SendAny(Begin(conn).port.st, m.send).st.out);
    assert |out| == 1 && out[..0] == [];
  }

  /** How many data bytes a frame has, by the low 11 bits of its control words: in steps of 1, 4 and 16 as on
      CAN FD, and beyond that one more than the code says. */
  lemma FrameLength(ctrl: seq<byte>)
    requires |ctrl| >= 2
    ensures var dlc := ctrl[0] as int + 0x100 * (ctrl[1] as int % 8);
            CanDataLen(CanDlc(ctrl)) ==
            if dlc <= 8 then dlc
            else if dlc <= 12 then 4 * (dlc - 6)
            else if dlc <= 15 then 16 * (dlc - 11)
            else dlc + 1
  {
    hide CanDlc;
    DlcBits(ctrl);
  }

  lemma DlcBits(ctrl: seq<byte>)
    requires |ctrl| >= 2
    ensures CanDlc(ctrl) == ctrl[0] as int + 0x100 * (ctrl[1] as int % 8)
  {
    var hi: int := ctrl[1];
    assert hi == 8 * (hi / 8) + hi % 8;
    assert GetLE16(ctrl, 0) == ctrl[0] as int + 0x100 * (hi % 8) + 0x800 * (hi / 8);
  }

  lemma NoData()
    ensures CanDataLen(CanDlc(Zeros(16))) == 0
  {
    assert GetLE16(Zeros(16), 0) == 0;
  }

  ghost predicate VmSettles(e: Entry, p: Packet, conn: u16) {
    match e
    case Reply(_, d, a) =>
      IsFrame(p) && CanAccepts(p) && d == Packet(conn, PKT_CAN_TX_ACK, p.bflag, if a.res == 0 then 0 else 1, [])
    case Completed(_, nak) => IsAck(p) && nak == p.hflag
    case Dropped(_) => !(IsFrame(p) && CanAccepts(p))
    case _ => false
  }

  /** Acknowledgements of VM frames come in arrival order, and before any frame still queued. */
  ghost predicate AcksInOrder(log: seq<Entry>, q: seq<Item>) {
    (forall a, b :: 0 <= a < b < |log| && log[a].Reply? && log[b].Reply? ==> log[a].id < log[b].id) &&
    (forall a, k :: 0 <= a < |log| && 0 <= k < |q| && log[a].Reply? && IsFrame(q[k].pkt) ==> log[a].id < q[k].id)
  }

  ghost predicate Vm(st: IfState, q: seq<Item>, hist: seq<Packet>) {
    var log := Finals(st.log);
    st.kind == Can && Balanced(log, q, hist) && AcksInOrder(log, q) &&
    forall a :: 0 <= a < |log| ==> VmSettles(log[a], hist[log[a].id], st.conn)
  }

  lemma VmSettle(st: IfState, q: seq<Item>, i: nat, hist: seq<Packet>, e: Entry)
    requires Vm(st, q, hist) && i < |q| && e.id == q[i].id && VmSettles(e, q[i].pkt, st.conn)
    requires e.Reply? ==> i == 0
    ensures Vm(st.Note(e), Without(q, i), hist)
  {
    hide Without, Finals, CanAccepts;
    FinalsAppend(st.log, e);
    SettleBalanced(Finals(st.log), q, i, hist, e);
    WithoutAt(q, i);
  }

  /** Where a CAN scan can stand: past frames only while a frame is stalled. */
  ghost predicate At(st: IfState, q: seq<Item>, i: nat) {
    i <= |q| && (i > 0 ==> st.busy) && forall j :: 0 <= j < i ==> IsFrame(q[j].pkt)
  }

  lemma VmStep(st: IfState, q: seq<Item>, i: nat, hist: seq<Packet>, dev: Device)
    requires Vm(st, q, hist) && At(st, q, i) && i < |q|
    ensures var o := AdvanceCan(st, q[i], dev);
            st.kind == o.st.kind == Can && o.res >= -1 && (st.busy ==> o.res <= 0 && o.st.busy) &&
            (o.res == 0 ==> Vm(o.st, Without(q, i), hist)) &&
            (o.res != 0 ==> Vm(o.st, q, hist)) &&
            (o.res == -1 ==> At(o.st, q, i + 1))
  {
    hide Balanced, AcksInOrder, Finals, Without, CanAccepts;
    var o := AdvanceCan(st, q[i], dev);
    if o.res == 0 {
      assert q[i].pkt == hist[q[i].id] by {
        QueueMatches(st, q, i, hist);
      }
      VmSettle(st, q, i, hist, o.st.log[|st.log|]);
    } else if o.res > 0 {
      FinalsAppend(st.log, Stalled(q[i].id));
      assert Finals(st.log) + [] == Finals(st.log);
    }
  }

  lemma QueueMatches(st: IfState, q: seq<Item>, i: nat, hist: seq<Packet>)
    requires Vm(st, q, hist) && i < |q|
    ensures q[i].id < |hist| && q[i].pkt == hist[q[i].id]
  {
  }

  /** A scan keeps the books, and one that starts behind a stalled frame leaves nothing but frames. */
  lemma {:induction false} VmScan(st: IfState, q: seq<Item>, i: nat, hist: seq<Packet>, dev: Device)
    requires Vm(st, q, hist) && At(st, q, i)
    ensures var s := Scan(st, q, i, dev);
            Vm(s.st, s.q, hist) &&
            (st.busy ==> s.st.busy && forall k :: 0 <= k < |s.q| ==> IsFrame(s.q[k].pkt))
    decreases |q|, |q| - i
  {
    hide AdvanceCan, Vm, Without;
    if i < |q| {
      WithoutAt(q, i);
      VmStep(st, q, i, hist, dev);
      var o := AdvanceCan(st, q[i], dev);
      if o.res == 0 {
        VmScan(o.st, Without(q, i), 0, hist, dev);
      } else if o.res < 0 {
        VmScan(o.st, q, i + 1, hist, dev);
      }
    }
  }

  ghost predicate VmSound(w: World) {
    Vm(w.port.st, w.port.q, w.hist) && w.port.arrived == |w.hist|
  }

  lemma VmArrive(st: IfState, q: seq<Item>, hist: seq<Packet>, pkt: Packet)
    requires Vm(st, q, hist)
    ensures Vm(st, q + [Item(|hist|, pkt)], hist + [pkt])
  {
    hide VmSettles, Finals;
    ArriveBalanced(Finals(st.log), q, hist, pkt);
  }

  lemma VmMove(w: World, move: Move, dev: Device)
    requires VmSound(w)
    ensures VmSound(Step(w, move, dev))
  {
    hide Vm, Scan;
    var st, q := w.port.st, w.port.q;
    match move
    case HostSend(send) =>
      VmFlags(st, q, w.hist, SendAny(st, send).st);
    case PeerAck(_) =>
    case PeerFrame(_) =>
    case Receive(attaching) =>
      if w.toHost != [] {
        VmArrive(st, q, w.hist, w.toHost[0]);
        VmScan(st, q + [Item(w.port.arrived, w.toHost[0])], 0, w.hist + [w.toHost[0]], dev);
      }
    case Wake(input) =>
      var woken := if input.Unstall? then st.(busy := false)
                   else if input.UsbUnpause? then st.(ebusy := st.ebusy - {input.ep * 4 + input.tkn}) else st;
      VmFlags(st, q, w.hist, woken);
      VmScan(woken, q, 0, w.hist, dev);
  }

  lemma VmFlags(st: IfState, q: seq<Item>, hist: seq<Packet>, other: IfState)
    requires Vm(st, q, hist) && other.kind == st.kind && other.log == st.log && other.conn == st.conn
    ensures Vm(other, q, hist)
  {
  }

  lemma {:induction false} VmAlways(conn: u16, moves: seq<Move>, dev: Device)
    ensures VmSound(Play(conn, moves, dev))
  {
    if moves != [] {
      hide Step, VmSound;
      VmAlways(conn, moves[..|moves| - 1], dev);
      VmMove(Play(conn, moves[..|moves| - 1], dev), moves[|moves| - 1], dev);
    }
  }

  /** VM frames: in every reachable state each packet received is queued or settled once, a well-formed
      frame by the one acknowledgement that carries its index, and acknowledgements are in order. */
  lemma FramesAcknowledged(conn: u16, moves: seq<Move>, dev: Device)
    ensures var w := Play(conn, moves, dev);
            var log := Finals(w.port.st.log);
            Balanced(log, w.port.q, w.hist) && AcksInOrder(log, w.port.q) &&
            (forall id :: 0 <= id < |w.hist| ==> Queued(w.port.q, id) != Settled(log, id)) &&
            (forall a :: 0 <= a < |log| ==> VmSettles(log[a], w.hist[log[a].id], w.port.st.conn))
  {
    hide Play, VmSettles, AcksInOrder, Finals;
    VmAlways(conn, moves, dev);
    var w := Play(conn, moves, dev);
    Fates(Finals(w.port.st.log), w.port.q, w.hist);
  }

  /** A frame of the VM is stalled, by the history: the device has answered CAN_STALL, and there was no ready
      call since. */
  ghost predicate FrameStalled(conn: u16, moves: seq<Move>, dev: Device) {
    moves != [] &&
    var init, last := moves[..|moves| - 1], moves[|moves| - 1];
    (FrameStalled(conn, init, dev) && last != Wake(Unstall)) ||
    S.Stalls(Play(conn, moves, dev).port.st.log, |Play(conn, init, dev).port.st.log|)
  }

  /** The last entry about a frame says that it was stalled. */
  ghost predicate StalledLast(log: seq<Entry>, id: nat) {
    exists a :: 0 <= a < |log| && log[a] == Stalled(id) &&
      forall b :: a < b < |log| ==> !log[b].Stalled? && !log[b].Reply?
  }

  /** While `busy` is set, the frame that was stalled is at the head of the queue. */
  ghost predicate Held(st: IfState, q: seq<Item>) {
    st.busy ==> q != [] && IsFrame(q[0].pkt) && CanAccepts(q[0].pkt) && StalledLast(st.log, q[0].id)
  }

  lemma StalledNow(log: seq<Entry>, id: nat)
    ensures StalledLast(log + [Stalled(id)], id)
  {
    assert (log + [Stalled(id)])[|log|] == Stalled(id);
  }

  lemma StalledStill(log: seq<Entry>, id: nat, e: Entry)
    requires StalledLast(log, id) && !e.Stalled? && !e.Reply?
    ensures StalledLast(log + [e], id)
  {
    var a :| 0 <= a < |log| && log[a] == Stalled(id) &&
      forall b :: a < b < |log| ==> !log[b].Stalled? && !log[b].Reply?;
    assert (log + [e])[a] == Stalled(id);
  }

  lemma HeldStep(st: IfState, q: seq<Item>, i: nat, dev: Device)
    requires st.kind == Can && Held(st, q) && i < |q| && (i > 0 ==> st.busy)
    ensures var o := AdvanceCan(st, q[i], dev);
            o.st.kind == Can && o.res != -2 && (o.res == -1 ==> o.st.busy) &&
            Held(o.st, if o.res == 0 then Without(q, i) else q)
  {
    hide CanAccepts, TxAck, Sending, Without, StalledLast;
    WithoutAt(q, i);
    var it := q[i];
    StalledNow(st.log, it.id);
    if st.busy {
      StalledStill(st.log, q[0].id, Completed(it.id, it.pkt.hflag));
      StalledStill(st.log, q[0].id, Dropped(it.id));
    }
  }

  lemma {:induction false} HeldScan(st: IfState, q: seq<Item>, i: nat, dev: Device)
    requires st.kind == Can && Held(st, q) && i <= |q| && (i > 0 ==> st.busy)
    ensures var s := Scan(st, q, i, dev); Held(s.st, s.q)
    decreases |q|, |q| - i
  {
    if i < |q| {
      hide AdvanceCan, Without, Held;
      HeldStep(st, q, i, dev);
      WithoutAt(q, i);
      var o := AdvanceCan(st, q[i], dev);
      if o.res == 0 {
        HeldScan(o.st, Without(q, i), 0, dev);
      } else if o.res < 0 {
        HeldScan(o.st, q, i + 1, dev);
      }
    }
  }

  /** What one move does about the stall. */
  lemma StallMove(w: World, move: Move, dev: Device)
    requires w.port.st.kind == Can && Held(w.port.st, w.port.q)
    ensures var st, w' := w.port.st, Step(w, move, dev);
            w'.port.st.kind == Can && Held(w'.port.st, w'.port.q) && st.log <= w'.port.st.log &&
            (w'.port.st.busy <==> (st.busy && move != Wake(Unstall)) || S.Stalls(w'.port.st.log, |st.log|))
  {
    hide Scan, StalledLast, CanAccepts, SendAny, S.Blocks;
    var st, q := w.port.st, w.port.q;
    match move
    case HostSend(_) =>
    case PeerAck(_) =>
    case PeerFrame(_) =>
    case Receive(attaching) =>
      if w.toHost != [] {
        HeldScan(st, q + [Item(w.port.arrived, w.toHost[0])], 0, dev);
        S.ScanMarks(st, q + [Item(w.port.arrived, w.toHost[0])], 0, dev);
      }
    case Wake(input) =>
      if !input.Deliver? {
        var woken := if input.Unstall? then st.(busy := false)
                     else if input.UsbUnpause? then st.(ebusy := st.ebusy - {input.ep * 4 + input.tkn}) else st;
        HeldScan(woken, q, 0, dev);
        S.ScanMarks(woken, q, 0, dev);
      }
  }

  /** The stall is exact, in every reachable state: `busy` is set if and only if a frame is stalled, which
      is then the first packet queued, and the last that the device was offered. */
  lemma {:induction false} StallStands(conn: u16, moves: seq<Move>, dev: Device)
    ensures var p := Play(conn, moves, dev).port;
            p.st.kind == Can && (p.st.busy <==> FrameStalled(conn, moves, dev)) && Held(p.st, p.q)
  {
    if moves != [] {
      hide Step, Held, S.Stalls;
      StallStands(conn, moves[..|moves| - 1], dev);
      StallMove(Play(conn, moves[..|moves| - 1], dev), moves[|moves| - 1], dev);
    }
  }

  /** A stalled frame is not offered again before the ready call, nor is any frame behind it: each callback
      made on account of an arrival belongs to another packet, and the frames stay queued. */
  lemma NotOffered(conn: u16, moves: seq<Move>, attaching: bool, dev: Device)
    requires FrameStalled(conn, moves, dev) && Play(conn, moves, dev).toHost != []
    ensures var w, w' := Play(conn, moves, dev), Step(Play(conn, moves, dev), Receive(attaching), dev);
            w'.port.st.busy &&
            S.Aside(w.port.st, w.port.q + [Item(w.port.arrived, w.toHost[0])], w'.port.st, w'.port.q)
  {
    hide Play, Scan, FrameStalled, S.Data;
    StallStands(conn, moves, dev);
    var w := Play(conn, moves, dev);
    S.StalledScan(w.port.st, w.port.q + [Item(w.port.arrived, w.toHost[0])], 0, dev);
  }

  /** The ready call offers the stalled frame again, and a device that does not stall any more is offered the
      whole queue. */
  lemma FrameResumes(conn: u16, moves: seq<Move>, dev: Device)
    requires FrameStalled(conn, moves, dev) && !Play(conn, moves, dev).port.defer
    ensures var p := Play(conn, moves, dev).port;
            var p' := Step(Play(conn, moves, dev), Wake(Unstall), dev).port;
            p.q != [] && p'.st.calls > p.st.calls && p.st.log < p'.st.log &&
            p'.st.log[|p.st.log|].id == p.q[0].id &&
            ((forall k :: p.st.calls <= k ==> dev(k).res != CAN_STALL) ==> p'.q == [])
  {
    hide Play, Ready, FrameStalled, StalledLast, CanAccepts;
    StallStands(conn, moves, dev);
    var p := Play(conn, moves, dev).port;
    S.Resumes(p, dev);
    if forall k :: p.st.calls <= k ==> dev(k).res != CAN_STALL {
      S.CanQueueEmpties(p, dev);
    }
  }

  lemma {:induction false} FramesOnly(q: seq<Item>)
    requires forall k :: 0 <= k < |q| ==> IsFrame(q[k].pkt)
    ensures Acks(Packets(q)) == 0
  {
    if q != [] {
      FramesOnly(q[..|q| - 1]);
      assert Packets(q)[..|q| - 1] == Packets(q[..|q| - 1]);
    }
  }

  /** An acknowledgement that arrives behind a stalled frame is acted on at once: the send it belongs to
      completes, while the frame is still stalled.  Nothing is outstanding afterwards but what a callback
      has sent in the same scan, one frame at most. */
  lemma AckOvertakes(conn: u16, moves: seq<Move>, dev: Device)
    requires forall m <- moves :: CanMove(m)
    requires FrameStalled(conn, moves, dev)
    requires Play(conn, moves, dev).toHost != [] && IsAck(Play(conn, moves, dev).toHost[0])
    ensures var w, w' := Play(conn, moves, dev), Step(Play(conn, moves, dev), Receive(false), dev);
            w'.port.st.busy && Completions(w'.port.st.log) == Completions(w.port.st.log) + 1 &&
            w'.accepted == w.accepted + Pending(w'.port.st) &&
            forall k :: 0 <= k < |w'.port.q| ==> IsFrame(w'.port.q[k].pkt)
  {
    hide Play, Step, HostSound, Completions, Acks, Packets, FrameStalled;
    var w := Play(conn, moves, dev);
    var w' := Step(w, Receive(false), dev);
    StalledScan(conn, moves, dev);
    FramesOnly(w'.port.q);
    HostAlways(conn, moves, dev);
    HostMove(w, Receive(false), dev);
    OneAck(w, w', dev);
  }

  lemma OneAck(w: World, w': World, dev: Device)
    requires HostSound(w) && HostSound(w') && w.toHost != [] && IsAck(w.toHost[0])
    requires w' == Step(w, Receive(false), dev) && Acks(Packets(w'.port.q)) == 0
    ensures Completions(w'.port.st.log) == Completions(w.port.st.log) + 1
    ensures w'.accepted == w.accepted + Pending(w'.port.st)
  {
    hide Arrive, Completions, Acks, Packets;
    var p, rest := w.toHost[0], w.toHost[1..];
    assert w.toHost == [p] + rest;
    AcksConcat([p], rest);
    AcksOne(p);
  }

  /** Whatever arrives, a stalled scan leaves nothing but frames. */
  lemma StalledScan(conn: u16, moves: seq<Move>, dev: Device)
    requires FrameStalled(conn, moves, dev) && Play(conn, moves, dev).toHost != []
    ensures var w := Step(Play(conn, moves, dev), Receive(false), dev);
            w.port.st.busy && forall k :: 0 <= k < |w.port.q| ==> IsFrame(w.port.q[k].pkt)
  {
    hide Play, Scan, Vm, Held, FrameStalled;
    VmAlways(conn, moves, dev);
    StallStands(conn, moves, dev);
    var w := Play(conn, moves, dev);
    VmArrive(w.port.st, w.port.q, w.hist, w.toHost[0]);
    VmScan(w.port.st, w.port.q + [Item(w.port.arrived, w.toHost[0])], 0, w.hist + [w.toHost[0]], dev);
  }

  lemma PlaySnoc(conn: u16, moves: seq<Move>, move: Move, dev: Device)
    ensures Play(conn, moves + [move], dev) == Step(Play(conn, moves, dev), move, dev)
    ensures FrameStalled(conn, moves, dev) && move != Wake(Unstall) ==> FrameStalled(conn, moves + [move], dev)
  {
    hide Step;
    assert (moves + [move])[..|moves|] == moves;
  }

  /** The state after the device has stalled one frame of the VM. */
  function OneStalled(conn: u16, f: Packet): World {
    var st := Begin(conn).port.st.(busy := true, calls := 1, log := [Stalled(0)]);
    World(Port(st, [Item(0, f)], false, 1), [f], [], [], 0, 0)
  }

  lemma StallFirst(conn: u16, f: Packet, dev: Device)
    requires IsFrame(f) && CanAccepts(f) && dev(0) == Answer(CAN_STALL, [], [])
    ensures Play(conn, [] + [PeerFrame(f)] + [Receive(false)], dev) == OneStalled(conn, f)
    ensures FrameStalled(conn, [] + [PeerFrame(f)] + [Receive(false)], dev)
  {
    hide CanAccepts, Play, FrameStalled;
    PlaySnoc(conn, [], PeerFrame(f), dev);
    PlaySnoc(conn, [] + [PeerFrame(f)], Receive(false), dev);
    BeginIs(conn, dev);
    var st, it := Begin(conn).port.st, Item(0, f);
    assert [] + [Stalled(0)] == [Stalled(0)] && [] + [it] == [it] && [] + [f] == [f] && [f][1..] == [];
    assert Scan(st, [it], 0, dev) == Scanned(OneStalled(conn, f).port.st, [it]);
    StallStands(conn, [] + [PeerFrame(f)] + [Receive(false)], dev);
  }

  lemma BeginIs(conn: u16, dev: Device)
    ensures Play(conn, [], dev) == Begin(conn)
  {
  }

  /** A run in which an acknowledgement overtakes a stalled frame: the device stalls a frame of the VM, the
      host sends a frame of its own, and the peer acknowledges it. */
  lemma AckOvertakesExample(conn: u16, dev: Device)
    requires dev(0) == Answer(CAN_STALL, [], [])
    ensures var f := Packet(conn, PKT_CAN_TX, 0, 0, Zeros(16));
            var send := HostSend(Send(Zeros(16), [], true));
            var moves := [] + [PeerFrame(f)] + [Receive(false)] + [send] + [PeerAck(false)];
            var w, w' := Play(conn, moves, dev), Play(conn, moves + [Receive(false)], dev);
            FrameStalled(conn, moves, dev) && w.toHost != [] && IsAck(w.toHost[0]) &&
            Completions(w.port.st.log) == 0 && Completions(w'.port.st.log) == 1 && Item(0, f) in w'.port.q
  {
    hide Play, FrameStalled, Step, CanAccepts, IsAck, Completions;
    var f, m := Packet(conn, PKT_CAN_TX, 0, 0, Zeros(16)), HostSend(Send(Zeros(16), [], true));
    var moves := [] + [PeerFrame(f)] + [Receive(false)];
    FrameAccepted(conn);
    StallFirst(conn, f, dev);
    PlaySnoc(conn, moves, m, dev);
    PlaySnoc(conn, moves + [m], PeerAck(false), dev);
    SendAndAck(conn, f, dev);
    PlaySnoc(conn, moves + [m] + [PeerAck(false)], Receive(false), dev);
    AckOvertakes(conn, moves + [m] + [PeerAck(false)], dev);
    NotOffered(conn, moves + [m] + [PeerAck(false)], false, dev);
    var w := Play(conn, moves + [m] + [PeerAck(false)], dev);
    assert w.port.q[0] in w.port.q + [Item(w.port.arrived, w.toHost[0])];
  }

  lemma FrameAccepted(conn: u16)
    ensures CanAccepts(Packet(conn, PKT_CAN_TX, 0, 0, Zeros(16)))
  {
    hide CanDataLen, CanDlc;
    NoData();
  }

  lemma SendAndAck(conn: u16, f: Packet, dev: Device)
    ensures var w := Step(Step(OneStalled(conn, f), HostSend(Send(Zeros(16), [], true)), dev), PeerAck(false), dev);
            w.port.q == [Item(0, f)] && w.port.st.log == [Stalled(0)] && |w.toHost| == 1 && IsAck(w.toHost[0]) &&
            Completions(w.port.st.log) == 0 && w.port.st.kind == Can
  {
    hide CanDataLen, CanDlc, Indices;
    NoData();
    var w := OneStalled(conn, f);
    var out := News([], SendAny(w.port.st, Send(Zeros(16), [], true)).st.out);
    assert |out| == 1 && out[0].pushed;
    OneIndex(out[0]);
    assert out == [out[0]] && [Stalled(0)][..0] == [];
  }

  lemma OneIndex(o: Outgoing)
    ensures Indices([o]) == if o.pushed then [o.pkt.bflag] else []
  {
    assert [o][..0] == [];
  }

  /** The whole frame lies within the packet: header, 16 bytes of control words, then the data. */
  predicate CanHolds(p: Packet) {
    p.Len() >= 24 && p.Len() >= 24 + CanDataLen(CanDlc(p.data))
  }

  /** The length test of the handler is 8 short: it accepts every whole frame, but also exactly those
      whose length falls in the last 8 bytes before that. */
  lemma LengthTestGap(p: Packet)
    ensures CanHolds(p) ==> CanAccepts(p)
    ensures CanAccepts(p) && !CanHolds(p) <==>
            p.Len() >= 16 && 16 + CanDataLen(CanDlc(p.data)) <= p.Len() < 24 + CanDataLen(CanDlc(p.data))
  {
    hide CanDataLen, CanDlc;
  }

  lemma LengthTestGapExample()
    ensures var p := Packet(1, PKT_CAN_TX, 0, 0, [8] + Zeros(15)); CanAccepts(p) && !CanHolds(p)
  {
  }
}
