/**
 Credits on the UART and Ethernet buses, with a peer that keeps order and gives back credit only for
 what it has consumed.  UART credit counts bytes, Ethernet credit counts frames.  The host sends at any
 time: between scans, from any callback within one, and on Ethernet from threads that have found
 credit and not yet taken the lock.
 */
module CreditRuns {
  import opened Wire
  import opened Protocol
  import opened PortRuns

  /** `toPeer` is on its way; `buffered` is what the peer has not consumed; `passed` threads stand between
      the test and the lock of an Ethernet send. */
  datatype World = World(port: Port, toPeer: seq<Outgoing>, buffered: nat, toHost: seq<Packet>, passed: nat)

  datatype Move =
    | HostSend(send: Send)
    | Test
    | Locked(data: seq<byte>, memory: bool)
    | PeerReceive
    | PeerConsume(n: u16)
    | PeerOther(pkt: Packet)
    | Receive(attaching: bool)
    | Wake(input: Input)

  /** Right after the attach, with the credit granted in the response. */
  function Begin(kind: Kind, conn: u16, grant: u32): World {
    var p := Start(kind, conn);
    World(p.(st := p.st.(cred := grant)), [], 0, [], 0)
  }

  function Cost(kind: Kind, o: Outgoing): nat {
    if kind == Eth then 1 else |o.pkt.data|
  }

  function Spent(kind: Kind, out: seq<Outgoing>): nat {
    if out == [] then 0 else Spent(kind, out[..|out| - 1]) + Cost(kind, out[|out| - 1])
  }

  lemma {:induction false} SpentConcat(kind: Kind, a: seq<Outgoing>, b: seq<Outgoing>)
    ensures Spent(kind, a + b) == Spent(kind, a) + Spent(kind, b)
  {
    if b == [] {
      assert a + b == a;
    } else {
      assert (a + b)[..|a + b| - 1] == a + b[..|b| - 1];
      SpentConcat(kind, a, b[..|b| - 1]);
    }
  }

  lemma SpentPush(kind: Kind, out: seq<Outgoing>, o: Outgoing)
    ensures Spent(kind, out + [o]) == Spent(kind, out) + Cost(kind, o)
  {
    assert (out + [o])[..|out|] == out;
  }

  lemma {:induction false} SpentFront(kind: Kind, out: seq<Outgoing>)
    requires out != []
    ensures Spent(kind, out) == Cost(kind, out[0]) + Spent(kind, out[1..])
  {
    assert out == [out[0]] + out[1..];
    SpentConcat(kind, [out[0]], out[1..]);
    assert [out[0]][..0] == [];
  }

  /** The interface goes on, and what it has sent meanwhile is on its way to the peer. */
  function Carry(w: World, port: Port): World {
    var n := |w.port.st.out|;
    w.(port := port, toPeer := w.toPeer + if n <= |port.st.out| then port.st.out[n..] else [])
  }

  function Step(w: World, move: Move, dev: Device): World {
    match move
    case HostSend(send) =>
      Carry(w, w.port.(st := SendAny(w.port.st, send).st))
    case Test =>
      if w.port.st.kind == Eth && w.port.st.cred > 0 then w.(passed := w.passed + 1) else w
    case Locked(data, memory) =>
      if w.port.st.kind != Eth || w.passed == 0 || |data| >= 0xFFF8 then w
      else Carry(w, w.port.(st := SendLocked(w.port.st, data, memory).st)).(passed := w.passed - 1)
    case PeerReceive =>
      if w.toPeer == [] then w
      else w.(toPeer := w.toPeer[1..], buffered := w.buffered + Cost(w.port.st.kind, w.toPeer[0]))
    case PeerConsume(n) =>
      if n > w.buffered then w
      else w.(buffered := w.buffered - n, toHost := w.toHost + [Packet(w.port.st.conn, PKT_UART_RX_ACK, 0, n, [])])
    case PeerOther(pkt) =>
      if IsAck(pkt) then w else w.(toHost := w.toHost + [pkt])
    case Receive(attaching) =>
      if w.toHost == [] then w
      else Carry(w, Arrive(w.port, w.toHost[0], attaching, dev)).(toHost := w.toHost[1..])
    case Wake(input) =>
      if input.Deliver? then w else Carry(w, Next(w.port, input, dev))
  }

  function Play(kind: Kind, conn: u16, grant: u32, moves: seq<Move>, dev: Device): World {
    if moves == [] then Begin(kind, conn, grant)
    else Step(Play(kind, conn, grant, moves[..|moves| - 1], dev), moves[|moves| - 1], dev)
  }

  /** Both buses number their acknowledgement alike. */
  predicate IsAck(p: Packet) {
    p.kind == PKT_UART_RX_ACK
  }

  function Back(p: Packet): nat {
    if IsAck(p) then p.hflag else 0
  }

  function Returning(ps: seq<Packet>): nat {
    if ps == [] then 0 else Back(ps[0]) + Returning(ps[1..])
  }

  lemma {:induction false} ReturningSnoc(ps: seq<Packet>, p: Packet)
    ensures Returning(ps + [p]) == Returning(ps) + Back(p)
  {
    if ps == [] {
      assert ps + [p] == [p];
    } else {
      assert (ps + [p])[1..] == ps[1..] + [p];
      ReturningSnoc(ps[1..], p);
    }
  }

  function QueuedCredit(q: seq<Item>): nat {
    if q == [] then 0 else Back(q[0].pkt) + QueuedCredit(q[1..])
  }

  lemma {:induction false} QueuedCreditSnoc(q: seq<Item>, it: Item)
    ensures QueuedCredit(q + [it]) == QueuedCredit(q) + Back(it.pkt)
  {
    if q == [] {
      assert q + [it] == [it];
    } else {
      assert (q + [it])[1..] == q[1..] + [it];
      QueuedCreditSnoc(q[1..], it);
    }
  }

  function Readies(log: seq<Entry>): nat {
    if log == [] then 0
    else Readies(log[..|log| - 1]) + if log[|log| - 1].RxReady? then 1 else 0
  }

  lemma ReadiesAppend(log: seq<Entry>, e: Entry)
    ensures Readies(log + [e]) == Readies(log) + if e.RxReady? then 1 else 0
  {
    assert (log + [e])[..|log|] == log;
  }

  /** Credit held and credit spent. */
  function Held(st: IfState): nat {
    st.cred + Spent(st.kind, st.out)
  }

  lemma UartKeeps(st: IfState, data: seq<byte>, memory: bool)
    requires st.kind == Uart && (|data| < 0xFFF8 || st.cred < 0xFFF8)
    ensures Held(SendUart(st, data, memory).st) == Held(st)
  {
    hide Spent;
    var n := if |data| <= st.cred then |data| else st.cred;
    SpentPush(Uart, st.out, Outgoing(Packet(st.conn, PKT_UART_RX, 0, 0, data[..n]), true));
  }

  lemma EthKeeps(st: IfState, data: seq<byte>, memory: bool)
    requires st.kind == Eth && |data| < 0xFFF8
    ensures Held(SendEth(st, data, memory).st) == Held(st)
  {
    hide Spent;
    SpentPush(Eth, st.out, Outgoing(Packet(st.conn, PKT_ETH_RX, 0, 0, data), true));
  }

  /** A send only turns credit held into credit spent. */
  lemma SendKeeps(st: IfState, s: Send)
    requires Credited(st.kind)
    ensures Held(SendAny(st, s).st) == Held(st)
  {
    hide SendUart, SendEth, Held;
    if st.kind == Uart && (|s.data| < 0xFFF8 || st.cred < 0xFFF8) {
      UartKeeps(st, s.data, s.memory);
    } else if st.kind == Eth && |s.data| < 0xFFF8 {
      EthKeeps(st, s.data, s.memory);
    }
  }

  lemma {:induction false} SendingKeeps(st: IfState, sends: seq<Send>)
    requires Credited(st.kind)
    ensures Held(Sending(st, sends)) == Held(st)
  {
    hide SendAny, Held;
    if sends != [] {
      SendingKeeps(st, sends[..|sends| - 1]);
      SendKeeps(Sending(st, sends[..|sends| - 1]), sends[|sends| - 1]);
    }
  }

  lemma AskedKeeps(st: IfState, dev: Device)
    requires Credited(st.kind)
    ensures Held(st.Asked(dev)) == Held(st)
  {
    SendingKeeps(st.(calls := st.calls + 1), dev(st.calls).sends);
  }

  /** From st to st': credit came in, rxrdy was called if there was none before, and the rest is sends. */
  ghost predicate Credits(st: IfState, st': IfState, back: nat) {
    st'.kind == st.kind && st'.conn == st.conn && st.out <= st'.out &&
    Held(st') == Held(st) + back && Readies(st'.log) >= Readies(st.log) &&
    (st.cred == 0 < back ==> Readies(st'.log) > Readies(st.log))
  }

  lemma AddCreditStep(st: IfState, it: Item, dev: Device)
    requires Credited(st.kind) && IsAck(it.pkt) && st.cred + it.pkt.hflag < WRAP
    ensures Credits(st, AddCredit(st, it, dev).st, it.pkt.hflag)
  {
    hide Readies, Spent, Sending;
    var more := st.(cred := st.cred + it.pkt.hflag).Note(RxReady(it.id));
    AskedKeeps(more, dev);
    ReadiesAppend(st.log, RxReady(it.id));
  }

  lemma GiveStep(st: IfState, it: Item, dev: Device)
    requires Credited(st.kind)
    ensures Credits(st, GiveAll(st, it, dev).st, 0) && GiveAll(st, it, dev).res >= 0
  {
    hide Readies, Spent, Sending, Amount, Left;
    AskedKeeps(st, dev);
    var rest := Left(it.pkt.data, st.offs);
    ReadiesAppend(st.log, Stalled(it.id));
    ReadiesAppend(st.log, Gave(it.id, []));
    ReadiesAppend(st.log, Gave(it.id, rest[..Amount(dev(st.calls), |rest|)]));
  }

  lemma PassStep(st: IfState, it: Item, calls: bool, dev: Device)
    requires Credited(st.kind)
    ensures Credits(st, Pass(st, it, calls, dev).st, 0)
  {
    hide Readies, Spent, Sending;
    AskedKeeps(st, dev);
    ReadiesAppend(st.log, Called(it.id));
    ReadiesAppend(st.log, Dropped(it.id));
  }

  /** The handler takes in exactly what the packet gives back, and calls rxrdy if that lifts the credit
      from zero, whatever the callbacks send. */
  lemma CreditStep(st: IfState, it: Item, dev: Device)
    requires Credited(st.kind) && st.cred + Back(it.pkt) < WRAP
    ensures var o := Advance(st, it, dev);
            o.res >= 0 && Credits(st, o.st, if o.res == 0 then Back(it.pkt) else 0)
  {
    hide Credits, GiveAll, AddCredit, Pass;
    if it.pkt.kind == PKT_UART_TX {
      GiveStep(st, it, dev);
    } else if IsAck(it.pkt) {
      AddCreditStep(st, it, dev);
      assert AddCredit(st, it, dev).res == 0 by {
        AddCreditRes(st, it, dev);
      }
    } else {
      var calls := st.kind == Uart && it.pkt.kind == PKT_UART_BRK;
      PassStep(st, it, calls, dev);
      assert Pass(st, it, calls, dev).res == 0 by {
        PassRes(st, it, calls, dev);
      }
    }
  }

  /** rxrdy is called if and only if an acknowledgement finds no credit. */
  lemma AnnouncedIff(st: IfState, it: Item, dev: Device)
    requires Credited(st.kind)
    ensures var st' := Advance(st, it, dev).st;
            st.log <= st'.log &&
            if IsAck(it.pkt) && st.cred == 0 then
              st'.log == st.log + [RxReady(it.id)] && st'.calls == st.calls + 1
            else
              (IsAck(it.pkt) ==> st'.calls == st.calls) &&
              forall a :: |st.log| <= a < |st'.log| ==> !st'.log[a].RxReady?
  {
    hide Left, Sending, Amount;
  }

  /** That callback has the new credit to spend: a byte that it sends goes out. */
  lemma CreditInHand(st: IfState, it: Item, b: byte, dev: Device)
    requires st.kind == Uart && IsAck(it.pkt) && st.cred == 0 && it.pkt.hflag > 0
    requires dev(st.calls).sends == [Send([], [b], true)]
    ensures Advance(st, it, dev).st.out == st.out + [Outgoing(Packet(st.conn, PKT_UART_RX, 0, 0, [b]), true)]
  {
    var s := Send([], [b], true);
    var more := st.(cred := it.pkt.hflag, log := st.log + [RxReady(it.id)], calls := st.calls + 1);
    assert [s][..0] == [] && [b][..1] == [b];
    assert Sending(more, [s]) == SendAny(more, s).st;
    assert Advance(st, it, dev).st == Sending(more, [s]);
  }

  lemma AddCreditRes(st: IfState, it: Item, dev: Device)
    ensures AddCredit(st, it, dev).res == 0
  {
  }

  lemma PassRes(st: IfState, it: Item, calls: bool, dev: Device)
    ensures Pass(st, it, calls, dev).res == 0
  {
  }

  /** Two steps in a row.  If the first one found no credit and got none, the second one finds none. */
  lemma CreditsTrans(a: IfState, b: IfState, c: IfState, x: nat, y: nat)
    requires Credits(a, b, x) && Credits(b, c, y)
    ensures Credits(a, c, x + y)
  {
    hide Readies;
    var n := |a.out|;
    SpentConcat(a.kind, a.out, b.out[n..]);
    assert b.out == a.out + b.out[n..];
  }

  /** A scan with whatever the callbacks send: held, spent and queued credit add up to the same. */
  lemma {:induction false} CreditScan(st: IfState, q: seq<Item>, dev: Device)
    requires Credited(st.kind) && st.cred + QueuedCredit(q) < WRAP
    ensures var s := Scan(st, q, 0, dev);
            QueuedCredit(s.q) <= QueuedCredit(q) && Credits(st, s.st, QueuedCredit(q) - QueuedCredit(s.q))
    decreases |q|
  {
    hide Advance, Back, Credits, Readies, Spent;
    if q == [] {
      CreditsNone(st);
    } else {
      assert Advance(st, q[0], dev).st.kind == st.kind by {
        AdvanceMeasure(st, q[0], dev);
      }
      CreditStep(st, q[0], dev);
      assert Without(q, 0) == q[1..];
      var o := Advance(st, q[0], dev);
      if o.res == 0 {
        CreditsBound(st, o.st, Back(q[0].pkt));
        CreditScan(o.st, q[1..], dev);
        var s := Scan(o.st, q[1..], 0, dev);
        CreditsTrans(st, o.st, s.st, Back(q[0].pkt), QueuedCredit(q[1..]) - QueuedCredit(s.q));
      }
    }
  }

  lemma CreditsNone(st: IfState)
    ensures Credits(st, st, 0)
  {
  }

  /** No more credit is held than was held and came in. */
  lemma CreditsBound(st: IfState, st': IfState, back: nat)
    requires Credits(st, st', back)
    ensures st'.cred <= st.cred + back && st'.kind == st.kind
  {
    var n := |st.out|;
    SpentConcat(st.kind, st.out, st'.out[n..]);
    assert st'.out == st.out + st'.out[n..];
  }

  /** Credit held, in flight, buffered by the peer, on the way back and queued. */
  function Total(w: World): nat {
    w.port.st.cred + Spent(w.port.st.kind, w.toPeer) + w.buffered + Returning(w.toHost) + QueuedCredit(w.port.q)
  }

  /** The total is the same, and `came` credits have become available to the host. */
  ghost predicate Conserved(w: World, w': World) {
    Total(w') == Total(w) && w'.port.st.kind == w.port.st.kind && Lifted(w.port.st, w'.port.st)
  }

  /** From no credit, any credit that comes in is announced, even if it is spent again at once. */
  ghost predicate Lifted(st: IfState, st': IfState) {
    st.out <= st'.out && Readies(st'.log) >= Readies(st.log) && Held(st') >= Held(st) &&
    (st.cred == 0 && Held(st') > Held(st) ==> Readies(st'.log) > Readies(st.log))
  }

  lemma CreditsLift(st: IfState, st': IfState, back: nat)
    requires Credits(st, st', back)
    ensures Lifted(st, st')
  {
  }

  lemma CarrySpent(w: World, port: Port)
    requires w.port.st.out <= port.st.out && port.st.kind == w.port.st.kind
    ensures var kind := w.port.st.kind;
            Spent(kind, Carry(w, port).toPeer) + Spent(kind, w.port.st.out) ==
            Spent(kind, w.toPeer) + Spent(kind, port.st.out)
  {
    var n := |w.port.st.out|;
    assert port.st.out == w.port.st.out + port.st.out[n..];
    SpentConcat(w.port.st.kind, w.port.st.out, port.st.out[n..]);
    SpentConcat(w.port.st.kind, w.toPeer, port.st.out[n..]);
  }

  lemma RescanCredit(p: Port, dev: Device)
    requires Credited(p.st.kind) && p.st.cred + QueuedCredit(p.q) < WRAP
    ensures var r := Rescan(p, dev);
            QueuedCredit(r.q) <= QueuedCredit(p.q) && Credits(p.st, r.st, QueuedCredit(p.q) - QueuedCredit(r.q))
  {
    hide Scan, QueuedCredit, Credits;
    CreditScan(p.st, p.q, dev);
    CreditsNone(p.st);
  }

  lemma SendConserves(w: World, send: Send, dev: Device)
    requires Credited(w.port.st.kind)
    ensures Conserved(w, Step(w, HostSend(send), dev))
  {
    hide Spent, Returning, QueuedCredit, Readies, SendAny;
    SendKeeps(w.port.st, send);
    CarrySpent(w, w.port.(st := SendAny(w.port.st, send).st));
  }

  /** A thread takes the lock when there is no credit any more. */
  predicate Races(w: World, move: Move) {
    move.Locked? && w.port.st.kind == Eth && w.passed > 0 && |move.data| < 0xFFF8 && move.memory && w.port.st.cred == 0
  }

  /** The locked part of an Ethernet send keeps the total if and only if there still is credit when it
      runs (or it fails for want of memory); if not, the credit wraps to 2^32 - 1. */
  lemma LockedIff(w: World, data: seq<byte>, memory: bool, dev: Device)
    requires w.port.st.kind == Eth && w.passed > 0 && |data| < 0xFFF8
    ensures var w' := Step(w, Locked(data, memory), dev);
            (Total(w') == Total(w) <==> w.port.st.cred > 0 || !memory) &&
            (w.port.st.cred == 0 && memory ==> Total(w') == Total(w) + WRAP) &&
            (!Races(w, Locked(data, memory)) ==> Conserved(w, w'))
  {
    hide Returning, QueuedCredit, Readies, Spent;
    var p := w.port.(st := SendLocked(w.port.st, data, memory).st);
    SpentPush(Eth, w.port.st.out, Outgoing(Packet(w.port.st.conn, PKT_ETH_RX, 0, 0, data), true));
    CarrySpent(w, p);
  }

  lemma PeerConserves(w: World, move: Move, dev: Device)
    requires move.PeerReceive? || move.PeerConsume? || move.PeerOther?
    ensures Conserved(w, Step(w, move, dev))
  {
    hide Returning, QueuedCredit, Readies, Spent;
    match move
    case PeerReceive =>
      if w.toPeer != [] {
        SpentFront(w.port.st.kind, w.toPeer);
      }
    case PeerConsume(n) => ReturningSnoc(w.toHost, Packet(w.port.st.conn, PKT_UART_RX_ACK, 0, n, []));
    case PeerOther(pkt) => ReturningSnoc(w.toHost, pkt);
  }

  lemma ReceiveConserves(w: World, attaching: bool, dev: Device)
    requires Credited(w.port.st.kind) && Total(w) < WRAP && w.toHost != []
    ensures Conserved(w, Step(w, Receive(attaching), dev))
  {
    hide Rescan, Spent, Readies, QueuedCredit, Back;
    var p := w.port;
    QueuedCreditSnoc(p.q, Item(p.arrived, w.toHost[0]));
    var woken := p.(q := p.q + [Item(p.arrived, w.toHost[0])], arrived := p.arrived + 1, defer := attaching);
    RescanCredit(woken, dev);
    CarrySpent(w, Rescan(woken, dev));
  }

  lemma WakeConserves(w: World, input: Input, dev: Device)
    requires Credited(w.port.st.kind) && Total(w) < WRAP && !input.Deliver?
    ensures Conserved(w, Step(w, Wake(input), dev))
  {
    hide Rescan, Spent, Readies, QueuedCredit, Returning;
    var p := w.port;
    var woken := match input
      case Unstall => p.(st := p.st.(busy := false))
      case UsbUnpause(ep, tkn) => p.(st := p.st.(ebusy := p.st.ebusy - {ep * 4 + tkn}))
      case _ => p.(defer := false);
    RescanCredit(woken, dev);
    CarrySpent(w, Rescan(woken, dev));
    CreditsNone(p.st);
    CarrySpent(w, p);
  }

  lemma TestConserves(w: World, dev: Device)
    ensures Conserved(w, w) && Conserved(w, Step(w, Test, dev))
  {
    hide Readies, Spent, QueuedCredit, Returning;
  }

  lemma MoveConserves(w: World, move: Move, dev: Device)
    requires Credited(w.port.st.kind) && Total(w) < WRAP && !Races(w, move)
    ensures Conserved(w, Step(w, move, dev))
  {
    hide Total, Arrive, Next, Readies, SendAny, SendLocked, Spent, Conserved;
    TestConserves(w, dev);
    match move
    case HostSend(send) => SendConserves(w, send, dev);
    case Test =>
    case Locked(data, memory) =>
      if w.port.st.kind == Eth && w.passed > 0 && |data| < 0xFFF8 {
        LockedIff(w, data, memory, dev);
      }
    case PeerReceive => PeerConserves(w, move, dev);
    case PeerConsume(_) => PeerConserves(w, move, dev);
    case PeerOther(_) => PeerConserves(w, move, dev);
    case Receive(attaching) =>
      if w.toHost != [] {
        ReceiveConserves(w, attaching, dev);
      }
    case Wake(input) =>
      if !input.Deliver? {
        WakeConserves(w, input, dev);
      }
  }

  /** In no state of the run a thread took the lock too late.  UART tests the credit under the lock, so
      that this always holds there. */
  ghost predicate NoRace(kind: Kind, conn: u16, grant: u32, moves: seq<Move>, dev: Device) {
    forall k :: 0 <= k < |moves| ==> !Races(Play(kind, conn, grant, moves[..k], dev), moves[k])
  }

  lemma NoRaceBefore(kind: Kind, conn: u16, grant: u32, moves: seq<Move>, n: nat, dev: Device)
    requires n <= |moves| && NoRace(kind, conn, grant, moves, dev)
    ensures NoRace(kind, conn, grant, moves[..n], dev)
  {
    hide Races;
    assert forall k :: 0 <= k < n ==> moves[..n][..k] == moves[..k] && moves[..n][k] == moves[k];
  }

  /** Conservation: in every reachable state of the two parties the five parts add up to the initial
      grant.  So what is in flight to the peer or buffered there never exceeds the grant, and the
      32-bit credit counter never wraps. */
  lemma {:induction false} CreditConserved(kind: Kind, conn: u16, grant: u32, moves: seq<Move>, dev: Device)
    requires Credited(kind) && NoRace(kind, conn, grant, moves, dev)
    ensures var w := Play(kind, conn, grant, moves, dev);
            Total(w) == grant && w.port.st.kind == kind && Spent(kind, w.toPeer) + w.buffered <= grant
  {
    hide Step, Races, NoRace;
    if moves != [] {
      var n := |moves| - 1;
      NoRaceBefore(kind, conn, grant, moves, n, dev);
      NoRaceAt(kind, conn, grant, moves, n, dev);
      CreditConserved(kind, conn, grant, moves[..n], dev);
      MoveConserves(Play(kind, conn, grant, moves[..n], dev), moves[n], dev);
    }
  }

  /** The condition is exact: the parts add up all through a run if and only if no thread takes the lock
      of an Ethernet send when the credit is gone. */
  lemma ConservedIff(kind: Kind, conn: u16, grant: u32, moves: seq<Move>, dev: Device)
    requires Credited(kind)
    ensures (forall k :: 0 <= k <= |moves| ==> Total(Play(kind, conn, grant, moves[..k], dev)) == grant) <==>
            NoRace(kind, conn, grant, moves, dev)
  {
    hide Step, Total, Races, Play;
    if NoRace(kind, conn, grant, moves, dev) {
      forall k | 0 <= k <= |moves|
        ensures Total(Play(kind, conn, grant, moves[..k], dev)) == grant
      {
        NoRaceBefore(kind, conn, grant, moves, k, dev);
        CreditConserved(kind, conn, grant, moves[..k], dev);
      }
    } else {
      var k :| 0 <= k < |moves| && Races(Play(kind, conn, grant, moves[..k], dev), moves[k]);
      RaceBreaks(kind, conn, grant, moves, k, dev);
    }
  }

  lemma RaceBreaks(kind: Kind, conn: u16, grant: u32, moves: seq<Move>, k: nat, dev: Device)
    requires k < |moves| && Races(Play(kind, conn, grant, moves[..k], dev), moves[k])
    ensures Total(Play(kind, conn, grant, moves[..k + 1], dev)) ==
            Total(Play(kind, conn, grant, moves[..k], dev)) + WRAP
  {
    hide Step, Total;
    assert moves[..k + 1][..k] == moves[..k];
    LockedIff(Play(kind, conn, grant, moves[..k], dev), moves[k].data, moves[k].memory, dev);
  }

  lemma PlaySnoc(kind: Kind, conn: u16, grant: u32, moves: seq<Move>, move: Move, dev: Device)
    ensures Play(kind, conn, grant, moves + [move], dev) == Step(Play(kind, conn, grant, moves, dev), move, dev)
  {
    assert (moves + [move])[..|moves|] == moves;
  }

  lemma TwoTests(conn: u16, dev: Device)
    ensures Play(Eth, conn, 1, [] + [Test] + [Test], dev) == Begin(Eth, conn, 1).(passed := 2)
  {
    hide Play;
    PlayNone(Eth, conn, 1, dev);
    PlaySnoc(Eth, conn, 1, [], Test, dev);
    PlaySnoc(Eth, conn, 1, [] + [Test], Test, dev);
  }

  lemma LockedStep(w: World, dev: Device)
    requires w.port.st.kind == Eth && w.passed > 0
    ensures var w' := Step(w, Locked([], true), dev);
            w'.port.st.kind == Eth && w'.passed == w.passed - 1 && |w'.toPeer| == |w.toPeer| + 1 &&
            w'.port.st.cred == (w.port.st.cred - 1) % WRAP
  {
  }

  /** Such a run: two threads pass the test on one credit, and both send. */
  lemma RaceExample(conn: u16, dev: Device)
    ensures var w := Play(Eth, conn, 1, [] + [Test] + [Test] + [Locked([], true)] + [Locked([], true)], dev);
            w.port.st.cred == WRAP - 1 && |w.toPeer| == 2
  {
    hide Play, Step;
    TwoTests(conn, dev);
    PlaySnoc(Eth, conn, 1, [] + [Test] + [Test], Locked([], true), dev);
    PlaySnoc(Eth, conn, 1, [] + [Test] + [Test] + [Locked([], true)], Locked([], true), dev);
    LockedStep(Begin(Eth, conn, 1).(passed := 2), dev);
    LockedStep(Step(Begin(Eth, conn, 1).(passed := 2), Locked([], true), dev), dev);
  }

  lemma PlayNone(kind: Kind, conn: u16, grant: u32, dev: Device)
    ensures Play(kind, conn, grant, [], dev) == Begin(kind, conn, grant)
  {
  }

  /** A sender that found no credit is told: if any credit has come in since, rxrdy has been called, also
      if callbacks or threads have spent it again. */
  lemma {:induction false} ReadyFires(kind: Kind, conn: u16, grant: u32, moves: seq<Move>, more: seq<Move>, dev: Device)
    requires Credited(kind) && NoRace(kind, conn, grant, moves + more, dev)
    requires Play(kind, conn, grant, moves, dev).port.st.cred == 0
    ensures Lifted(Play(kind, conn, grant, moves, dev).port.st, Play(kind, conn, grant, moves + more, dev).port.st)
  {
    hide Step, Total, Lifted, Races, NoRace, Play;
    if more == [] {
      assert moves + more == moves;
      LiftedNone(Play(kind, conn, grant, moves, dev).port.st);
    } else {
      var init, last := more[..|more| - 1], more[|more| - 1];
      assert (moves + more) == (moves + init) + [last];
      var now := moves + init;
      assert (now + [last])[..|now|] == now && (now + [last])[..|moves|] == moves;
      NoRaceBefore(kind, conn, grant, now + [last], |now|, dev);
      NoRaceBefore(kind, conn, grant, now + [last], |moves|, dev);
      ReadyFires(kind, conn, grant, moves, init, dev);
      ReadyStep(kind, conn, grant, now, last, dev);
      CreditConserved(kind, conn, grant, moves, dev);
      CreditConserved(kind, conn, grant, now, dev);
      CreditConserved(kind, conn, grant, now + [last], dev);
      LiftedTrans(Play(kind, conn, grant, moves, dev).port.st, Play(kind, conn, grant, now, dev).port.st,
                  Play(kind, conn, grant, now + [last], dev).port.st);
    }
  }

  lemma LiftedNone(st: IfState)
    ensures Lifted(st, st)
  {
  }

  lemma ReadyStep(kind: Kind, conn: u16, grant: u32, moves: seq<Move>, move: Move, dev: Device)
    requires Credited(kind) && NoRace(kind, conn, grant, moves + [move], dev)
    ensures Lifted(Play(kind, conn, grant, moves, dev).port.st, Play(kind, conn, grant, moves + [move], dev).port.st)
  {
    hide Step, Total, Lifted, Races, NoRace, Play;
    assert (moves + [move])[..|moves|] == moves && (moves + [move])[|moves|] == move;
    NoRaceBefore(kind, conn, grant, moves + [move], |moves|, dev);
    NoRaceAt(kind, conn, grant, moves + [move], |moves|, dev);
    CreditConserved(kind, conn, grant, moves, dev);
    PlaySnoc(kind, conn, grant, moves, move, dev);
    MoveConserves(Play(kind, conn, grant, moves, dev), move, dev);
  }

  lemma NoRaceAt(kind: Kind, conn: u16, grant: u32, moves: seq<Move>, k: nat, dev: Device)
    requires k < |moves| && NoRace(kind, conn, grant, moves, dev)
    ensures !Races(Play(kind, conn, grant, moves[..k], dev), moves[k])
  {
  }

  lemma LiftedTrans(a: IfState, b: IfState, c: IfState)
    requires a.kind == b.kind == c.kind && a.cred == 0 && Lifted(a, b) && Lifted(b, c)
    ensures Lifted(a, c)
  {
    hide Readies;
    var n := |a.out|;
    SpentConcat(a.kind, a.out, b.out[n..]);
    assert b.out == a.out + b.out[n..];
  }

  /** The result of an Ethernet send is 0 exactly if the frame was sent, if and only if there was credit. */
  lemma EthResultIff(st: IfState, data: seq<byte>, memory: bool)
    requires |data| < 0xFFF8
    ensures var s := SendEth(st, data, memory);
            (s.ret == 0 <==> s.st.out != st.out) <==> st.cred > 0
  {
  }

  /** A run in which it is not: without a grant every frame is reported sent and none ever leaves. */
  lemma {:induction false} EthDropsUnseen(conn: u16, frames: seq<seq<byte>>, dev: Device)
    requires forall f <- frames :: |f| < 0xFFF8
    ensures var w := Play(Eth, conn, 0, Sends(frames), dev);
            w == Begin(Eth, conn, 0) && forall f <- frames :: SendEth(w.port.st, f, true) == Sent(w.port.st, 0)
  {
    hide SendUart, SendCan, Arrive, Next, Spent;
    if frames != [] {
      var init := frames[..|frames| - 1];
      assert Sends(frames)[..|frames| - 1] == Sends(init);
      EthDropsUnseen(conn, init, dev);
    }
  }

  function Sends(frames: seq<seq<byte>>): (moves: seq<Move>)
    ensures |moves| == |frames|
  {
    seq(|frames|, i requires 0 <= i < |frames| => HostSend(Send([], frames[i], true)))
  }
}
