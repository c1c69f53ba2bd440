/**
 Several interfaces on one connection: how a packet finds its interface, the attach, and the packets
 that arrive for an interface before its attach has returned.
 */
module Hub {
  import opened Wire
  import opened Protocol
  import opened PortRuns

  /** An interface and the device model behind it. */
  datatype Line = Line(port: Port, dev: Device)

  /** The attach under way: `Requested` until the response, `Linked` from a positive response until the
      attach returns; a linked interface is at the front of the list.  `Refused` ends in failure. */
  datatype Attach = None | Requested(line: Line) | Linked | Refused

  datatype State = State(lines: seq<Line>, attach: Attach, query: bool, deferPkt: bool)

  const Empty := State([], None, false, false)

  datatype Move =
    | Begin(kind: Kind, dev: Device)
    | Response(conn: u16, credit: u32)
    | Return
    | Data(pkt: Packet)
    | Prepare
    | Unstall(conn: u16)
    | UsbUnpause(conn: u16, ep: byte, tkn: byte)

  /** The index of the first interface with this connection number, or the number of interfaces. */
  function Find(lines: seq<Line>, conn: u16): (i: nat)
    ensures i <= |lines|
    ensures i < |lines| ==> lines[i].port.st.conn == conn
    ensures forall j :: 0 <= j < i ==> lines[j].port.st.conn != conn
  {
    if lines == [] || lines[0].port.st.conn == conn then 0 else 1 + Find(lines[1..], conn)
  }

  function OnLine(lines: seq<Line>, i: nat, p: Port): seq<Line>
    requires i < |lines|
  {
    lines[i := lines[i].(port := p)]
  }

  lemma OnLineAt(lines: seq<Line>, i: nat, p: Port)
    requires i < |lines|
    ensures |OnLine(lines, i, p)| == |lines| && OnLine(lines, i, p)[i] == lines[i].(port := p)
    ensures forall j :: 0 <= j < |lines| && j != i ==> OnLine(lines, i, p)[j] == lines[j]
  {
  }

  function FlushAll(lines: seq<Line>): seq<Line> {
    seq(|lines|, i requires 0 <= i < |lines| => lines[i].(port := Flush(lines[i].port, lines[i].dev)))
  }

  function Step(s: State, move: Move): State {
    match move
    case Begin(kind, dev) =>
      if s.query || s.attach != None then s
      else s.(attach := Requested(Line(Start(kind, CONN_QUERY), dev)), query := true)
    case Response(conn, credit) =>
      if !s.query || !s.attach.Requested? then s
      else if conn == CONN_QUERY then s.(attach := Refused, query := false)
      else
        var l := s.attach.line;
        var st := l.port.st.(conn := conn, cred := credit);
        s.(lines := [l.(port := l.port.(st := st))] + s.lines, attach := Linked, query := false)
    case Return =>
      if s.query || s.attach == None then s else s.(attach := None)
    case Data(pkt) =>
      var i := Find(s.lines, pkt.conn);
      if i == |s.lines| then s
      else
        var attaching := s.attach == Linked && i == 0;
        var p := Arrive(s.lines[i].port, pkt, attaching, s.lines[i].dev);
        s.(lines := OnLine(s.lines, i, p), deferPkt := s.deferPkt || attaching)
    case Prepare =>
      // the loop of an attach ends with the response, and no other loop runs before the attach returns
      if s.attach == Linked || s.attach == Refused then s
      else s.(lines := if s.deferPkt then FlushAll(s.lines) else s.lines, deferPkt := false)
    case Unstall(conn) =>
      // a handle is known once its attach has returned
      var i := Find(s.lines, conn);
      if i == |s.lines| || (s.attach == Linked && i == 0) then s
      else s.(lines := OnLine(s.lines, i, Ready(s.lines[i].port, s.lines[i].dev)))
    case UsbUnpause(conn, ep, tkn) =>
      var i := Find(s.lines, conn);
      if i == |s.lines| || (s.attach == Linked && i == 0) then s
      else s.(lines := OnLine(s.lines, i, UsbReady(s.lines[i].port, ep, tkn, s.lines[i].dev)))
  }

  lemma DataStep(s: State, pkt: Packet)
    ensures var i := Find(s.lines, pkt.conn);
            var attaching := s.attach == Linked && i == 0;
            Step(s, Data(pkt)) ==
            if i == |s.lines| then s
            else s.(lines := OnLine(s.lines, i, Arrive(s.lines[i].port, pkt, attaching, s.lines[i].dev)),
                    deferPkt := s.deferPkt || attaching)
  {
  }

  function Run(moves: seq<Move>): State {
    if moves == [] then Empty else Step(Run(moves[..|moves| - 1]), moves[|moves| - 1])
  }

  /** Nothing has happened on this interface, and every packet that arrived is queued in order. */
  ghost predicate Untouched(p: Port) {
    p.st.log == [] && p.st.calls == 0 && p.arrived == |p.q| && p.defer &&
    forall k :: 0 <= k < |p.q| ==> p.q[k].id == k
  }

  /** What deferral rests on. */
  ghost predicate Deferral(s: State) {
    (s.attach.Requested? ==>
      Untouched(s.attach.line.port) && s.attach.line.port.q == [] && s.attach.line.port.st.conn == CONN_QUERY &&
        s.query) &&
    (s.attach.Linked? ==>
      s.lines != [] && Untouched(s.lines[0].port) && s.lines[0].port.st.conn != CONN_QUERY) &&
    (s.attach.Linked? || s.attach.Refused? || s.attach.None? ==> !s.query) &&
    forall i :: 0 <= i < |s.lines| ==> s.lines[i].port.defer && s.lines[i].port.q != [] ==> s.deferPkt
  }

  lemma RescanClears(p: Port, dev: Device)
    ensures Rescan(p, dev).defer == p.defer && Rescan(p, dev).arrived == p.arrived
    ensures p.defer ==> Rescan(p, dev) == p
  {
  }

  lemma StepDeferral(s: State, move: Move)
    requires Deferral(s)
    ensures Deferral(Step(s, move))
  {
    hide Rescan;
    match move
    case Begin(kind, dev) =>
    case Response(conn, credit) =>
    case Return =>
    case Data(pkt) => DataDeferral(s, pkt);
    case Prepare =>
      forall i | 0 <= i < |s.lines|
        ensures !Flush(s.lines[i].port, s.lines[i].dev).defer
      {
        RescanClears(s.lines[i].port.(defer := false), s.lines[i].dev);
      }
    case Unstall(conn) =>
      var i := Find(s.lines, conn);
      if i < |s.lines| && !(s.attach == Linked && i == 0) {
        var p := s.lines[i].port;
        WakeDeferral(s, i, p.st.(busy := false));
      }
    case UsbUnpause(conn, ep, tkn) =>
      var i := Find(s.lines, conn);
      if i < |s.lines| && !(s.attach == Linked && i == 0) {
        var p := s.lines[i].port;
        WakeDeferral(s, i, p.st.(ebusy := p.st.ebusy - {ep * 4 + tkn}));
      }
  }

  lemma DataDeferral(s: State, pkt: Packet)
    requires Deferral(s)
    ensures Deferral(Step(s, Data(pkt)))
  {
    hide Rescan;
    var i := Find(s.lines, pkt.conn);
    if i < |s.lines| {
      var p := s.lines[i].port;
      var attaching := s.attach == Linked && i == 0;
      var arrived := p.(q := p.q + [Item(p.arrived, pkt)], arrived := p.arrived + 1, defer := attaching);
      RescanClears(arrived, s.lines[i].dev);
    }
  }

  /** A call that wakes an interface up leaves a deferred queue alone. */
  lemma WakeDeferral(s: State, i: nat, st: IfState)
    requires Deferral(s) && i < |s.lines| && !(s.attach == Linked && i == 0)
    ensures Deferral(s.(lines := OnLine(s.lines, i, Rescan(s.lines[i].port.(st := st), s.lines[i].dev))))
  {
    hide Rescan;
    RescanClears(s.lines[i].port.(st := st), s.lines[i].dev);
  }

  lemma {:induction false} DeferralHolds(moves: seq<Move>)
    ensures Deferral(Run(moves))
  {
    if moves != [] {
      hide Step, Deferral;
      DeferralHolds(moves[..|moves| - 1]);
      StepDeferral(Run(moves[..|moves| - 1]), moves[|moves| - 1]);
    } else {
      EmptyDeferral();
    }
  }

  lemma EmptyDeferral()
    ensures Deferral(Empty)
  {
  }

  /** The packets among these moves that are addressed to one connection. */
  function Addressed(moves: seq<Move>, conn: u16): seq<Packet> {
    if moves == [] then []
    else
      var last := moves[|moves| - 1];
      Addressed(moves[..|moves| - 1], conn) + if last.Data? && last.pkt.conn == conn then [last.pkt] else []
  }

  function Items(ps: seq<Packet>): seq<Item> {
    seq(|ps|, i requires 0 <= i < |ps| => Item(i, ps[i]))
  }

  function From(s: State, moves: seq<Move>): State {
    if moves == [] then s else Step(From(s, moves[..|moves| - 1]), moves[|moves| - 1])
  }

  /** The interface at the front with these packets waiting, and nothing else. */
  ghost predicate Waiting(s: State, st: IfState, dev: Device, ps: seq<Packet>) {
    s.attach == Linked && !s.query && s.lines != [] &&
    s.lines[0] == Line(Port(st, Items(ps), true, |ps|), dev) && (ps != [] ==> s.deferPkt)
  }

  lemma WaitingStep(s: State, st: IfState, dev: Device, ps: seq<Packet>, move: Move)
    requires Waiting(s, st, dev, ps) && !move.Return?
    ensures Waiting(Step(s, move), st, dev, ps + if move.Data? && move.pkt.conn == st.conn then [move.pkt] else [])
  {
    hide Rescan;
    if move.Data? && move.pkt.conn == st.conn {
      assert Items(ps + [move.pkt]) == Items(ps) + [Item(|ps|, move.pkt)];
      RescanClears(Port(st, Items(ps + [move.pkt]), true, |ps| + 1), dev);
    } else {
      assert ps + [] == ps;
    }
  }

  lemma {:induction false} WaitingLasts(s: State, st: IfState, dev: Device, moves: seq<Move>)
    requires Waiting(s, st, dev, []) && forall m <- moves :: !m.Return?
    ensures Waiting(From(s, moves), st, dev, Addressed(moves, st.conn))
  {
    if moves != [] {
      hide Step, Waiting;
      assert forall m <- moves[..|moves| - 1] :: m in moves;
      WaitingLasts(s, st, dev, moves[..|moves| - 1]);
      assert moves[|moves| - 1] in moves;
      WaitingStep(From(s, moves[..|moves| - 1]), st, dev, Addressed(moves[..|moves| - 1], st.conn), moves[|moves| - 1]);
    }
  }

  /** Deferred delivery.  From any reachable state in which a positive response links an interface, and
      whatever comes before the attach returns: none of its callbacks runs and its packets queue up in
      order; and the next preparefds scans them, all of them and from the first. */
  lemma EarlyPackets(before: seq<Move>, conn: u16, credit: u32, during: seq<Move>)
    requires Run(before).attach.Requested? && conn != CONN_QUERY && forall m <- during :: !m.Return?
    ensures var line := Run(before).attach.line;
            var st := line.port.st.(conn := conn, cred := credit);
            var early := Addressed(during, conn);
            var linked := From(Step(Run(before), Response(conn, credit)), during);
            var later := Step(Step(linked, Return), Prepare);
            linked.lines != [] && linked.lines[0].port == Port(st, Items(early), true, |early|) && st.log == [] &&
            later.lines != [] &&
            (early != [] ==> later.lines[0].port == Rescan(Port(st, Items(early), false, |early|), line.dev))
  {
    hide Run, From, Rescan;
    DeferralHolds(before);
    var s := Run(before);
    var st := s.attach.line.port.st.(conn := conn, cred := credit);
    WaitingLasts(Step(s, Response(conn, credit)), st, s.attach.line.dev, during);
  }

  /** Outside an attach every deferred packet is caught up on by the next preparefds. */
  lemma CaughtUp(moves: seq<Move>)
    requires !Run(moves).attach.Linked? && !Run(moves).attach.Refused?
    ensures var s, t := Run(moves), Step(Run(moves), Prepare);
            |t.lines| == |s.lines| && !t.deferPkt &&
            forall i :: 0 <= i < |s.lines| ==>
              (t.lines[i].port.defer ==> t.lines[i].port.q == []) &&
              (s.lines[i].port.defer && s.lines[i].port.q != [] ==>
                t.lines[i].port == Rescan(s.lines[i].port.(defer := false), s.lines[i].dev))
  {
    hide Run, Rescan;
    DeferralHolds(moves);
    var s := Run(moves);
    forall i | 0 <= i < |s.lines|
      ensures !Flush(s.lines[i].port, s.lines[i].dev).defer
    {
      RescanClears(s.lines[i].port.(defer := false), s.lines[i].dev);
    }
  }

  /** The interface with a connection number, if any; the first one has it. */
  ghost predicate Has(s: State, conn: u16, line: Line) {
    var i := Find(s.lines, conn);
    i < |s.lines| && s.lines[i] == line
  }

  predicate Attaching(s: State, conn: u16) {
    s.attach == Linked && Find(s.lines, conn) == 0
  }

  /** What a move is to the interface with this connection number. */
  function InputOf(s: State, move: Move, conn: u16): (inputs: seq<Input>)
    ensures |inputs| <= 1
  {
    match move
    case Data(pkt) => if pkt.conn == conn then [Deliver(pkt, Attaching(s, conn))] else []
    case Prepare => if s.deferPkt && s.attach != Linked && s.attach != Refused then [CatchUp] else []
    case Unstall(c) => if c == conn && !Attaching(s, conn) then [Input.Unstall] else []
    case UsbUnpause(c, ep, tkn) => if c == conn && !Attaching(s, conn) then [Input.UsbUnpause(ep, tkn)] else []
    case _ => []
  }

  function InputsOf(s: State, moves: seq<Move>, conn: u16): seq<Input> {
    if moves == [] then []
    else
      var init := moves[..|moves| - 1];
      InputsOf(s, init, conn) + InputOf(From(s, init), moves[|moves| - 1], conn)
  }

  /** The inputs reach one interface that is alone. */
  function Alone(p: Port, inputs: seq<Input>, dev: Device): Port {
    if inputs == [] then p else Next(Alone(p, inputs[..|inputs| - 1], dev), inputs[|inputs| - 1], dev)
  }

  lemma AloneMore(p: Port, inputs: seq<Input>, more: seq<Input>, dev: Device)
    requires |more| <= 1
    ensures Alone(p, inputs + more, dev) ==
            if more == [] then Alone(p, inputs, dev) else Next(Alone(p, inputs, dev), more[0], dev)
  {
    if more == [] {
      assert inputs + more == inputs;
    } else {
      assert (inputs + more)[..|inputs|] == inputs;
    }
  }

  /** Which interface has a number does not change when others do, nor when one with another number is
      linked at the front. */
  lemma {:induction false} FindKept(lines: seq<Line>, other: seq<Line>, conn: u16)
    requires |other| == |lines| && forall i :: 0 <= i < |lines| ==> other[i].port.st.conn == lines[i].port.st.conn
    ensures Find(other, conn) == Find(lines, conn)
  {
    var i, j := Find(lines, conn), Find(other, conn);
    assert i < |lines| ==> other[i].port.st.conn == conn;
    assert j < |lines| ==> lines[j].port.st.conn == conn;
  }

  lemma RescanConn(p: Port, dev: Device)
    ensures Rescan(p, dev).st.conn == p.st.conn
  {
    hide Scan;
    ScanConn(p.st, p.q, 0, dev);
  }

  lemma {:induction false} ScanConn(st: IfState, q: seq<Item>, i: nat, dev: Device)
    requires i <= |q|
    ensures Scan(st, q, i, dev).st.conn == st.conn
    decreases |q|, !(st.kind == Usbh && st.busy), |q| - i
  {
    if i < |q| {
      hide Advance;
      AdvanceMeasure(st, q[i], dev);
      var o := Advance(st, q[i], dev);
      if o.res == 0 {
        ScanConn(o.st, Without(q, i), 0, dev);
      } else if o.res == -2 {
        ScanConn(o.st, q, 0, dev);
      } else if o.res < 0 {
        ScanConn(o.st, q, i + 1, dev);
      }
    }
  }

  /** One interface goes on, and keeps its number. */
  lemma OnLineHas(s: State, j: nat, p: Port, conn: u16, line: Line)
    requires Has(s, conn, line) && j < |s.lines| && p.st.conn == s.lines[j].port.st.conn
    ensures Has(s.(lines := OnLine(s.lines, j, p)), conn, if j == Find(s.lines, conn) then line.(port := p) else line)
  {
    FindKept(s.lines, OnLine(s.lines, j, p), conn);
  }

  lemma WakeAlone(s: State, move: Move, c: u16, conn: u16, line: Line)
    requires Has(s, conn, line)
    requires (move.Data? && c == move.pkt.conn) || ((move.Unstall? || move.UsbUnpause?) && c == move.conn)
    ensures var inputs := InputOf(s, move, conn);
            Has(Step(s, move), conn, if inputs == [] then line else line.(port := Next(line.port, inputs[0], line.dev)))
  {
    hide Rescan;
    var j := Find(s.lines, c);
    if j < |s.lines| {
      var l := s.lines[j];
      var input := match move
        case Data(pkt) => Deliver(pkt, s.attach == Linked && j == 0)
        case UsbUnpause(_, ep, tkn) => Input.UsbUnpause(ep, tkn)
        case _ => Input.Unstall;
      NextConn(l.port, input, l.dev);
      OnLineHas(s, j, Next(l.port, input, l.dev), conn, line);
    }
  }

  lemma NextConn(p: Port, input: Input, dev: Device)
    ensures Next(p, input, dev).st.conn == p.st.conn
  {
    hide Rescan;
    match input
    case Deliver(pkt, attaching) =>
      RescanConn(p.(q := p.q + [Item(p.arrived, pkt)], arrived := p.arrived + 1, defer := attaching), dev);
    case Unstall => RescanConn(p.(st := p.st.(busy := false)), dev);
    case UsbUnpause(ep, tkn) => RescanConn(p.(st := p.st.(ebusy := p.st.ebusy - {ep * 4 + tkn})), dev);
    case CatchUp => RescanConn(p.(defer := false), dev);
  }

  /** What a move does to the interface with this number is what its input does, and nothing if it has
      none. */
  lemma StepAlone(s: State, move: Move, conn: u16, line: Line)
    requires Has(s, conn, line) && (move.Response? ==> move.conn != conn)
    ensures Has(Step(s, move), conn, line.(port := Alone(line.port, InputOf(s, move, conn), line.dev)))
  {
    hide Step, Has, InputOf, Alone, Next;
    var inputs := InputOf(s, move, conn);
    AloneMore(line.port, [], inputs, line.dev);
    assert [] + inputs == inputs;
    assert Alone(line.port, [], line.dev) == line.port by {
      AloneNone(line.port, line.dev);
    }
    match move
    case Data(pkt) => WakeAlone(s, move, pkt.conn, conn, line);
    case Prepare => PrepareAlone(s, conn, line);
    case Unstall(c) => WakeAlone(s, move, c, conn, line);
    case UsbUnpause(c, _, _) => WakeAlone(s, move, c, conn, line);
    case _ => AttachAlone(s, move, conn, line);
  }

  lemma AloneNone(p: Port, dev: Device)
    ensures Alone(p, [], dev) == p
  {
  }

  lemma AttachAlone(s: State, move: Move, conn: u16, line: Line)
    requires Has(s, conn, line) && (move.Begin? || move.Return? || (move.Response? && move.conn != conn))
    ensures Has(Step(s, move), conn, line) && InputOf(s, move, conn) == []
  {
    var t := Step(s, move);
    assert t.lines != s.lines ==> t.lines[1..] == s.lines;
  }

  lemma PrepareAlone(s: State, conn: u16, line: Line)
    requires Has(s, conn, line)
    ensures var inputs := InputOf(s, Prepare, conn);
            Has(Step(s, Prepare), conn,
                if inputs == [] then line else line.(port := Next(line.port, inputs[0], line.dev)))
  {
    hide Rescan;
    forall j | 0 <= j < |s.lines|
      ensures FlushAll(s.lines)[j].port.st.conn == s.lines[j].port.st.conn
    {
      RescanConn(s.lines[j].port.(defer := false), s.lines[j].dev);
    }
    FindKept(s.lines, FlushAll(s.lines), conn);
  }

  /** Interfaces do not disturb each other: over every run in which its number is not given to another, an
      interface goes through exactly its own inputs, in order, as if it were alone. */
  lemma {:induction false} EachAlone(s: State, moves: seq<Move>, conn: u16, line: Line)
    requires Has(s, conn, line) && forall m <- moves :: m.Response? ==> m.conn != conn
    ensures Has(From(s, moves), conn, line.(port := Alone(line.port, InputsOf(s, moves, conn), line.dev)))
  {
    hide Step, Has, InputOf;
    if moves != [] {
      var init, last := moves[..|moves| - 1], moves[|moves| - 1];
      assert last in moves && forall m <- init :: m in moves;
      EachAlone(s, init, conn, line);
      var port := Alone(line.port, InputsOf(s, init, conn), line.dev);
      StepAlone(From(s, init), last, conn, line.(port := port));
      AloneMore(line.port, InputsOf(s, init, conn), InputOf(From(s, init), last, conn), line.dev);
      AloneMore(port, [], InputOf(From(s, init), last, conn), line.dev);
    }
  }
}
