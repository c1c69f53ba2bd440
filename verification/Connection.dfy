/**
 The list of interfaces of one connection, with the objects behind it.  Each method refines a move of
 Hub: if the objects show a state before the call, they show the state after the move.
 */
module Connection {
  import opened Wire
  import opened Protocol
  import opened Ports
  import Hub

  function Union(reprs: seq<set<object>>): set<object> {
    set i, o | 0 <= i < |reprs| && o in reprs[i] :: o
  }

  class CoreModel {
    var ifs: seq<Interface>
    var connIf: Interface?
    var query: bool
    var deferPkt: bool
    /** The objects of each interface, and of the one being attached. */
    ghost var reprs: seq<set<object>>
    ghost var connRepr: set<object>

    ghost predicate Apart()
      reads this`ifs, this`reprs
    {
      |reprs| == |ifs| &&
      (forall i :: 0 <= i < |reprs| ==> this !in reprs[i] && ifs[i] in reprs[i]) &&
      forall i, j :: 0 <= i < j < |reprs| ==> reprs[i] !! reprs[j]
    }

    static ghost predicate Shows(x: Interface, repr: set<object>, l: Hub.Line)
      requires x in repr
      reads repr
    {
      x.Footprint() == repr && x.Valid() && l == Hub.Line(x.View(), x.dev)
    }

    ghost predicate ShowsLines(lines: seq<Hub.Line>)
      reads this`ifs, this`reprs, Union(reprs)
    {
      Apart() && |lines| == |ifs| && forall i :: 0 <= i < |ifs| ==> Shows(ifs[i], reprs[i], lines[i])
    }

    static method DeliverOne(x: Interface, pkt: Packet, attaching: bool, ghost repr: set<object>, ghost l: Hub.Line)
      returns (ghost repr': set<object>)
      requires x in repr && Shows(x, repr, l)
      modifies repr
      ensures x in repr' && fresh(repr' - repr)
      ensures Shows(x, repr', l.(port := Arrive(l.port, pkt, attaching, l.dev)))
    {
      hide Arrive;
      x.Deliver(pkt, attaching);
      repr' := x.Footprint();
    }

    static method FlushOne(x: Interface, ghost repr: set<object>, ghost l: Hub.Line) returns (ghost repr': set<object>)
      requires x in repr && Shows(x, repr, l)
      modifies repr
      ensures x in repr' && repr' <= repr
      ensures Shows(x, repr', l.(port := Flush(l.port, l.dev)))
    {
      hide Flush;
      x.FlushDeferred();
      repr' := x.Footprint();
    }

    method DeliverTo(i: nat, pkt: Packet, attaching: bool, ghost lines: seq<Hub.Line>)
      requires ShowsLines(lines) && i < |ifs|
      modifies this`reprs, reprs[i]
      ensures ShowsLines(Hub.OnLine(lines, i, Arrive(lines[i].port, pkt, attaching, lines[i].dev)))
      ensures |reprs| == |old(reprs)| && fresh(reprs[i] - old(reprs[i]))
      ensures forall j :: 0 <= j < |reprs| && j != i ==> reprs[j] == old(reprs[j])
    {
      hide Arrive, Shows, Hub.OnLine;
      Hub.OnLineAt(lines, i, Arrive(lines[i].port, pkt, attaching, lines[i].dev));
      ghost var repr := DeliverOne(ifs[i], pkt, attaching, reprs[i], lines[i]);
      forall j | 0 <= j < |ifs| && j != i
        ensures Shows(ifs[j], reprs[j], lines[j])
      {
        assert old(Shows(ifs[j], reprs[j], lines[j]));
      }
      reprs := reprs[i := repr];
    }

    method FlushAt(i: nat, ghost lines: seq<Hub.Line>)
      requires ShowsLines(lines) && i < |ifs|
      modifies this`reprs, reprs[i]
      ensures ShowsLines(Hub.OnLine(lines, i, Flush(lines[i].port, lines[i].dev)))
      ensures |reprs| == |old(reprs)| && forall j :: 0 <= j < |reprs| ==> reprs[j] <= old(reprs[j])
    {
      hide Flush, Shows, Hub.OnLine;
      Hub.OnLineAt(lines, i, Flush(lines[i].port, lines[i].dev));
      ghost var repr := FlushOne(ifs[i], reprs[i], lines[i]);
      forall j | 0 <= j < |ifs| && j != i
        ensures Shows(ifs[j], reprs[j], lines[j])
      {
        assert old(Shows(ifs[j], reprs[j], lines[j]));
      }
      reprs := reprs[i := repr];
    }

    /** coremodel_defer_pkt_flush. */
    method DeferPktFlush(ghost lines: seq<Hub.Line>)
      requires ShowsLines(lines)
      modifies this`reprs, Union(reprs)
      ensures ShowsLines(Hub.FlushAll(lines))
      ensures |reprs| == |old(reprs)| && forall j :: 0 <= j < |reprs| ==> reprs[j] <= old(reprs[j])
    {
      hide Flush, Shows, Hub.OnLine;
      ghost var done := lines;
      var i := 0;
      while i < |ifs|
        invariant 0 <= i <= |ifs| == |lines| == |done|
        invariant ShowsLines(done)
        invariant |reprs| == |old(reprs)| && forall j :: 0 <= j < |reprs| ==> reprs[j] <= old(reprs[j])
        invariant forall j :: 0 <= j < |lines| ==> done[j] == if j < i then Hub.FlushAll(lines)[j] else lines[j]
      {
        Hub.OnLineAt(done, i, Flush(done[i].port, done[i].dev));
        FlushAt(i, done);
        done := Hub.OnLine(done, i, Flush(done[i].port, done[i].dev));
        i := i + 1;
      }
      assert done == Hub.FlushAll(lines);
    }

    /** These objects show the state s of Hub. */
    ghost predicate Shown(s: Hub.State)
      reads this, Union(reprs), connRepr
    {
      ShowsLines(s.lines) && query == s.query && deferPkt == s.deferPkt && ConnShown(s.attach)
    }

    /** The interface being attached, before it is linked and after. */
    ghost predicate ConnShown(a: Hub.Attach)
      reads this`ifs, this`connIf, this`reprs, this`connRepr, connRepr
    {
      match a
      case None => connIf == null
      case Requested(l) => ConnApart() && Shows(connIf, connRepr, l)
      case Linked => ifs != [] && connIf == ifs[0]
      case Refused => ConnApart() && connIf.conn == CONN_QUERY && connIf !in ifs
    }

    ghost predicate ConnApart()
      reads this`connIf, this`reprs, this`connRepr
    {
      connIf != null && connIf in connRepr && this !in connRepr && forall i :: 0 <= i < |reprs| ==> connRepr !! reprs[i]
    }

    constructor ()
      ensures Shown(Hub.Empty)
    {
      ifs, connIf, query, deferPkt := [], null, false, false;
      reprs, connRepr := [], {};
    }

    /** The loop that looks up the connection number. */
    method FindIf(conn: u16, ghost lines: seq<Hub.Line>) returns (i: nat)
      requires ShowsLines(lines)
      ensures i == Hub.Find(lines, conn)
    {
      i := 0;
      while i < |ifs| && ifs[i].conn != conn
        invariant 0 <= i <= |ifs|
        invariant forall j :: 0 <= j < i ==> lines[j].port.st.conn != conn
      {
        assert Shows(ifs[i], reprs[i], lines[i]);
        i := i + 1;
      }
      assert i < |ifs| ==> Shows(ifs[i], reprs[i], lines[i]);
    }

    /** coremodel_process_packet, for a packet that is not about the connection itself.  Without memory
        nothing changes and the error is returned, which leaves the packet in the receive ring. */
    method ProcessPacket(pkt: Packet, memory: bool, ghost s: Hub.State) returns (err: bool)
      requires Shown(s)
      modifies this, Union(reprs)
      ensures Shown(if err then s else Hub.Step(s, Hub.Data(pkt)))
      ensures err ==> !memory && Hub.Find(s.lines, pkt.conn) < |s.lines|
    {
      hide Arrive, Hub.Step, Hub.Find, Hub.OnLine, Shows;
      Hub.DataStep(s, pkt);
      var i := FindIf(pkt.conn, s.lines);
      if i == |ifs| {
        return false;
      }
      if !memory {
        return true;
      }
      IsAttaching(s, i);
      var attaching := connIf == ifs[i];
      deferPkt := deferPkt || attaching;
      DeliverAt(i, pkt, attaching, s);
      return false;
    }

    method DeliverAt(i: nat, pkt: Packet, attaching: bool, ghost s: Hub.State)
      requires ShowsLines(s.lines) && ConnShown(s.attach) && i < |ifs|
      modifies this`reprs, reprs[i]
      ensures ShowsLines(Hub.OnLine(s.lines, i, Arrive(s.lines[i].port, pkt, attaching, s.lines[i].dev)))
      ensures ConnShown(s.attach)
    {
      hide Arrive;
      DeliverTo(i, pkt, attaching, s.lines);
      assert ConnShown(s.attach) by {
        assert old(ConnShown(s.attach));
      }
    }

    lemma IsAttaching(s: Hub.State, i: nat)
      requires Shown(s) && i < |ifs|
      ensures connIf == ifs[i] <==> s.attach == Hub.Linked && i == 0
    {
      assert forall j :: 0 < j < |ifs| ==> ifs[j] in reprs[j] && reprs[0] !! reprs[j];
    }

    /** The part of coremodel_preparefds that catches up on deferred packets. */
    method CatchUp(ghost s: Hub.State)
      requires Shown(s) && !s.attach.Linked? && !s.attach.Refused?
      modifies this, Union(reprs)
      ensures Shown(Hub.Step(s, Hub.Prepare))
    {
      hide Hub.FlushAll, Shows;
      if deferPkt {
        FlushKeepingConn(s);
      }
      deferPkt := false;
    }

    method FlushKeepingConn(ghost s: Hub.State)
      requires ShowsLines(s.lines) && ConnShown(s.attach) && !s.attach.Linked? && !s.attach.Refused?
      modifies this`reprs, Union(reprs)
      ensures ShowsLines(Hub.FlushAll(s.lines)) && ConnShown(s.attach)
    {
      hide Hub.FlushAll, Shows;
      DeferPktFlush(s.lines);
      assert ConnShown(s.attach) by {
        assert old(ConnShown(s.attach));
      }
    }

    /** The start of coremodel_attach_int; the request is pushed and the loop runs until `query` is clear. */
    method BeginAttach(kind: Kind, dev: Device, ghost s: Hub.State)
      requires Shown(s) && (s.attach.None? || s.query)
      modifies this
      ensures Shown(Hub.Step(s, Hub.Begin(kind, dev)))
    {
      if query {
        return;
      }
      var cif := new Interface(kind, dev);
      connIf, query, connRepr := cif, true, cif.Footprint();
    }

    /** coremodel_process_conn_response: a positive response links the interface at the front. */
    method ConnResponse(conn: u16, credit: u32, ghost s: Hub.State)
      requires Shown(s) && Hub.Deferral(s)
      modifies this, connRepr
      ensures Shown(Hub.Step(s, Hub.Response(conn, credit)))
    {
      if !query || connIf == null {
        return;
      }
      assert s.attach.Requested?;
      query := false;
      if conn == CONN_QUERY {
        RefusedShown(s);
        return;
      }
      LinkFront(conn, credit, s);
    }

    lemma RefusedShown(s: Hub.State)
      requires ShowsLines(s.lines) && ConnShown(s.attach) && s.attach.Requested?
      requires s.attach.line.port.st.conn == CONN_QUERY
      ensures ConnShown(Hub.Refused)
    {
      assert forall i :: 0 <= i < |ifs| ==> ifs[i] in reprs[i] && connRepr !! reprs[i];
    }

    method LinkFront(conn: u16, credit: u32, ghost s: Hub.State)
      requires ShowsLines(s.lines) && ConnShown(s.attach) && s.attach.Requested?
      modifies this`ifs, this`reprs, connRepr
      ensures var l := s.attach.line;
              var st := l.port.st.(conn := conn, cred := credit);
              ShowsLines([l.(port := l.port.(st := st))] + s.lines)
      ensures ConnShown(Hub.Linked)
    {
      hide Shows;
      ghost var l := s.attach.line;
      ghost var l' := l.(port := l.port.(st := l.port.st.(conn := conn, cred := credit)));
      SetConn(connIf, conn, credit, connRepr, l);
      forall i | 0 <= i < |ifs|
        ensures Shows(ifs[i], reprs[i], s.lines[i])
      {
        assert old(Shows(ifs[i], reprs[i], s.lines[i]));
      }
      ifs, reprs := [connIf] + ifs, [connRepr] + reprs;
      assert forall i :: 0 < i < |ifs| ==> Shows(ifs[i], reprs[i], ([l'] + s.lines)[i]);
    }

    static method SetConn(x: Interface, conn: u16, credit: u32, ghost repr: set<object>, ghost l: Hub.Line)
      requires x in repr && Shows(x, repr, l)
      modifies x`conn, x`cred
      ensures Shows(x, repr, l.(port := l.port.(st := l.port.st.(conn := conn, cred := credit))))
    {
      x.conn, x.cred := conn, credit;
    }

    /** The end of coremodel_attach_int, with the handle or NULL. */
    method EndAttach(ghost s: Hub.State) returns (handle: Interface?)
      requires Shown(s) && Hub.Deferral(s) && !query
      modifies this
      ensures Shown(Hub.Step(s, Hub.Return))
      ensures handle == if s.attach.Linked? then ifs[0] else null
    {
      assert s.attach.Linked? ==> Shows(ifs[0], reprs[0], s.lines[0]);
      handle := if connIf != null && connIf.conn != CONN_QUERY then connIf else null;
      connIf := null;
    }
  }
}
