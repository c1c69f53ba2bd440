/** Whole runs of one attached interface, on any bus. */
module PortRuns {
  import opened Wire
  import opened Protocol

  /** Everything that can happen to an interface from outside. */
  datatype Input =
    | Deliver(pkt: Packet, attaching: bool)
    | Unstall
    | UsbUnpause(ep: byte, tkn: byte)
    | CatchUp

  function Start(kind: Kind, conn: u16): Port {
    Port(IfState(kind, conn, 0, 0, false, 0, {}, Zeros(RDBUF), 0, [], []), [], true, 0)
  }

  function Next(p: Port, input: Input, dev: Device): Port {
    match input
    case Deliver(pkt, attaching) => Arrive(p, pkt, attaching, dev)
    case Unstall => Ready(p, dev)
    case UsbUnpause(ep, tkn) => UsbReady(p, ep, tkn, dev)
    case CatchUp => Flush(p, dev)
  }

  function Run(kind: Kind, conn: u16, inputs: seq<Input>, dev: Device): Port {
    if inputs == [] then Start(kind, conn)
    else Next(Run(kind, conn, inputs[..|inputs| - 1], dev), inputs[|inputs| - 1], dev)
  }

  /** The packets that have arrived, by arrival number. */
  function Arrivals(inputs: seq<Input>): seq<Packet> {
    if inputs == [] then []
    else After(Arrivals(inputs[..|inputs| - 1]), inputs[|inputs| - 1])
  }

  function After(hist: seq<Packet>, input: Input): seq<Packet> {
    if input.Deliver? then hist + [input.pkt] else hist
  }
}
