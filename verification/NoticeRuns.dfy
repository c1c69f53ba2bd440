/** GPIO levels and events over whole runs: the device model hears of each update once and in order. */
module NoticeRuns {
  import opened Wire
  import opened Protocol
  import opened PortRuns

  predicate Notices(kind: Kind) {
    kind == Gpio || kind == Event
  }

  /** Both buses number their update alike. */
  predicate IsUpdate(p: Packet) {
    p.kind == PKT_GPIO_UPDATE
  }

  /** The first arrivals have an entry each, a callback if they are updates, and the rest is queued. */
  ghost predicate Told(st: IfState, q: seq<Item>, hist: seq<Packet>) {
    Notices(st.kind) && |st.log| + |q| == |hist| &&
    (forall k :: 0 <= k < |st.log| ==> st.log[k] == if IsUpdate(hist[k]) then Called(k) else Dropped(k)) &&
    (forall k :: 0 <= k < |q| ==> q[k] == Item(|st.log| + k, hist[|st.log| + k]))
  }

  lemma {:induction false} ScanTells(st: IfState, q: seq<Item>, hist: seq<Packet>, dev: Device)
    requires Told(st, q, hist)
    ensures var s := Scan(st, q, 0, dev);
            s.q == [] && Told(s.st, [], hist)
    decreases |q|
  {
    hide Sending;
    if q != [] {
      var o := Advance(st, q[0], dev);
      assert Without(q, 0) == q[1..];
      assert q[0] == Item(|st.log|, hist[|st.log|]);
      ScanTells(o.st, q[1..], hist, dev);
    }
  }

  lemma ToldArrive(st: IfState, q: seq<Item>, hist: seq<Packet>, pkt: Packet)
    requires Told(st, q, hist)
    ensures Told(st, q + [Item(|hist|, pkt)], hist + [pkt])
  {
  }

  lemma ToldFlags(st: IfState, q: seq<Item>, hist: seq<Packet>, busy: bool, ebusy: set<nat>)
    requires Told(st, q, hist)
    ensures Told(st.(busy := busy, ebusy := ebusy), q, hist) && Told(st.(busy := busy), q, hist) &&
            Told(st.(ebusy := ebusy), q, hist)
  {
  }

  lemma NextTells(p: Port, hist: seq<Packet>, input: Input, dev: Device)
    requires Told(p.st, p.q, hist) && p.arrived == |hist| && (p.defer || p.q == [])
    ensures var r := Next(p, input, dev);
            Told(r.st, r.q, After(hist, input)) && r.arrived == |After(hist, input)| && (r.defer || r.q == [])
  {
    hide Scan, Told;
    ToldFlags(p.st, p.q, hist, false, p.st.ebusy);
    match input
    case Deliver(pkt, attaching) =>
      ToldArrive(p.st, p.q, hist, pkt);
      ScanTells(p.st, p.q + [Item(p.arrived, pkt)], hist + [pkt], dev);
    case Unstall => ScanTells(p.st.(busy := false), p.q, hist, dev);
    case UsbUnpause(ep, tkn) =>
      ToldFlags(p.st, p.q, hist, p.st.busy, p.st.ebusy - {ep * 4 + tkn});
      ScanTells(p.st.(ebusy := p.st.ebusy - {ep * 4 + tkn}), p.q, hist, dev);
    case CatchUp => ScanTells(p.st, p.q, hist, dev);
  }

  /** Over every run: each update makes one callback, in the order of arrival, and once the interface is
      attached none waits. */
  lemma {:induction false} UpdatesTold(kind: Kind, conn: u16, inputs: seq<Input>, dev: Device)
    requires Notices(kind)
    ensures var p := Run(kind, conn, inputs, dev);
            Told(p.st, p.q, Arrivals(inputs)) && p.arrived == |Arrivals(inputs)| && (p.defer || p.q == [])
  {
    if inputs != [] {
      hide Next, Told;
      var init, last := inputs[..|inputs| - 1], inputs[|inputs| - 1];
      UpdatesTold(kind, conn, init, dev);
      NextTells(Run(kind, conn, init, dev), Arrivals(init), last, dev);
    }
  }
}
