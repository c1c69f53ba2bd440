/**
 Transfers from the VM over whole runs on the I2C, SPI, UART and Ethernet buses: any stalls, any partial
 accepts, any ready calls.  Exactly when a run is clean, the device sees each payload once and whole
 and each request that asks for an answer gets exactly one.
 */
module TransferRuns {
  import opened Wire
  import opened Protocol
  import opened PortRuns

  /** What the log says about one packet: bytes given to the device, bytes made by it, answers pushed, and
      the number of callbacks that move no bytes. */
  datatype Trace = Trace(given: seq<byte>, made: seq<byte>, replies: seq<Packet>, refused: bool, signals: nat)

  const Nothing := Trace([], [], [], false, 0)

  function Add(t: Trace, e: Entry): Trace {
    match e
    case Gave(_, bytes) => t.(given := t.given + bytes)
    case Made(_, bytes) => t.(made := t.made + bytes)
    case Reply(_, pkt, _) => t.(replies := t.replies + [pkt])
    case Nak(_, _) => t.(refused := true)
    case Called(_) => t.(signals := t.signals + 1)
    case _ => t
  }

  function TraceOf(log: seq<Entry>, id: nat): Trace {
    if log == [] then Nothing
    else
      var t := TraceOf(log[..|log| - 1], id);
      if log[|log| - 1].id == id then Add(t, log[|log| - 1]) else t
  }

  lemma TraceAppend(log: seq<Entry>, e: Entry, id: nat)
    ensures TraceOf(log + [e], id) == if e.id == id then Add(TraceOf(log, id), e) else TraceOf(log, id)
  {
    assert (log + [e])[..|log|] == log;
  }

  lemma {:induction false} NoEntries(log: seq<Entry>, id: nat)
    requires forall a :: 0 <= a < |log| ==> log[a].id != id
    ensures TraceOf(log, id) == Nothing
  {
    if log != [] {
      NoEntries(log[..|log| - 1], id);
    }
  }

  predicate Streams(kind: Kind) {
    kind == I2c || kind == Spi || kind == Uart || kind == Eth
  }

  predicate Spoils(kind: Kind, e: Entry) {
    (e.Nak? && e.offs != 0) || (e.Stalled? && (kind == Uart || kind == Eth)) || e.Overran?
  }

  /** No I2C write was refused after part of it had been accepted, no UART or Ethernet `tx` returned 0 for
      a payload that is not empty (such a stall takes the packet off the queue), and no SPI transfer ran
      past the read buffer. */
  ghost predicate Clean(kind: Kind, log: seq<Entry>) {
    forall a :: 0 <= a < |log| ==> !Spoils(kind, log[a])
  }

  /** Bit 0 of `bflag` asks for an answer to a START or a WRITE. */
  predicate WantsAnswer(p: Packet) {
    p.bflag % 2 == 1
  }

  /** The packet has been dealt with completely. */
  ghost predicate Served(kind: Kind, p: Packet, t: Trace, conn: u16) {
    if kind == Spi then
      if p.kind == PKT_SPI_TX then
        t.given == p.data && |t.made| == |p.data| && !t.refused && t.signals == 0 &&
        t.replies == [Packet(conn, PKT_SPI_RX, 0, p.hflag, t.made)]
      else
        t == Nothing.(signals := if p.kind == PKT_SPI_CS then 1 else 0)
    else if kind == Uart || kind == Eth then
      t == if p.kind == PKT_UART_TX then Nothing.(given := p.data)
           else Nothing.(signals := if kind == Uart && p.kind == PKT_UART_BRK then 1 else 0)
    else if p.kind == PKT_I2C_START then
      t.given == t.made == [] && t.signals == (if t.refused then 0 else 1) &&
      t.replies ==
        if WantsAnswer(p) then [Packet(conn, PKT_I2C_DONE, if t.refused then 1 else 0, p.hflag, [])] else []
    else if p.kind == PKT_I2C_WRITE then
      t.given == (if t.refused then [] else p.data) && t.made == [] && t.signals == 0 &&
      t.replies ==
        if WantsAnswer(p) then [Packet(conn, PKT_I2C_DONE, if t.refused then 1 else 0, p.hflag, [])] else []
    else if p.kind == PKT_I2C_READ then
      t.given == [] && |t.made| == p.bflag && !t.refused && t.signals == 0 &&
      t.replies == [Packet(conn, PKT_I2C_DONE, 0, p.hflag, t.made)]
    else
      t == Nothing.(signals := if p.kind == PKT_I2C_STOP then 1 else 0)
  }

  /** The packet at the head of the queue, of which the device has moved the first offs bytes. */
  ghost predicate Partial(kind: Kind, p: Packet, offs: nat, rdbuf: seq<byte>, t: Trace) {
    t.replies == [] && !t.refused && t.signals == 0 &&
    if kind == Spi && p.kind == PKT_SPI_TX then
      (offs == 0 || offs < |p.data|) && offs <= |p.data| && offs <= RDBUF &&
      t.given == p.data[..offs] && t.made == Prefix(rdbuf, offs)
    else if (kind == I2c && p.kind == PKT_I2C_WRITE) || ((kind == Uart || kind == Eth) && p.kind == PKT_UART_TX) then
      (offs == 0 || offs < |p.data|) && offs <= |p.data| && t.given == p.data[..offs] && t.made == []
    else if kind == I2c && p.kind == PKT_I2C_READ then
      (offs == 0 || offs < p.bflag) && t.given == [] && t.made == Prefix(rdbuf, offs)
    else
      offs == 0 && t == Nothing
  }

  /** What one call of the handler does to the trace of its packet. */
  ghost predicate Progress(st: IfState, p: Packet, o: Outcome, id: nat) {
    var t := TraceOf(o.st.log, id);
    o.st.conn == st.conn && |o.st.rdbuf| == |st.rdbuf| &&
    (o.res == 0 || o.res == 1) &&
    (o.res == 0 ==> o.st.offs == 0 && Served(st.kind, p, t, st.conn)) &&
    (o.res == 1 ==> Partial(st.kind, p, o.st.offs, o.st.rdbuf, t))
  }

  ghost predicate AtHead(st: IfState, it: Item) {
    |st.rdbuf| == RDBUF && Partial(st.kind, it.pkt, st.offs, st.rdbuf, TraceOf(st.log, it.id))
  }

  function StartNote(it: Item, a: Answer): Entry {
    if a.res < 0 then Nak(it.id, 0) else Called(it.id)
  }

  /** What a START that is not stalled leaves. */
  lemma StartState(st: IfState, it: Item, dev: Device)
    requires it.pkt.kind == PKT_I2C_START && !st.busy && dev(st.calls).res != 0
    ensures var a := dev(st.calls);
            var o, d := AdvanceI2c(st, it, dev), Done(st.(trnidx := it.pkt.hflag), a.res < 0, []);
            o.res == 0 && o.st.conn == st.conn && o.st.rdbuf == st.rdbuf && o.st.offs == st.offs &&
            o.st.log == st.log + [StartNote(it, a)] + if Flagged(it.pkt) then [Reply(it.id, d, a)] else []
  {
    hide Done;
  }

  lemma StartStalled(st: IfState, it: Item, dev: Device)
    requires it.pkt.kind == PKT_I2C_START && (st.busy || dev(st.calls).res == 0)
    ensures var o := AdvanceI2c(st, it, dev);
            o.res == 1 && o.st.conn == st.conn && o.st.rdbuf == st.rdbuf && o.st.offs == st.offs &&
            o.st.log == if st.busy then st.log else st.log + [Stalled(it.id)]
  {
  }

  lemma StartProgress(st: IfState, it: Item, dev: Device)
    requires st.kind == I2c && AtHead(st, it) && it.pkt.kind == PKT_I2C_START
    ensures Progress(st, it.pkt, AdvanceI2c(st, it, dev), it.id)
  {
    hide AdvanceI2c, TraceOf;
    if st.busy || dev(st.calls).res == 0 {
      StartStalled(st, it, dev);
      TraceAppend(st.log, Stalled(it.id), it.id);
    } else {
      StartState(st, it, dev);
      var a := dev(st.calls);
      var e := StartNote(it, a);
      TraceAppend(st.log, e, it.id);
      TraceAppend(st.log + [e], Reply(it.id, Done(st.(trnidx := it.pkt.hflag), a.res < 0, []), a), it.id);
      assert st.log + [e] + [] == st.log + [e];
    }
  }

  /** In a clean run a write is only refused before any of it is accepted. */
  lemma CleanNak(st: IfState, it: Item, dev: Device)
    requires it.pkt.kind == PKT_I2C_WRITE && !st.busy && dev(st.calls).res < 0
    requires Clean(I2c, AdvanceI2c(st, it, dev).st.log)
    ensures st.offs == 0
  {
    hide Amount, Left, Done;
    assert AdvanceI2c(st, it, dev).st.log[|st.log|] == Nak(it.id, st.offs);
  }

  /** What a refusal leaves. */
  lemma NakState(st: IfState, it: Item, dev: Device)
    requires it.pkt.kind == PKT_I2C_WRITE && !st.busy && dev(st.calls).res < 0
    ensures var o, d := AdvanceI2c(st, it, dev), Done(st.(trnidx := it.pkt.hflag), true, []);
            o.res == 0 && o.st.conn == st.conn && o.st.rdbuf == st.rdbuf && o.st.offs == st.offs &&
            o.st.log == st.log + [Nak(it.id, st.offs)] +
              if Flagged(it.pkt) then [Reply(it.id, d, dev(st.calls))] else []
  {
    hide Amount, Left, Done;
  }

  lemma NakProgress(st: IfState, it: Item, dev: Device)
    requires st.kind == I2c && AtHead(st, it) && it.pkt.kind == PKT_I2C_WRITE
    requires !st.busy && dev(st.calls).res < 0 && Clean(I2c, AdvanceI2c(st, it, dev).st.log)
    ensures Progress(st, it.pkt, AdvanceI2c(st, it, dev), it.id)
  {
    hide AdvanceI2c, Clean, TraceOf, Amount, Left;
    CleanNak(st, it, dev);
    NakState(st, it, dev);
    var e := Nak(it.id, st.offs);
    TraceAppend(st.log, e, it.id);
    TraceAppend(st.log + [e], Reply(it.id, Done(st.(trnidx := it.pkt.hflag), true, []), dev(st.calls)), it.id);
    assert st.log + [e] + [] == st.log + [e];
  }

  lemma LeftPrefix(data: seq<byte>, offs: nat, k: nat)
    requires offs <= |data| && k <= |Left(data, offs)|
    ensures |Left(data, offs)| == |data| - offs && data[..offs] + Left(data, offs)[..k] == data[..offs + k]
  {
  }

  lemma WriteProgress(st: IfState, it: Item, dev: Device)
    requires st.kind == I2c && AtHead(st, it) && it.pkt.kind == PKT_I2C_WRITE
    requires st.busy || dev(st.calls).res >= 0
    ensures Progress(st, it.pkt, AdvanceI2c(st, it, dev), it.id)
  {
    hide TraceOf, Amount, Left;
    if !st.busy {
      var rest := Left(it.pkt.data, st.offs);
      var k := Amount(dev(st.calls), |rest|);
      var e := Gave(it.id, rest[..k]);
      TraceAppend(st.log, Stalled(it.id), it.id);
      TraceAppend(st.log, e, it.id);
      TraceAppend(st.log + [e], Reply(it.id, Done(st.(trnidx := it.pkt.hflag), false, []), dev(st.calls)), it.id);
      LeftPrefix(it.pkt.data, st.offs, k);
    }
  }

  lemma StorePrefix(buf: seq<byte>, offs: nat, bytes: seq<byte>)
    requires offs + |bytes| <= |buf|
    ensures Prefix(Store(buf, offs, bytes), offs + |bytes|) == Prefix(buf, offs) + bytes
  {
  }

  lemma ReadProgress(st: IfState, it: Item, dev: Device)
    requires st.kind == I2c && AtHead(st, it) && it.pkt.kind == PKT_I2C_READ
    ensures Progress(st, it.pkt, AdvanceI2c(st, it, dev), it.id)
  {
    hide TraceOf, Amount, Store, Bytes;
    if !st.busy {
      var want: nat := it.pkt.bflag;
      var k := Amount(dev(st.calls), Remaining(want, st.offs));
      var got := Bytes(dev(st.calls), k);
      var e := Made(it.id, got);
      StorePrefix(st.rdbuf, st.offs, got);
      var rdbuf := Store(st.rdbuf, st.offs, got);
      TraceAppend(st.log, Stalled(it.id), it.id);
      TraceAppend(st.log, e, it.id);
      var d := Done(st.(trnidx := it.pkt.hflag), false, Prefix(rdbuf, want));
      TraceAppend(st.log + [e], Reply(it.id, d, dev(st.calls)), it.id);
    }
  }

  /** How many bytes an SPI transfer moves next. */
  function SpiStep(st: IfState, it: Item, dev: Device): nat {
    var rest := |Left(it.pkt.data, st.offs)|;
    Amount(dev(st.calls), if rest > 256 then 256 else rest)
  }

  predicate Overruns(st: IfState, it: Item, dev: Device) {
    st.kind == Spi && it.pkt.kind == PKT_SPI_TX && !st.busy && SpiStep(st, it, dev) > 0 &&
    st.offs + SpiStep(st, it, dev) > RDBUF
  }

  /** An SPI transfer that completes stays inside the read buffer if and only if its payload fits it. */
  lemma SpiInsideIff(st: IfState, it: Item, dev: Device)
    requires st.kind == Spi && it.pkt.kind == PKT_SPI_TX && !st.busy && SpiStep(st, it, dev) > 0
    requires AdvanceSpi(st, it, dev).res == 0
    ensures Overruns(st, it, dev) <==> |it.pkt.data| > RDBUF
  {
    hide Store, Bytes, Prefix, Sending;
  }

  lemma OverrunNoted(st: IfState, it: Item, dev: Device)
    requires Overruns(st, it, dev)
    ensures !Clean(Spi, AdvanceSpi(st, it, dev).st.log)
  {
    hide Amount, Left, Store, Bytes, Prefix, Sending;
    assert AdvanceSpi(st, it, dev).st.log[|st.log| + 2] == Overran(it.id);
  }

  lemma CleanInside(st: IfState, it: Item, dev: Device)
    requires Clean(Spi, AdvanceSpi(st, it, dev).st.log)
    ensures !Overruns(st, it, dev)
  {
    hide Clean, Overruns, AdvanceSpi;
    if Overruns(st, it, dev) {
      OverrunNoted(st, it, dev);
    }
  }

  lemma SpiProgress(st: IfState, it: Item, dev: Device)
    requires st.kind == Spi && AtHead(st, it) && it.pkt.kind == PKT_SPI_TX && !Overruns(st, it, dev)
    ensures Progress(st, it.pkt, AdvanceSpi(st, it, dev), it.id)
  {
    hide TraceOf, Amount, Store, Bytes, Left, Sending;
    if !st.busy {
      var rest := Left(it.pkt.data, st.offs);
      var k := Amount(dev(st.calls), if |rest| > 256 then 256 else |rest|);
      var got := Bytes(dev(st.calls), k);
      var gave, made := Gave(it.id, rest[..k]), Made(it.id, got);
      var rdbuf := Store(st.rdbuf, st.offs, got);
      TraceAppend(st.log, Stalled(it.id), it.id);
      TraceAppend(st.log, gave, it.id);
      TraceAppend(st.log + [gave], made, it.id);
      var d := Packet(st.conn, PKT_SPI_RX, 0, it.pkt.hflag, Prefix(rdbuf, |it.pkt.data|));
      TraceAppend(st.log + [gave] + [made], Reply(it.id, d, dev(st.calls)), it.id);
      LeftPrefix(it.pkt.data, st.offs, k);
      if k > 0 {
        StorePrefix(st.rdbuf, st.offs, got);
      }
    }
  }

  /** UART and Ethernet share one handler for data, and the same packet numbers. */
  lemma GiveProgress(st: IfState, it: Item, dev: Device)
    requires (st.kind == Uart || st.kind == Eth) && AtHead(st, it) && it.pkt.kind == PKT_UART_TX
    requires st.busy || Left(it.pkt.data, st.offs) == [] || Amount(dev(st.calls), |Left(it.pkt.data, st.offs)|) > 0
    ensures Progress(st, it.pkt, GiveAll(st, it, dev), it.id)
  {
    hide TraceOf, Amount, Left;
    if !st.busy {
      var rest := Left(it.pkt.data, st.offs);
      var k := Amount(dev(st.calls), |rest|);
      TraceAppend(st.log, Gave(it.id, rest[..k]), it.id);
      LeftPrefix(it.pkt.data, st.offs, k);
    }
  }

  lemma CreditProgress(st: IfState, it: Item, dev: Device)
    requires TraceOf(st.log, it.id) == Nothing
    ensures TraceOf(AddCredit(st, it, dev).st.log, it.id) == Nothing
  {
    hide Sending;
    TraceAppend(st.log, RxReady(it.id), it.id);
  }

  /** A stall of `tx`. */
  predicate Loses(st: IfState, it: Item, dev: Device) {
    (st.kind == Uart || st.kind == Eth) && it.pkt.kind == PKT_UART_TX && !st.busy && Left(it.pkt.data, st.offs) != [] &&
    Amount(dev(st.calls), |Left(it.pkt.data, st.offs)|) == 0
  }

  lemma StreamProgress(st: IfState, it: Item, dev: Device)
    requires (st.kind == Uart || st.kind == Eth) && AtHead(st, it) && !Loses(st, it, dev)
    ensures Progress(st, it.pkt, Advance(st, it, dev), it.id)
  {
    hide GiveAll, TraceOf, Amount, Left;
    if it.pkt.kind == PKT_UART_TX {
      GiveProgress(st, it, dev);
    } else if it.pkt.kind == PKT_UART_RX_ACK {
      CreditProgress(st, it, dev);
    } else {
      PassProgress(st, it, st.kind == Uart && it.pkt.kind == PKT_UART_BRK, dev);
    }
  }

  lemma PassProgress(st: IfState, it: Item, calls: bool, dev: Device)
    requires st.offs == 0 && TraceOf(st.log, it.id) == Nothing
    ensures TraceOf(Pass(st, it, calls, dev).st.log, it.id) == Nothing.(signals := if calls then 1 else 0)
  {
    hide Sending;
    TraceAppend(st.log, if calls then Called(it.id) else Dropped(it.id), it.id);
  }

  lemma I2cProgress(st: IfState, it: Item, dev: Device)
    requires st.kind == I2c && AtHead(st, it)
    requires Clean(I2c, AdvanceI2c(st, it, dev).st.log)
    ensures Progress(st, it.pkt, AdvanceI2c(st, it, dev), it.id)
  {
    hide TraceOf, Amount, Left, Store, Bytes;
    if it.pkt.kind == PKT_I2C_START {
      StartProgress(st, it, dev);
    } else if it.pkt.kind == PKT_I2C_WRITE {
      if !st.busy && dev(st.calls).res < 0 {
        NakProgress(st, it, dev);
      } else {
        WriteProgress(st, it, dev);
      }
    } else if it.pkt.kind == PKT_I2C_READ {
      ReadProgress(st, it, dev);
    } else {
      PassProgress(st.(trnidx := it.pkt.hflag), it, it.pkt.kind == PKT_I2C_STOP, dev);
    }
  }

  lemma SpiAnyProgress(st: IfState, it: Item, dev: Device)
    requires st.kind == Spi && AtHead(st, it) && Clean(Spi, AdvanceSpi(st, it, dev).st.log)
    ensures Progress(st, it.pkt, AdvanceSpi(st, it, dev), it.id)
  {
    hide TraceOf, Amount, Left, Store, Bytes, Clean;
    CleanInside(st, it, dev);
    if it.pkt.kind == PKT_SPI_TX {
      SpiProgress(st, it, dev);
    } else {
      PassProgress(st, it, it.pkt.kind == PKT_SPI_CS, dev);
    }
  }

  /** Every call of the handlers moves the packet at the head on, or serves it. */
  lemma HeadProgress(st: IfState, it: Item, dev: Device)
    requires Streams(st.kind) && AtHead(st, it)
    requires Clean(st.kind, Advance(st, it, dev).st.log)
    ensures Progress(st, it.pkt, Advance(st, it, dev), it.id)
  {
    hide AdvanceI2c, AdvanceSpi, TraceOf, AtHead, Progress, Clean;
    match st.kind {
      case I2c => I2cProgress(st, it, dev);
      case Spi => SpiAnyProgress(st, it, dev);
      case _ =>
        CleanLosesNothing(st, it, dev);
        StreamProgress(st, it, dev);
    }
  }

  lemma CleanLosesNothing(st: IfState, it: Item, dev: Device)
    ensures Loses(st, it, dev) ==> !Clean(st.kind, Advance(st, it, dev).st.log)
  {
    if Loses(st, it, dev) {
      assert Advance(st, it, dev).st.log[|st.log|] == Stalled(it.id);
    }
  }

  /** The handlers add entries about the packet at hand only, and drop no entry. */
  ghost predicate Extends(log: seq<Entry>, more: seq<Entry>, id: nat) {
    log <= more && forall a :: |log| <= a < |more| ==> more[a].id == id
  }

  lemma OwnI2c(st: IfState, it: Item, dev: Device)
    ensures Extends(st.log, AdvanceI2c(st, it, dev).st.log, it.id)
  {
    hide Sending, Amount, Left, Store, Bytes, Prefix, Done;
  }

  lemma OwnEntries(st: IfState, it: Item, dev: Device)
    requires Streams(st.kind)
    ensures Extends(st.log, Advance(st, it, dev).st.log, it.id)
  {
    hide AdvanceUsbh, AdvanceCan, Sending, Amount, Left, Store, Bytes, Prefix, AdvanceI2c;
    if st.kind == I2c {
      OwnI2c(st, it, dev);
    }
  }

  lemma {:induction false} OthersUntouched(log: seq<Entry>, more: seq<Entry>, id: nat)
    requires log <= more && forall a :: |log| <= a < |more| ==> more[a].id != id
    ensures TraceOf(more, id) == TraceOf(log, id)
    decreases |more|
  {
    if |more| > |log| {
      OthersUntouched(log, more[..|more| - 1], id);
    } else {
      assert more == log;
    }
  }

  /** The queue is what arrived and is not served yet. */
  ghost predicate Aligned(q: seq<Item>, hist: seq<Packet>) {
    |q| <= |hist| && forall k :: 0 <= k < |q| ==> q[k] == Item(|hist| - |q| + k, hist[|hist| - |q| + k])
  }

  /** The log speaks of the packets in order, up to packet n of those that arrived. */
  ghost predicate InTurn(log: seq<Entry>, n: nat, arrived: nat) {
    (forall a :: 0 <= a < |log| ==> log[a].id <= n && log[a].id < arrived) &&
    (forall a, b :: 0 <= a < b < |log| ==> log[a].id <= log[b].id)
  }

  ghost predicate Lined(st: IfState, q: seq<Item>, hist: seq<Packet>) {
    Streams(st.kind) && |st.rdbuf| == RDBUF &&
    Aligned(q, hist) && InTurn(st.log, |hist| - |q|, |hist|)
  }

  /** Every earlier packet is served, and the device has moved offs bytes of the one at the head. */
  ghost predicate Exact(st: IfState, q: seq<Item>, hist: seq<Packet>)
    requires |q| <= |hist|
  {
    EarlierServed(st, hist, |hist| - |q|) &&
    (if q == [] then st.offs == 0
     else Partial(st.kind, hist[|hist| - |q|], st.offs, st.rdbuf, TraceOf(st.log, |hist| - |q|)))
  }

  /** One of the first n packets was not served although it was dealt with. */
  ghost predicate Spoilt(st: IfState, hist: seq<Packet>, n: nat)
    requires n <= |hist|
  {
    exists id :: 0 <= id < n && !Served(st.kind, hist[id], TraceOf(st.log, id), st.conn)
  }

  /** The SPI transfer at the head has run past the read buffer. */
  predicate Overrun(st: IfState, q: seq<Item>) {
    st.kind == Spi && q != [] && q[0].pkt.kind == PKT_SPI_TX && st.offs > RDBUF
  }

  ghost predicate Inv(st: IfState, q: seq<Item>, hist: seq<Packet>) {
    Lined(st, q, hist) &&
    if Clean(st.kind, st.log) then Exact(st, q, hist) else Overrun(st, q) || Spoilt(st, hist, |hist| - |q|)
  }

  lemma StepLined(st: IfState, q: seq<Item>, hist: seq<Packet>, dev: Device)
    requires Lined(st, q, hist) && q != []
    ensures var o := Advance(st, q[0], dev);
            o.res >= 0 && Lined(o.st, if o.res == 0 then q[1..] else q, hist) && o.st.conn == st.conn
  {
    hide Advance;
    OwnEntries(st, q[0], dev);
    AdvanceMeasure(st, q[0], dev);
    StepShape(st, q[0], dev);
    InTurnMore(st.log, Advance(st, q[0], dev).st.log, |hist| - |q|, |hist|);
  }

  lemma InTurnMore(log: seq<Entry>, more: seq<Entry>, n: nat, arrived: nat)
    requires InTurn(log, n, arrived) && n < arrived && log <= more
    requires forall a :: |log| <= a < |more| ==> more[a].id == n
    ensures InTurn(more, n, arrived) && InTurn(more, n + 1, arrived)
  {
    assert forall a :: 0 <= a < |log| ==> more[a] == log[a];
  }

  lemma StepShape(st: IfState, it: Item, dev: Device)
    requires Streams(st.kind)
    ensures var o := Advance(st, it, dev); o.res >= 0 && |o.st.rdbuf| == |st.rdbuf|
  {
  }

  ghost predicate EarlierServed(st: IfState, hist: seq<Packet>, n: nat)
    requires n <= |hist|
  {
    forall id :: 0 <= id < n ==> Served(st.kind, hist[id], TraceOf(st.log, id), st.conn)
  }

  lemma EarlierKept(st: IfState, more: IfState, hist: seq<Packet>, n: nat)
    requires n <= |hist| && EarlierServed(st, hist, n)
    requires st.log <= more.log && more.kind == st.kind && more.conn == st.conn
    requires forall a :: |st.log| <= a < |more.log| ==> more.log[a].id == n
    ensures EarlierServed(more, hist, n)
  {
    hide Served;
    forall id | 0 <= id < n
      ensures TraceOf(more.log, id) == TraceOf(st.log, id)
    {
      OthersUntouched(st.log, more.log, id);
    }
  }

  lemma CleanPrefix(kind: Kind, log: seq<Entry>, more: seq<Entry>)
    requires log <= more && Clean(kind, more)
    ensures Clean(kind, log)
  {
    assert forall a :: 0 <= a < |log| ==> more[a] == log[a];
  }

  lemma HeadFacts(st: IfState, q: seq<Item>, hist: seq<Packet>)
    requires Inv(st, q, hist) && q != []
    ensures var cur := |hist| - |q|;
            0 <= cur < |hist| && q[0] == Item(cur, hist[cur]) && Streams(st.kind) && |st.rdbuf| == RDBUF &&
            InTurn(st.log, cur, |hist|) && (Clean(st.kind, st.log) ==> AtHead(st, q[0]) && EarlierServed(st, hist, cur))
  {
    hide Served, Partial, TraceOf, Clean;
    assert hist[|hist| - |q|] in hist;
  }

  lemma NextFresh(log: seq<Entry>, more: seq<Entry>, n: nat, arrived: nat)
    requires InTurn(log, n, arrived) && n < arrived && log <= more
    requires forall a :: |log| <= a < |more| ==> more[a].id == n
    ensures TraceOf(more, n + 1) == Nothing
  {
    hide TraceOf;
    InTurnMore(log, more, n, arrived);
    NoEntries(more, n + 1);
  }

  lemma StepExact(st: IfState, q: seq<Item>, hist: seq<Packet>, dev: Device)
    requires Inv(st, q, hist) && q != [] && Clean(st.kind, Advance(st, q[0], dev).st.log)
    ensures var o := Advance(st, q[0], dev);
            Exact(o.st, if o.res == 0 then q[1..] else q, hist)
  {
    hide Advance, Served, Partial, TraceOf, Clean, Lined, EarlierServed, AtHead, InTurn;
    HeadFacts(st, q, hist);
    var o, cur := Advance(st, q[0], dev), |hist| - |q|;
    OwnEntries(st, q[0], dev);
    AdvanceMeasure(st, q[0], dev);
    CleanPrefix(st.kind, st.log, o.st.log);
    HeadProgress(st, q[0], dev);
    EarlierKept(st, o.st, hist, cur);
    if o.res == 0 {
      OneMore(o.st, hist, cur);
      NextFresh(st.log, o.st.log, cur, |hist|);
      if |q| > 1 {
        NewHead(st.kind, hist[cur + 1], o.st.rdbuf);
      }
    }
  }

  lemma OneMore(st: IfState, hist: seq<Packet>, n: nat)
    requires n < |hist| && EarlierServed(st, hist, n)
    requires Served(st.kind, hist[n], TraceOf(st.log, n), st.conn)
    ensures EarlierServed(st, hist, n + 1)
  {
    hide Served, TraceOf;
  }

  /** A packet that was not served stays so, and a transfer that has run past the buffer ends unserved. */
  lemma StepSpoilt(st: IfState, q: seq<Item>, hist: seq<Packet>, dev: Device)
    requires Inv(st, q, hist) && q != [] && !Clean(st.kind, Advance(st, q[0], dev).st.log)
    ensures var o := Advance(st, q[0], dev);
            (o.res != 0 && Overrun(o.st, q)) || Spoilt(o.st, hist, |hist| - |q| + if o.res == 0 then 1 else 0)
  {
    hide Advance, Served, Partial, TraceOf, Clean, Lined, AtHead, Overrun;
    HeadFacts(st, q, hist);
    var o, cur := Advance(st, q[0], dev), |hist| - |q|;
    AdvanceMeasure(st, q[0], dev);
    if Clean(st.kind, st.log) {
      FirstSpoilt(st, q, dev);
      assert o.res == 0 ==> !Served(st.kind, hist[cur], TraceOf(o.st.log, cur), st.conn);
    } else if Overrun(st, q) {
      OverrunKind(st, q);
      OverrunGoesOn(st, q, dev);
      assert o.res == 0 ==> !Served(st.kind, hist[cur], TraceOf(o.st.log, cur), st.conn);
    } else {
      OwnEntries(st, q[0], dev);
      var id :| 0 <= id < cur && !Served(st.kind, hist[id], TraceOf(st.log, id), st.conn);
      OthersUntouched(st.log, o.st.log, id);
    }
  }

  /** No answer of more than the read buffer serves its request. */
  lemma ShortAnswer(p: Packet, t: Trace, d: Packet, conn: u16)
    requires p.kind == PKT_SPI_TX && |p.data| > RDBUF && |d.data| <= RDBUF
    requires t.replies != [] && t.replies[|t.replies| - 1] == d
    ensures !Served(Spi, p, t, conn)
  {
  }

  lemma OverrunKind(st: IfState, q: seq<Item>)
    requires Overrun(st, q)
    ensures st.kind == Spi
  {
  }

  lemma OverrunGoesOn(st: IfState, q: seq<Item>, dev: Device)
    requires Overrun(st, q) && |st.rdbuf| == RDBUF
    ensures var o := Advance(st, q[0], dev);
            if o.res != 0 then Overrun(o.st, q)
            else !Served(Spi, q[0].pkt, TraceOf(o.st.log, q[0].id), st.conn)
  {
    hide Amount, Store, Bytes, Sending, TraceOf, Served;
    if AdvanceSpi(st, q[0], dev).res == 0 {
      EndUnserved(st, q[0], dev);
    }
  }

  /** A transfer that ends past the read buffer is not served. */
  lemma EndUnserved(st: IfState, it: Item, dev: Device)
    requires st.kind == Spi && it.pkt.kind == PKT_SPI_TX && |st.rdbuf| == RDBUF && !st.busy
    requires Overruns(st, it, dev) && AdvanceSpi(st, it, dev).res == 0
    ensures !Served(Spi, it.pkt, TraceOf(AdvanceSpi(st, it, dev).st.log, it.id), st.conn)
  {
    hide Amount, Store, Bytes, Sending, TraceOf, Served;
    var o := AdvanceSpi(st, it, dev);
    var n := |o.st.log|;
    assert o.st.log[n - 1].Reply?;
    TraceAppend(o.st.log[..n - 1], o.st.log[n - 1], it.id);
    assert o.st.log == o.st.log[..n - 1] + [o.st.log[n - 1]];
    ShortAnswer(it.pkt, TraceOf(o.st.log, it.id), o.st.log[n - 1].pkt, st.conn);
  }

  /** One of the ways to spoil a run: an I2C write refused half-way. */
  predicate HalfWrite(st: IfState, it: Item, dev: Device) {
    st.kind == I2c && it.pkt.kind == PKT_I2C_WRITE && !st.busy && dev(st.calls).res < 0 && st.offs > 0
  }

  lemma NewSpoilsI2c(st: IfState, it: Item, dev: Device)
    requires st.kind == I2c
    ensures var log := AdvanceI2c(st, it, dev).st.log;
            st.log <= log && forall a :: |st.log| <= a < |log| && Spoils(I2c, log[a]) ==> HalfWrite(st, it, dev)
  {
    hide Sending, Left, Store, Bytes, Prefix, Done, Amount;
  }

  lemma NewSpoils(st: IfState, it: Item, dev: Device)
    requires Streams(st.kind)
    ensures var log := Advance(st, it, dev).st.log;
            st.log <= log && forall a :: |st.log| <= a < |log| && Spoils(st.kind, log[a]) ==>
              HalfWrite(st, it, dev) || Loses(st, it, dev) || Overruns(st, it, dev)
  {
    hide AdvanceUsbh, AdvanceCan, Sending, Left, Store, Bytes, Prefix, Amount, AdvanceI2c, HalfWrite;
    if st.kind == I2c {
      NewSpoilsI2c(st, it, dev);
    }
  }

  lemma FirstSpoilt(st: IfState, q: seq<Item>, dev: Device)
    requires q != [] && Streams(st.kind) && Clean(st.kind, st.log) && AtHead(st, q[0])
    requires !Clean(st.kind, Advance(st, q[0], dev).st.log)
    ensures var o := Advance(st, q[0], dev);
            if o.res != 0 then Overrun(o.st, q)
            else !Served(st.kind, q[0].pkt, TraceOf(o.st.log, q[0].id), st.conn)
  {
    hide Advance, TraceOf, Served, Partial, HalfWrite, Overruns, Overrun;
    var it := q[0];
    NewSpoils(st, it, dev);
    var log := Advance(st, it, dev).st.log;
    assert forall b :: 0 <= b < |st.log| ==> log[b] == st.log[b];
    assert HalfWrite(st, it, dev) || Loses(st, it, dev) || Overruns(st, it, dev);
    if HalfWrite(st, it, dev) {
      HalfWriteSpoils(st, it, dev);
    } else if Loses(st, it, dev) {
      LossSpoils(st, it, dev);
    } else {
      OverrunSpoils(st, q, dev);
    }
  }

  lemma OverrunSpoils(st: IfState, q: seq<Item>, dev: Device)
    requires q != [] && |st.rdbuf| == RDBUF && Overruns(st, q[0], dev)
    ensures st.kind == Spi
    ensures var o := Advance(st, q[0], dev);
            if o.res != 0 then Overrun(o.st, q)
            else !Served(Spi, q[0].pkt, TraceOf(o.st.log, q[0].id), st.conn)
  {
    hide Amount, Store, Bytes, Sending, TraceOf, Served;
    if AdvanceSpi(st, q[0], dev).res == 0 {
      EndUnserved(st, q[0], dev);
    }
  }

  lemma HalfWriteSpoils(st: IfState, it: Item, dev: Device)
    requires HalfWrite(st, it, dev) && AtHead(st, it)
    ensures var o := Advance(st, it, dev);
            o.res == 0 && !Served(st.kind, it.pkt, TraceOf(o.st.log, it.id), st.conn)
  {
    hide Amount, Left, Store, Bytes, Prefix;
    var e := Nak(it.id, st.offs);
    TraceAppend(st.log, e, it.id);
    TraceAppend(st.log + [e], Reply(it.id, Done(st.(trnidx := it.pkt.hflag), true, []), dev(st.calls)), it.id);
  }

  lemma LossSpoils(st: IfState, it: Item, dev: Device)
    requires Loses(st, it, dev) && AtHead(st, it)
    ensures var o := Advance(st, it, dev);
            o.res == 0 && !Served(st.kind, it.pkt, TraceOf(o.st.log, it.id), st.conn)
  {
    hide TraceOf, Sending, Amount, AdvanceI2c, AdvanceSpi, AdvanceUsbh, AdvanceCan;
    TraceAppend(st.log, Stalled(it.id), it.id);
  }

  lemma NewHead(kind: Kind, p: Packet, rdbuf: seq<byte>)
    ensures Partial(kind, p, 0, rdbuf, Nothing)
  {
  }

  lemma {:induction false} ScanKeeps(st: IfState, q: seq<Item>, hist: seq<Packet>, dev: Device)
    requires Inv(st, q, hist)
    ensures var s := Scan(st, q, 0, dev);
            Inv(s.st, s.q, hist) && s.st.conn == st.conn && s.st.kind == st.kind
    decreases |q|
  {
    hide Advance, Inv;
    if q != [] {
      var o := Advance(st, q[0], dev);
      StepInv(st, q, hist, dev);
      AdvanceMeasure(st, q[0], dev);
      assert Without(q, 0) == q[1..];
      if o.res == 0 {
        ScanKeeps(o.st, q[1..], hist, dev);
      }
    }
  }

  lemma StepInv(st: IfState, q: seq<Item>, hist: seq<Packet>, dev: Device)
    requires Inv(st, q, hist) && q != []
    ensures var o := Advance(st, q[0], dev);
            o.res >= 0 && o.st.conn == st.conn && Inv(o.st, if o.res == 0 then q[1..] else q, hist)
  {
    hide Advance, Lined, Clean, Exact;
    StepLined(st, q, hist, dev);
    AdvanceMeasure(st, q[0], dev);
    InvLined(st, q, hist);
    if Clean(st.kind, Advance(st, q[0], dev).st.log) {
      StepExact(st, q, hist, dev);
    } else {
      StepSpoilt(st, q, hist, dev);
    }
  }

  lemma InvLined(st: IfState, q: seq<Item>, hist: seq<Packet>)
    requires Inv(st, q, hist)
    ensures |q| <= |hist|
  {
  }

  lemma ArrivalKeeps(st: IfState, q: seq<Item>, hist: seq<Packet>, pkt: Packet)
    requires Inv(st, q, hist)
    ensures Inv(st, q + [Item(|hist|, pkt)], hist + [pkt])
  {
    hide Served, Partial;
    if Clean(st.kind, st.log) && q == [] {
      NoEntries(st.log, |hist|);
      NewHead(st.kind, pkt, st.rdbuf);
    }
    hide Clean;
    assert forall id :: 0 <= id < |hist| ==> (hist + [pkt])[id] == hist[id];
  }

  ghost predicate Sound(p: Port, hist: seq<Packet>) {
    Inv(p.st, p.q, hist) && p.arrived == |hist|
  }

  lemma RescanKeeps(p: Port, hist: seq<Packet>, dev: Device)
    requires Sound(p, hist)
    ensures var r := Rescan(p, dev);
            Sound(r, hist) && r.st.conn == p.st.conn && r.st.kind == p.st.kind
  {
    hide Scan;
    ScanKeeps(p.st, p.q, hist, dev);
    hide Inv;
  }

  lemma NextSound(p: Port, hist: seq<Packet>, input: Input, dev: Device)
    requires Sound(p, hist)
    ensures var r := Next(p, input, dev);
            Sound(r, After(hist, input)) && r.st.conn == p.st.conn && r.st.kind == p.st.kind
  {
    hide Rescan, Exact, Clean;
    match input
    case Deliver(pkt, attaching) =>
      ArrivalKeeps(p.st, p.q, hist, pkt);
      var arrived := p.(q := p.q + [Item(p.arrived, pkt)], arrived := p.arrived + 1, defer := attaching);
      RescanKeeps(arrived, hist + [pkt], dev);
    case Unstall =>
      FlagsKeep(p, hist, false, p.st.ebusy);
      RescanKeeps(p.(st := p.st.(busy := false)), hist, dev);
    case UsbUnpause(ep, tkn) =>
      var ebusy := p.st.ebusy - {ep * 4 + tkn};
      FlagsKeep(p, hist, p.st.busy, ebusy);
      RescanKeeps(p.(st := p.st.(ebusy := ebusy)), hist, dev);
    case CatchUp =>
      RescanKeeps(p.(defer := false), hist, dev);
  }

  lemma FlagsKeep(p: Port, hist: seq<Packet>, busy: bool, ebusy: set<nat>)
    requires Sound(p, hist)
    ensures Sound(p.(st := p.st.(busy := busy, ebusy := ebusy)), hist)
  {
    hide Served, Partial;
  }

  lemma {:induction false} RunSound(kind: Kind, conn: u16, inputs: seq<Input>, dev: Device)
    requires Streams(kind)
    ensures var p := Run(kind, conn, inputs, dev);
            Sound(p, Arrivals(inputs)) && p.st.kind == kind && p.st.conn == conn
  {
    if inputs != [] {
      hide Next, Lined, Exact, Clean, After;
      var before, last := inputs[..|inputs| - 1], inputs[|inputs| - 1];
      RunSound(kind, conn, before, dev);
      NextSound(Run(kind, conn, before, dev), Arrivals(before), last, dev);
    }
  }

  /** With n packets dealt with, in arrival order: each of them is served exactly; the device has
      moved exactly the first offs bytes of packet n; nothing about later packets has happened; and
      the log is in the order of the packets, so answers come in the order of the requests. */
  ghost predicate Delivered(p: Port, hist: seq<Packet>) {
    |p.q| <= |hist| &&
    var n := |hist| - |p.q|;
    (forall k :: 0 <= k < |p.q| ==> p.q[k].pkt == hist[n + k]) &&
    (forall id :: 0 <= id < n ==> Served(p.st.kind, hist[id], TraceOf(p.st.log, id), p.st.conn)) &&
    (n < |hist| ==> Partial(p.st.kind, hist[n], p.st.offs, p.st.rdbuf, TraceOf(p.st.log, n))) &&
    (forall id :: n < id ==> TraceOf(p.st.log, id) == Nothing) &&
    (forall a, b :: 0 <= a < b < |p.st.log| ==> p.st.log[a].id <= p.st.log[b].id)
  }

  lemma LaterUntouched(p: Port, hist: seq<Packet>)
    requires Lined(p.st, p.q, hist)
    ensures forall id :: |hist| - |p.q| < id ==> TraceOf(p.st.log, id) == Nothing
  {
    hide TraceOf;
    forall id | |hist| - |p.q| < id
      ensures TraceOf(p.st.log, id) == Nothing
    {
      NoEntries(p.st.log, id);
    }
  }

  lemma CleanDelivers(p: Port, hist: seq<Packet>)
    requires Sound(p, hist) && Clean(p.st.kind, p.st.log)
    ensures Delivered(p, hist)
  {
    hide Served, Partial, TraceOf, Clean;
    LaterUntouched(p, hist);
  }

  /** Transfers are exact in every clean run. */
  lemma TransfersExact(kind: Kind, conn: u16, inputs: seq<Input>, dev: Device)
    requires Streams(kind)
    requires Clean(kind, Run(kind, conn, inputs, dev).st.log)
    ensures var p := Run(kind, conn, inputs, dev);
            p.st.kind == kind && p.st.conn == conn && Delivered(p, Arrivals(inputs))
  {
    hide Run, Arrivals, Clean, Delivered, Sound;
    RunSound(kind, conn, inputs, dev);
    CleanDelivers(Run(kind, conn, inputs, dev), Arrivals(inputs));
  }

  /** The condition is exact: every packet dealt with is served, and no transfer is past the read buffer,
      if and only if the run is clean, that is, if no I2C write was refused half-way, no UART or Ethernet
      `tx` returned 0 with bytes to take, and no SPI transfer ran past the read buffer. */
  lemma ServedIffClean(kind: Kind, conn: u16, inputs: seq<Input>, dev: Device)
    requires Streams(kind)
    ensures var p, hist := Run(kind, conn, inputs, dev), Arrivals(inputs);
            |p.q| <= |hist| &&
            (Clean(kind, p.st.log) <==>
             !Overrun(p.st, p.q) &&
             forall id :: 0 <= id < |hist| - |p.q| ==> Served(kind, hist[id], TraceOf(p.st.log, id), conn))
  {
    hide Run, Arrivals, Clean, TraceOf, Served;
    RunSound(kind, conn, inputs, dev);
  }

  lemma RunSnoc(kind: Kind, conn: u16, inputs: seq<Input>, input: Input, dev: Device)
    ensures Run(kind, conn, inputs + [input], dev) == Next(Run(kind, conn, inputs, dev), input, dev)
    ensures Arrivals(inputs + [input]) == After(Arrivals(inputs), input)
  {
    assert (inputs + [input])[..|inputs|] == inputs;
  }

  /** A scan over one packet. */
  lemma ScanOne(st: IfState, it: Item, dev: Device)
    requires Advance(st, it, dev).res >= 0
    ensures var o := Advance(st, it, dev); Scan(st, [it], 0, dev) == Scanned(o.st, if o.res == 0 then [] else [it])
  {
    hide Advance;
    assert Without([it], 0) == [];
  }

  /** The first input of a run. */
  lemma FirstArrival(kind: Kind, conn: u16, b: Packet, dev: Device)
    requires Advance(Start(kind, conn).st, Item(0, b), dev).res >= 0
    ensures var o := Advance(Start(kind, conn).st, Item(0, b), dev);
            Run(kind, conn, [] + [Deliver(b, false)], dev) ==
            Port(o.st, if o.res == 0 then [] else [Item(0, b)], false, 1)
    ensures Arrivals([] + [Deliver(b, false)]) == [b]
  {
    hide Advance, Scan;
    RunSnoc(kind, conn, [], Deliver(b, false), dev);
    ScanOne(Start(kind, conn).st, Item(0, b), dev);
    assert [] + [Item(0, b)] == [Item(0, b)] && [] + [b] == [b];
  }

  /** A UART packet lost: `tx` returns 0 for it. */
  lemma StallLoses(conn: u16, dev: Device)
    requires dev(0).res == 0
    ensures var b := Packet(conn, PKT_UART_TX, 0, 0, [65]);
            var inputs := [] + [Deliver(b, false)];
            var p := Run(Uart, conn, inputs, dev);
            p.q == [] && Arrivals(inputs) == [b] && !Served(Uart, b, TraceOf(p.st.log, 0), conn)
  {
    hide Run, Arrivals, Sending;
    var b := Packet(conn, PKT_UART_TX, 0, 0, [65]);
    var st := Start(Uart, conn).st;
    var o := Advance(st, Item(0, b), dev);
    assert o.res == 0 && o.st.kind == Uart && o.st.log == [Stalled(0)];
    FirstArrival(Uart, conn, b, dev);
    assert TraceOf([Stalled(0)], 0) == Nothing by {
      TraceAppend([], Stalled(0), 0);
      assert [] + [Stalled(0)] == [Stalled(0)];
    }
  }

  /** An I2C write half-done: the device takes one of two bytes and refuses the other. */
  lemma RefusalSpoils(conn: u16, dev: Device)
    requires dev(0).res == 1 && dev(1).res < 0
    ensures var b := Packet(conn, PKT_I2C_WRITE, 0, 0, [1, 2]);
            var inputs := [] + [Deliver(b, false)] + [Unstall];
            var p := Run(I2c, conn, inputs, dev);
            p.q == [] && p.st.offs == 1 && Arrivals(inputs) == [b] && !Served(I2c, b, TraceOf(p.st.log, 0), conn)
  {
    hide Run, Arrivals, Scan, TraceOf;
    var b := Packet(conn, PKT_I2C_WRITE, 0, 0, [1, 2]);
    var st := Start(I2c, conn).st;
    assert Left(b.data, 0)[..1] == [1];
    var st1 := st.(calls := 1, offs := 1, log := [Gave(0, [1])]);
    assert Advance(st, Item(0, b), dev) == Outcome(st1, 1);
    FirstArrival(I2c, conn, b, dev);
    var st2 := st1.(calls := 2, log := [Gave(0, [1])] + [Nak(0, 1)]);
    assert Advance(st1, Item(0, b), dev) == Outcome(st2, 0);
    ScanOne(st1, Item(0, b), dev);
    RunSnoc(I2c, conn, [] + [Deliver(b, false)], Unstall, dev);
    NoEntries([], 0);
    assert [] + [Gave(0, [1])] == [Gave(0, [1])];
    TraceAppend([], Gave(0, [1]), 0);
    TraceAppend([Gave(0, [1])], Nak(0, 1), 0);
  }

  /** What matters of an SPI interface in the run below. */
  predicate SpiAt(st: IfState, offs: nat, calls: nat) {
    st.kind == Spi && !st.busy && |st.rdbuf| == RDBUF && st.offs == offs && st.calls == calls
  }

  lemma SpiPiece(st: IfState, it: Item, offs: nat, calls: nat, dev: Device)
    requires SpiAt(st, offs, calls) && it.pkt.kind == PKT_SPI_TX && dev(calls).res == 256 && offs + 256 < |it.pkt.data|
    ensures var o := AdvanceSpi(st, it, dev); o.res == 1 && SpiAt(o.st, offs + 256, calls + 1)
  {
    hide Store, Bytes, Prefix, Sending;
  }

  lemma SpiEnd(st: IfState, it: Item, dev: Device)
    requires SpiAt(st, 512, 2) && it.pkt.kind == PKT_SPI_TX && |it.pkt.data| == 600 && dev(2).res == 88
    ensures AdvanceSpi(st, it, dev).res == 0 && Overruns(st, it, dev)
  {
    hide Store, Bytes, Prefix, Sending;
  }

  /** An SPI payload of 600 bytes, moved in pieces of 256, 256 and 88: the last one runs past the read
      buffer, and the packet leaves the queue unserved. */
  lemma LargeSpiSpoils(conn: u16, dev: Device)
    requires dev(0).res == 256 && dev(1).res == 256 && dev(2).res == 88
    ensures var b := Packet(conn, PKT_SPI_TX, 0, 0, Zeros(600));
            var inputs := [] + [Deliver(b, false)] + [Unstall] + [Unstall];
            var p := Run(Spi, conn, inputs, dev);
            p.q == [] && Arrivals(inputs) == [b] && !Served(Spi, b, TraceOf(p.st.log, 0), p.st.conn)
  {
    hide Run, Arrivals, Scan, TraceOf, Served, AdvanceSpi;
    var b := Packet(conn, PKT_SPI_TX, 0, 0, Zeros(600));
    var it := Item(0, b);
    var s0 := Start(Spi, conn).st;
    SpiPiece(s0, it, 0, 0, dev);
    FirstArrival(Spi, conn, b, dev);
    var s1 := AdvanceSpi(s0, it, dev).st;
    SpiPiece(s1, it, 256, 1, dev);
    ScanOne(s1, it, dev);
    RunSnoc(Spi, conn, [] + [Deliver(b, false)], Unstall, dev);
    assert s1.(busy := false) == s1;
    var s2 := AdvanceSpi(s1, it, dev).st;
    SpiEnd(s2, it, dev);
    ScanOne(s2, it, dev);
    RunSnoc(Spi, conn, [] + [Deliver(b, false)] + [Unstall], Unstall, dev);
    assert s2.(busy := false) == s2;
    EndUnserved(s2, it, dev);
    AdvanceMeasure(s2, it, dev);
  }
}
