/**
 Stalls over whole runs: when a stall stands and what it holds back, and that a ready call lifts it and
 offers the packet at the head again.  USB pauses are the matter of UsbRuns.
 */
module StallRuns {
  import opened Wire
  import opened Protocol
  import opened PortRuns
  import T = TransferRuns

  /** The device has moved nothing for now, be it for want of anything to move. */
  predicate Blocks(e: Entry) {
    e.Stalled? || (e.Gave? && e.bytes == [])
  }

  /** One of the entries from n on says that the device moved nothing. */
  ghost predicate Stalls(log: seq<Entry>, n: nat) {
    exists a :: n <= a < |log| && Blocks(log[a])
  }

  /** From st to st' the stall follows the new entries. */
  ghost predicate Marks(st: IfState, st': IfState) {
    st'.kind == st.kind && st.log <= st'.log && st.calls <= st'.calls &&
    (st'.busy <==> st.busy || Stalls(st'.log, |st.log|))
  }

  lemma MarksTrans(a: IfState, b: IfState, c: IfState)
    requires Marks(a, b) && Marks(b, c)
    ensures Marks(a, c)
  {
    hide Blocks;
    assert forall k :: 0 <= k < |b.log| ==> c.log[k] == b.log[k];
  }

  /** The handlers note a stall, if there is one, in their first entry. */
  ghost predicate FirstMarks(st: IfState, st': IfState) {
    st'.kind == st.kind && st.log <= st'.log && st.calls <= st'.calls &&
    (if |st'.log| == |st.log| then st'.busy == st.busy else st'.busy == (st.busy || Blocks(st'.log[|st.log|]))) &&
    forall a :: |st.log| < a < |st'.log| ==> !Blocks(st'.log[a])
  }

  lemma FirstMarked(st: IfState, st': IfState)
    requires FirstMarks(st, st')
    ensures Marks(st, st')
  {
    hide Blocks;
  }

  lemma StepMarksI2c(st: IfState, it: Item, dev: Device)
    requires st.kind == I2c
    ensures Marks(st, AdvanceI2c(st, it, dev).st)
  {
    hide AdvanceI2c, Marks, FirstMarks;
    if it.pkt.kind == PKT_I2C_WRITE {
      MarksWrite(st, it, dev);
    } else {
      MarksOther(st, it, dev);
    }
    FirstMarked(st, AdvanceI2c(st, it, dev).st);
  }

  lemma MarksWrite(st: IfState, it: Item, dev: Device)
    requires st.kind == I2c && it.pkt.kind == PKT_I2C_WRITE
    ensures FirstMarks(st, AdvanceI2c(st, it, dev).st)
  {
    hide Sending, Done, Left;
  }

  lemma MarksOther(st: IfState, it: Item, dev: Device)
    requires st.kind == I2c && it.pkt.kind != PKT_I2C_WRITE
    ensures FirstMarks(st, AdvanceI2c(st, it, dev).st)
  {
    hide Sending, Store, Bytes, Prefix, Done, Left;
  }

  lemma StepMarksSpi(st: IfState, it: Item, dev: Device)
    requires st.kind == Spi
    ensures Marks(st, AdvanceSpi(st, it, dev).st)
  {
    hide Sending, Store, Bytes, Prefix, Left;
    var o := AdvanceSpi(st, it, dev);
    assert |o.st.log| > |st.log| && !st.busy ==> Blocks(o.st.log[|st.log|]) == o.st.busy;
  }

  lemma StepMarksCan(st: IfState, it: Item, dev: Device)
    requires st.kind == Can
    ensures Marks(st, AdvanceCan(st, it, dev).st)
  {
    hide Sending, CanAccepts, TxAck;
    var o := AdvanceCan(st, it, dev);
    assert |o.st.log| > |st.log| && !st.busy ==> Blocks(o.st.log[|st.log|]) == o.st.busy;
  }

  lemma StepMarks(st: IfState, it: Item, dev: Device)
    requires st.kind != Usbh
    ensures Marks(st, Advance(st, it, dev).st)
  {
    hide AdvanceI2c, AdvanceSpi, AdvanceUsbh, AdvanceCan, Sending, Left;
    if st.kind == I2c {
      StepMarksI2c(st, it, dev);
    } else if st.kind == Spi {
      StepMarksSpi(st, it, dev);
    } else if st.kind == Can {
      StepMarksCan(st, it, dev);
    } else {
      var o := Advance(st, it, dev);
      assert |o.st.log| > |st.log| && !st.busy ==> Blocks(o.st.log[|st.log|]) == o.st.busy;
    }
  }

  lemma {:induction false} ScanMarks(st: IfState, q: seq<Item>, i: nat, dev: Device)
    requires st.kind != Usbh && i <= |q|
    ensures Marks(st, Scan(st, q, i, dev).st)
    decreases |q|, |q| - i
  {
    if i < |q| {
      hide Advance, Without, Marks;
      MarksKind(st, Advance(st, q[i], dev).st);
      AdvanceMeasure(st, q[i], dev);
      StepMarks(st, q[i], dev);
      var o := Advance(st, q[i], dev);
      if o.res <= 0 {
        var q', i' := if o.res == 0 then Without(q, i) else q, if o.res == 0 then 0 else i + 1;
        WithoutShorter(q, i);
        ScanMarks(o.st, q', i', dev);
        MarksTrans(st, o.st, Scan(o.st, q', i', dev).st);
      }
    }
  }

  lemma MarksKind(st: IfState, st': IfState)
    ensures Marks(st, st) && (Marks(st, st') ==> st'.kind == st.kind)
  {
  }

  lemma WithoutShorter(q: seq<Item>, i: nat)
    requires i < |q|
    ensures |Without(q, i)| == |q| - 1
  {
  }

  lemma RescanMarks(p: Port, dev: Device)
    requires p.st.kind != Usbh
    ensures Marks(p.st, Rescan(p, dev).st)
  {
    hide Scan;
    ScanMarks(p.st, p.q, 0, dev);
  }

  /** A stall stands, by the history: one was noted, and there was no ready call since. */
  ghost predicate Standing(kind: Kind, conn: u16, inputs: seq<Input>, dev: Device) {
    inputs != [] &&
    var init, last := inputs[..|inputs| - 1], inputs[|inputs| - 1];
    (Standing(kind, conn, init, dev) && !last.Unstall?) ||
    Stalls(Run(kind, conn, inputs, dev).st.log, |Run(kind, conn, init, dev).st.log|)
  }

  lemma NextMarks(p: Port, input: Input, dev: Device)
    requires p.st.kind != Usbh
    ensures var st := Next(p, input, dev).st;
            st.kind == p.st.kind && p.st.log <= st.log &&
            (st.busy <==> (p.st.busy && !input.Unstall?) || Stalls(st.log, |p.st.log|))
  {
    hide Rescan, Blocks;
    match input
    case Deliver(pkt, attaching) =>
      RescanMarks(p.(q := p.q + [Item(p.arrived, pkt)], arrived := p.arrived + 1, defer := attaching), dev);
    case Unstall =>
      RescanMarks(p.(st := p.st.(busy := false)), dev);
    case UsbUnpause(ep, tkn) =>
      RescanMarks(p.(st := p.st.(ebusy := p.st.ebusy - {ep * 4 + tkn})), dev);
    case CatchUp =>
      RescanMarks(p.(defer := false), dev);
  }

  /** The stall is exact, over every run: `busy` is set if and only if the device has moved nothing in some
      callback and there was no ready call since. */
  lemma {:induction false} BusyIff(kind: Kind, conn: u16, inputs: seq<Input>, dev: Device)
    requires kind != Usbh
    ensures var p := Run(kind, conn, inputs, dev);
            p.st.kind == kind && (p.st.busy <==> Standing(kind, conn, inputs, dev))
  {
    if inputs != [] {
      hide Next, Stalls;
      BusyIff(kind, conn, inputs[..|inputs| - 1], dev);
      NextMarks(Run(kind, conn, inputs[..|inputs| - 1], dev), inputs[|inputs| - 1], dev);
    }
  }

  /** The packets that need the device to be ready. */
  predicate Data(kind: Kind, p: Packet) {
    match kind
    case I2c => p.kind == PKT_I2C_START || p.kind == PKT_I2C_WRITE || p.kind == PKT_I2C_READ || p.kind == PKT_I2C_STOP
    case Spi => p.kind == PKT_SPI_TX
    case Uart => p.kind == PKT_UART_TX
    case Eth => p.kind == PKT_ETH_TX
    case Can => p.kind == PKT_CAN_TX
    case _ => false
  }

  /** Nothing happens to data packets: they stay queued, and each callback made belongs to an entry of
      another packet. */
  ghost predicate Aside(st: IfState, q: seq<Item>, st': IfState, q': seq<Item>) {
    st.log <= st'.log && 0 <= st'.calls - st.calls <= |st'.log| - |st.log| &&
    (forall a :: |st.log| <= a < |st'.log| ==> AboutOther(st.kind, q, st'.log[a].id)) &&
    (forall it <- q :: Data(st.kind, it.pkt) ==> it in q')
  }

  ghost predicate AboutOther(kind: Kind, q: seq<Item>, id: nat) {
    exists it <- q :: it.id == id && !Data(kind, it.pkt)
  }

  lemma AsideTrans(a: IfState, q: seq<Item>, b: IfState, r: seq<Item>, c: IfState, s: seq<Item>)
    requires Aside(a, q, b, r) && Aside(b, r, c, s) && a.kind == b.kind && forall it <- r :: it in q
    ensures Aside(a, q, c, s)
  {
    hide Data;
    forall k | |a.log| <= k < |c.log|
      ensures AboutOther(a.kind, q, c.log[k].id)
    {
      if k < |b.log| {
        assert c.log[k] == b.log[k];
      } else {
        assert AboutOther(b.kind, r, c.log[k].id);
      }
    }
  }

  /** What the handler does about a packet while a stall stands. */
  lemma StalledStep(st: IfState, it: Item, dev: Device)
    requires st.kind != Usbh && st.busy
    ensures var o := Advance(st, it, dev);
            o.st.busy && o.st.kind == st.kind && st.log <= o.st.log &&
            (Data(st.kind, it.pkt) ==> o == Outcome(st, if st.kind == Can then -1 else 1)) &&
            0 <= o.st.calls - st.calls <= |o.st.log| - |st.log| <= 1 &&
            (|o.st.log| > |st.log| ==> o.st.log[|st.log|].id == it.id)
  {
    hide AdvanceUsbh, Sending, Left, Store, Bytes, Prefix, CanAccepts, TxAck;
  }

  lemma {:induction false} StalledScan(st: IfState, q: seq<Item>, i: nat, dev: Device)
    requires st.kind != Usbh && st.busy && i <= |q|
    ensures var s := Scan(st, q, i, dev);
            s.st.busy && Aside(st, q, s.st, s.q)
    decreases |q|, |q| - i
  {
    if i < |q| {
      hide Advance, Without, Data;
      StalledStep(st, q[i], dev);
      AdvanceMeasure(st, q[i], dev);
      WithoutKeeps(q, i);
      var o := Advance(st, q[i], dev);
      var q', i' := if o.res == 0 then Without(q, i) else q, if o.res == 0 then 0 else i + 1;
      assert Aside(st, q, o.st, q') by {
        assert q[i] in q && (!Data(st.kind, q[i].pkt) ==> AboutOther(st.kind, q, q[i].id));
      }
      if o.res <= 0 {
        StalledScan(o.st, q', i', dev);
        var s := Scan(o.st, q', i', dev);
        hide Aside;
        AsideTrans(st, q, o.st, q', s.st, s.q);
      }
    }
  }

  lemma WithoutKeeps(q: seq<Item>, i: nat)
    requires i < |q|
    ensures |Without(q, i)| == |q| - 1
    ensures (forall it <- Without(q, i) :: it in q) && (forall it <- q :: it == q[i] || it in Without(q, i))
  {
  }

  /** While a stall stands, whatever else happens: the stall goes on, and data packets wait, the one that
      may just have arrived among them.  None is offered to the device. */
  lemma StallHolds(kind: Kind, conn: u16, inputs: seq<Input>, input: Input, dev: Device)
    requires kind != Usbh && !input.Unstall? && Standing(kind, conn, inputs, dev)
    ensures var p, p' := Run(kind, conn, inputs, dev), Run(kind, conn, inputs + [input], dev);
            var q := if input.Deliver? then p.q + [Item(p.arrived, input.pkt)] else p.q;
            p'.st.busy && Aside(p.st, q, p'.st, p'.q)
  {
    hide Run, Scan, Standing, Data;
    BusyIff(kind, conn, inputs, dev);
    T.RunSnoc(kind, conn, inputs, input, dev);
    var p := Run(kind, conn, inputs, dev);
    var q := if input.Deliver? then p.q + [Item(p.arrived, input.pkt)] else p.q;
    StalledScan(p.st, q, 0, dev);
    if input.UsbUnpause? {
      StalledScan(p.st.(ebusy := p.st.ebusy - {input.ep * 4 + input.tkn}), q, 0, dev);
    }
  }

  /** The packets about which the device is asked. */
  predicate Asks(kind: Kind, p: Packet) {
    Data(kind, p) && (kind == Can ==> CanAccepts(p))
  }

  lemma HeadAskedI2c(st: IfState, it: Item, dev: Device)
    requires !st.busy && Asks(I2c, it.pkt)
    ensures var o := AdvanceI2c(st, it, dev);
            o.st.calls == st.calls + 1 && st.log < o.st.log && o.st.log[|st.log|].id == it.id
  {
    hide Sending, Left, Store, Bytes, Prefix, Done, Amount;
  }

  lemma HeadAsked(st: IfState, it: Item, dev: Device)
    requires !st.busy && Asks(st.kind, it.pkt)
    ensures var o := Advance(st, it, dev);
            o.st.calls == st.calls + 1 && st.log < o.st.log && o.st.log[|st.log|].id == it.id
  {
    hide AdvanceI2c, AdvanceUsbh, Sending, Left, Store, Bytes, Prefix, CanAccepts, TxAck, Amount;
    if st.kind == I2c {
      HeadAskedI2c(st, it, dev);
    }
  }

  /** A ready call lifts the stall and resumes: the device is asked again, about the packet at the head. */
  lemma Resumes(p: Port, dev: Device)
    requires !p.defer && p.q != [] && Asks(p.st.kind, p.q[0].pkt)
    ensures var p' := Ready(p, dev);
            p'.st.calls > p.st.calls && p.st.log < p'.st.log && p'.st.log[|p.st.log|].id == p.q[0].id
  {
    hide Advance, Asks, Stalls;
    var st := p.st.(busy := false);
    AsksKind(st.kind, p.q[0].pkt);
    HeadAsked(st, p.q[0], dev);
    AdvanceMeasure(st, p.q[0], dev);
    var o := Advance(st, p.q[0], dev);
    if o.res == 0 {
      ScanMarks(o.st, Without(p.q, 0), 0, dev);
    } else if o.res < 0 {
      ScanMarks(o.st, p.q, 1, dev);
    }
  }

  lemma AsksKind(kind: Kind, p: Packet)
    requires Asks(kind, p)
    ensures kind != Usbh
  {
  }

  predicate Moved(e: Entry) {
    ((e.Gave? || e.Made?) && e.bytes != []) || e.Overran?
  }

  /** Where a scan comes to rest: with nothing queued, or stalled, or having moved part of the packet at
      the head. */
  predicate Rests(st: IfState, q: seq<Item>) {
    q == [] || st.busy ||
    (T.Streams(st.kind) && st.log != [] && Moved(st.log[|st.log| - 1]) && st.log[|st.log| - 1].id == q[0].id)
  }

  lemma StepRests(st: IfState, it: Item, dev: Device)
    requires st.kind != Usbh
    ensures var o := Advance(st, it, dev);
            (o.res < 0 ==> o.res == -1 && o.st.busy) && (o.res > 0 ==> Rests(o.st, [it])) && (st.busy ==> o.st.busy)
  {
    hide Sending, Store, Prefix, CanAccepts, TxAck, Done, Left, AdvanceUsbh;
  }

  lemma {:induction false} ScanRests(st: IfState, q: seq<Item>, i: nat, dev: Device)
    requires st.kind != Usbh && i <= |q| && (i == 0 || st.busy)
    ensures var s := Scan(st, q, i, dev); Rests(s.st, s.q)
    decreases |q|, |q| - i
  {
    if i < |q| {
      hide Advance, Without, Moved;
      StepRests(st, q[i], dev);
      AdvanceMeasure(st, q[i], dev);
      WithoutShorter(q, i);
      var o := Advance(st, q[i], dev);
      if o.res == 0 {
        ScanRests(o.st, Without(q, i), 0, dev);
      } else if o.res < 0 {
        ScanRests(o.st, q, i + 1, dev);
      }
    }
  }

  /** Nothing waits for no reason, over every run: once attached, an interface with packets queued is
      stalled, or has just moved part of the packet at the head. */
  lemma {:induction false} NothingWaits(kind: Kind, conn: u16, inputs: seq<Input>, dev: Device)
    requires kind != Usbh
    ensures var p := Run(kind, conn, inputs, dev);
            p.st.kind == kind && (p.defer || Rests(p.st, p.q))
  {
    if inputs != [] {
      hide Next, Rests;
      NothingWaits(kind, conn, inputs[..|inputs| - 1], dev);
      NextRests(Run(kind, conn, inputs[..|inputs| - 1], dev), inputs[|inputs| - 1], dev);
      NextMarks(Run(kind, conn, inputs[..|inputs| - 1], dev), inputs[|inputs| - 1], dev);
    }
  }

  lemma NextRests(p: Port, input: Input, dev: Device)
    requires p.st.kind != Usbh && (p.defer || Rests(p.st, p.q))
    ensures var p' := Next(p, input, dev); p'.defer || Rests(p'.st, p'.q)
  {
    hide Scan, Rests;
    match input
    case Deliver(pkt, attaching) =>
      ScanRests(p.st, p.q + [Item(p.arrived, pkt)], 0, dev);
    case Unstall =>
      ScanRests(p.st.(busy := false), p.q, 0, dev);
    case UsbUnpause(ep, tkn) =>
      ScanRests(p.st.(ebusy := p.st.ebusy - {ep * 4 + tkn}), p.q, 0, dev);
    case CatchUp =>
      ScanRests(p.st, p.q, 0, dev);
  }

  /** How many callbacks a packet may take when each moves a byte. */
  function Size(kind: Kind, p: Packet): (n: nat)
    ensures n >= 1
  {
    var bytes: nat :=
      if kind == I2c && p.kind == PKT_I2C_READ then p.bflag
      else if Data(kind, p) && !(kind == I2c && p.kind != PKT_I2C_WRITE) then |p.data|
      else 1;
    if bytes == 0 then 1 else bytes
  }

  function Weight(kind: Kind, q: seq<Item>): (n: nat)
    ensures n >= |q|
  {
    if q == [] then 0 else Size(kind, q[0].pkt) + Weight(kind, q[1..])
  }

  /** An I2C or SPI transfer of no bytes. */
  predicate Hollow(kind: Kind, p: Packet) {
    (kind == I2c && p.kind == PKT_I2C_WRITE && p.data == []) ||
    (kind == I2c && p.kind == PKT_I2C_READ && p.bflag == 0) ||
    (kind == Spi && p.kind == PKT_SPI_TX && p.data == [])
  }

  predicate Within(kind: Kind, q: seq<Item>, offs: nat) {
    offs == 0 || (q != [] && offs < Size(kind, q[0].pkt))
  }

  /** From callback n on the device moves something whenever there is something to move. */
  ghost predicate Willing(dev: Device, n: nat) {
    forall k :: n <= k ==> dev(k).res >= 1
  }

  function ToGo(st: IfState, q: seq<Item>): int {
    Weight(st.kind, q) - st.offs
  }

  /** One call of the handler for the packet at the head. */
  ghost predicate Drains(st: IfState, it: Item, o: Outcome) {
    o.st.kind == st.kind && st.calls <= o.st.calls && 0 <= o.res <= 1 &&
    (o.res == 0 ==> o.st.offs == 0) &&
    (o.res == 1 ==> st.offs <= o.st.offs && Within(st.kind, [it], o.st.offs)) &&
    (if Hollow(st.kind, it.pkt) then o.res == 1
     else !st.busy ==> o.res == 0 || o.st.offs > st.offs)
  }

  lemma HeadDrainsI2c(st: IfState, it: Item, dev: Device)
    requires st.kind == I2c && Within(I2c, [it], st.offs) && dev(st.calls).res >= 1
    ensures Drains(st, it, AdvanceI2c(st, it, dev))
  {
    hide Sending, Store, Bytes, Prefix, Done;
  }

  lemma HeadDrains(st: IfState, it: Item, dev: Device)
    requires T.Streams(st.kind) && Within(st.kind, [it], st.offs) && dev(st.calls).res >= 1
    ensures Drains(st, it, Advance(st, it, dev))
  {
    hide AdvanceI2c, AdvanceSpi, AdvanceUart, AdvanceEth, Drains, Within;
    if st.kind == I2c {
      HeadDrainsI2c(st, it, dev);
    } else if st.kind == Spi {
      HeadDrainsSpi(st, it, dev);
    } else {
      HeadDrainsStream(st, it, dev);
    }
  }

  lemma HeadDrainsSpi(st: IfState, it: Item, dev: Device)
    requires st.kind == Spi && Within(Spi, [it], st.offs) && dev(st.calls).res >= 1
    ensures Drains(st, it, AdvanceSpi(st, it, dev))
  {
    hide Sending, Store, Bytes, Prefix;
  }

  lemma HeadDrainsStream(st: IfState, it: Item, dev: Device)
    requires (st.kind == Uart || st.kind == Eth) && Within(st.kind, [it], st.offs) && dev(st.calls).res >= 1
    ensures Drains(st, it, Advance(st, it, dev))
  {
    hide Sending, AdvanceI2c, AdvanceSpi, AdvanceUsbh, AdvanceCan;
  }

  /** What a scan leaves to do, whatever it finds. */
  ghost predicate Drained(st: IfState, q: seq<Item>, st': IfState, q': seq<Item>) {
    st'.kind == st.kind && st.calls <= st'.calls && Within(st.kind, q', st'.offs) &&
    (forall it <- q' :: it in q) && (forall it <- q :: Hollow(st.kind, it.pkt) ==> it in q') &&
    ToGo(st', q') <= ToGo(st, q) &&
    (!st.busy && q != [] && !Hollow(st.kind, q[0].pkt) ==> ToGo(st', q') < ToGo(st, q))
  }

  lemma DrainedCons(st: IfState, q: seq<Item>, st1: IfState, st': IfState, q': seq<Item>)
    requires q != [] && Within(st.kind, q, st.offs) && !Hollow(st.kind, q[0].pkt)
    requires st1.kind == st.kind && st.calls <= st1.calls && st1.offs == 0 && Drained(st1, q[1..], st', q')
    ensures Drained(st, q, st', q')
  {
    hide Hollow, Size;
    assert q == [q[0]] + q[1..];
  }

  lemma {:induction false} ScanDrains(st: IfState, q: seq<Item>, dev: Device)
    requires T.Streams(st.kind) && Within(st.kind, q, st.offs) && Willing(dev, st.calls)
    ensures var s := Scan(st, q, 0, dev); Drained(st, q, s.st, s.q)
    decreases |q|
  {
    if q != [] {
      hide Advance, Hollow, Size, Without, Weight, Scan;
      var o := Advance(st, q[0], dev);
      HeadDrains(st, q[0], dev);
      ScanHead(st, q, dev);
      if o.res == 0 {
        hide Drained;
        ScanDrains(o.st, q[1..], dev);
        var s := Scan(o.st, q[1..], 0, dev);
        DrainedCons(st, q, o.st, s.st, s.q);
      }
    } else {
      NothingDrained(st, dev);
    }
  }

  lemma NothingDrained(st: IfState, dev: Device)
    requires st.offs == 0
    ensures var s := Scan(st, [], 0, dev); Drained(st, [], s.st, s.q)
  {
  }

  lemma ScanHead(st: IfState, q: seq<Item>, dev: Device)
    requires q != []
    ensures var o := Advance(st, q[0], dev);
            (o.res > 0 ==> Scan(st, q, 0, dev) == Scanned(o.st, q)) &&
            (o.res == 0 ==> Scan(st, q, 0, dev) == Scan(o.st, q[1..], 0, dev))
  {
    hide Advance;
    assert Without(q, 0) == q[1..];
  }

  function Readies(p: Port, n: nat, dev: Device): Port
    decreases n
  {
    if n == 0 then p else Readies(Ready(p, dev), n - 1, dev)
  }

  lemma ReadyDrains(p: Port, dev: Device)
    requires T.Streams(p.st.kind) && Within(p.st.kind, p.q, p.st.offs) && Willing(dev, p.st.calls) && !p.defer
    ensures var r := Ready(p, dev);
            r.defer == p.defer && Drained(p.st.(busy := false), p.q, r.st, r.q)
  {
    hide Scan, Drained;
    ScanDrains(p.st.(busy := false), p.q, dev);
  }

  lemma ReadyHolds(p: Port, dev: Device, it: Item)
    requires T.Streams(p.st.kind) && Within(p.st.kind, p.q, p.st.offs) && Willing(dev, p.st.calls) && !p.defer
    requires it in p.q && Hollow(p.st.kind, it.pkt)
    ensures var r := Ready(p, dev);
            r.st.kind == p.st.kind && Within(r.st.kind, r.q, r.st.offs) && Willing(dev, r.st.calls) && !r.defer &&
            it in r.q
  {
    hide Ready, Hollow, Within, ToGo;
    ReadyDrains(p, dev);
  }

  lemma {:induction false} ReadiesHold(p: Port, n: nat, dev: Device, it: Item)
    requires T.Streams(p.st.kind) && Within(p.st.kind, p.q, p.st.offs) && Willing(dev, p.st.calls) && !p.defer
    requires it in p.q && Hollow(p.st.kind, it.pkt)
    ensures it in Readies(p, n, dev).q
    decreases n
  {
    hide Ready, Hollow, Within, Willing;
    if n > 0 {
      ReadyHolds(p, dev, it);
      ReadiesHold(Ready(p, dev), n - 1, dev, it);
    }
  }

  /** After as many ready calls as there are bytes and packets to go, the queue is empty if and only if it
      held no transfer of no bytes. */
  lemma {:induction false} ReadiesDrain(p: Port, n: nat, dev: Device)
    requires T.Streams(p.st.kind) && Within(p.st.kind, p.q, p.st.offs) && Willing(dev, p.st.calls) && !p.defer
    requires n >= ToGo(p.st, p.q)
    ensures Readies(p, n, dev).q == [] <==> forall it <- p.q :: !Hollow(p.st.kind, it.pkt)
    decreases n
  {
    hide Ready, Hollow, Size;
    if n > 0 {
      ReadyDrains(p, dev);
      if p.q != [] && Hollow(p.st.kind, p.q[0].pkt) {
        ReadiesHold(p, n, dev, p.q[0]);
      } else {
        ReadiesDrain(Ready(p, dev), n - 1, dev);
      }
    }
  }

  lemma {:induction false} ReadiesRun(kind: Kind, conn: u16, inputs: seq<Input>, n: nat, dev: Device)
    ensures Run(kind, conn, inputs + seq(n, _ => Unstall), dev) == Readies(Run(kind, conn, inputs, dev), n, dev)
    decreases n
  {
    hide Run, Rescan;
    if n == 0 {
      assert inputs + seq(n, _ => Unstall) == inputs;
    } else {
      T.RunSnoc(kind, conn, inputs, Unstall, dev);
      assert inputs + seq(n, _ => Unstall) == (inputs + [Unstall]) + seq(n - 1, _ => Unstall);
      ReadiesRun(kind, conn, inputs + [Unstall], n - 1, dev);
    }
  }

  lemma CleanWithin(kind: Kind, conn: u16, inputs: seq<Input>, dev: Device)
    requires T.Streams(kind) && T.Clean(kind, Run(kind, conn, inputs, dev).st.log)
    ensures var p := Run(kind, conn, inputs, dev);
            p.st.kind == kind && Within(kind, p.q, p.st.offs)
  {
    hide Run, Arrivals, T.Clean, T.Served, T.TraceOf;
    T.RunSound(kind, conn, inputs, dev);
  }

  /** Ready calls empty the queue: after any clean run, with a device that from then on moves at least one
      byte per callback, as many ready calls as there are bytes and packets to go leave nothing queued, if
      and only if no I2C or SPI transfer of no bytes is queued. */
  lemma QueueEmpties(kind: Kind, conn: u16, inputs: seq<Input>, n: nat, dev: Device)
    requires T.Streams(kind)
    requires var p := Run(kind, conn, inputs, dev);
             T.Clean(kind, p.st.log) && !p.defer && Willing(dev, p.st.calls) && n >= ToGo(p.st, p.q)
    ensures Run(kind, conn, inputs + seq(n, _ => Unstall), dev).q == [] <==>
            forall it <- Run(kind, conn, inputs, dev).q :: !Hollow(kind, it.pkt)
  {
    hide Run, T.Clean, Hollow, Weight, Within;
    CleanWithin(kind, conn, inputs, dev);
    ReadiesRun(kind, conn, inputs, n, dev);
    ReadiesDrain(Run(kind, conn, inputs, dev), n, dev);
  }

  /** An I2C read or an SPI transfer of no bytes. */
  predicate Void(kind: Kind, p: Packet) {
    Hollow(kind, p) && !(kind == I2c && p.kind == PKT_I2C_WRITE)
  }

  lemma VoidStays(st: IfState, q: seq<Item>, dev: Device)
    requires q != [] && Void(st.kind, q[0].pkt)
    ensures Scan(st, q, 0, dev).q == q
  {
    hide Sending, Store, Prefix, AdvanceUsbh, AdvanceCan;
    assert Advance(st, q[0], dev).res == 1;
  }

  /** Once it is at the head, such a transfer is never answered, whatever the device does and whatever else
      happens, and everything behind it waits for ever. */
  lemma {:induction false} NeverAnswered(kind: Kind, conn: u16, inputs: seq<Input>, more: seq<Input>, dev: Device)
    requires var q := Run(kind, conn, inputs, dev).q;
             q != [] && Void(kind, q[0].pkt)
    ensures Run(kind, conn, inputs, dev).q <= Run(kind, conn, inputs + more, dev).q
    decreases |more|
  {
    if more == [] {
      assert inputs + more == inputs;
    } else {
      hide Run, Scan, Hollow, Stalls, Standing;
      var init, last := more[..|more| - 1], more[|more| - 1];
      assert inputs + more == inputs + init + [last];
      NeverAnswered(kind, conn, inputs, init, dev);
      T.RunSnoc(kind, conn, inputs + init, last, dev);
      var p := Run(kind, conn, inputs + init, dev);
      BusyIff(kind, conn, inputs + init, dev);
      VoidNext(p, last, dev);
    }
  }

  lemma VoidNext(p: Port, input: Input, dev: Device)
    requires p.q != [] && Void(p.st.kind, p.q[0].pkt)
    ensures p.q <= Next(p, input, dev).q
  {
    hide Scan, Hollow;
    match input
    case Deliver(pkt, attaching) =>
      VoidStays(p.st, p.q + [Item(p.arrived, pkt)], dev);
    case Unstall =>
      VoidStays(p.st.(busy := false), p.q, dev);
    case UsbUnpause(ep, tkn) =>
      VoidStays(p.st.(ebusy := p.st.ebusy - {ep * 4 + tkn}), p.q, dev);
    case CatchUp =>
      VoidStays(p.st, p.q, dev);
  }

  /** Such a run: a read of no bytes arrives first. */
  lemma VoidExample(conn: u16, dev: Device)
    ensures var b := Packet(conn, PKT_I2C_READ, 0, 0, []);
            Run(I2c, conn, [] + [Deliver(b, false)], dev).q == [Item(0, b)] && Void(I2c, b)
  {
    hide Run, Scan, Sending, Store;
    T.FirstArrival(I2c, conn, Packet(conn, PKT_I2C_READ, 0, 0, []), dev);
  }

  /** A CAN device that does not stall again has the whole queue dealt with by one ready call. */
  lemma CanQueueEmpties(p: Port, dev: Device)
    requires p.st.kind == Can && !p.defer && forall k :: p.st.calls <= k ==> dev(k).res != CAN_STALL
    ensures Ready(p, dev).q == []
  {
    CanScanEmpties(p.st.(busy := false), p.q, dev);
  }

  lemma {:induction false} CanScanEmpties(st: IfState, q: seq<Item>, dev: Device)
    requires st.kind == Can && !st.busy && forall k :: st.calls <= k ==> dev(k).res != CAN_STALL
    ensures Scan(st, q, 0, dev).q == []
    decreases |q|
  {
    hide CanAccepts, TxAck, Sending;
    if q != [] {
      var o := AdvanceCan(st, q[0], dev);
      assert Without(q, 0) == q[1..];
      assert o.res == 0 && !o.st.busy && o.st.kind == Can && o.st.calls >= st.calls;
      CanScanEmpties(o.st, q[1..], dev);
    }
  }

  /** The payload packets of the VM. */
  predicate Payload(kind: Kind, p: Packet) {
    Data(kind, p) && (kind == I2c ==> p.kind == PKT_I2C_WRITE) && kind != Can
  }

  /** What the device is offered: all that is left, on SPI at most 256 bytes of it. */
  function Offered(kind: Kind, p: Packet, offs: nat): seq<byte>
    requires offs <= |p.data|
  {
    if kind == Spi && |p.data| - offs > 256 then p.data[offs..offs + 256] else p.data[offs..]
  }

  /** The device gets exactly as many of the bytes offered as it says it takes, and they are done with. */
  lemma HandsOver(st: IfState, it: Item, dev: Device)
    requires Payload(st.kind, it.pkt) && !st.busy && st.offs <= |it.pkt.data|
    requires 0 <= dev(st.calls).res <= |Offered(st.kind, it.pkt, st.offs)| && st.offs < |it.pkt.data|
    ensures var o, res := Advance(st, it, dev), dev(st.calls).res;
            |o.st.log| > |st.log| &&
            o.st.log[|st.log|] ==
              (if res == 0 then Stalled(it.id) else Gave(it.id, Offered(st.kind, it.pkt, st.offs)[..res])) &&
            (o.res == 1 ==> o.st.offs == st.offs + res)
  {
    hide AdvanceI2c, AdvanceSpi, AdvanceUart, AdvanceEth, Offered;
    if st.kind == I2c {
      HandsOverI2c(st, it, dev);
    } else if st.kind == Spi {
      HandsOverSpi(st, it, dev);
    } else {
      HandsOverStream(st, it, dev);
    }
  }

  lemma HandsOverI2c(st: IfState, it: Item, dev: Device)
    requires st.kind == I2c && it.pkt.kind == PKT_I2C_WRITE && !st.busy && st.offs < |it.pkt.data|
    requires 0 <= dev(st.calls).res <= |Offered(I2c, it.pkt, st.offs)|
    ensures var o, res := AdvanceI2c(st, it, dev), dev(st.calls).res;
            |o.st.log| > |st.log| && (o.res == 1 ==> o.st.offs == st.offs + res) &&
            o.st.log[|st.log|] ==
              if res == 0 then Stalled(it.id) else Gave(it.id, Offered(I2c, it.pkt, st.offs)[..res])
  {
    hide Sending, Done;
  }

  lemma HandsOverSpi(st: IfState, it: Item, dev: Device)
    requires st.kind == Spi && it.pkt.kind == PKT_SPI_TX && !st.busy && st.offs < |it.pkt.data|
    requires 0 <= dev(st.calls).res <= |Offered(Spi, it.pkt, st.offs)|
    ensures var o, res := AdvanceSpi(st, it, dev), dev(st.calls).res;
            |o.st.log| > |st.log| && (o.res == 1 ==> o.st.offs == st.offs + res) &&
            o.st.log[|st.log|] ==
              if res == 0 then Stalled(it.id) else Gave(it.id, Offered(Spi, it.pkt, st.offs)[..res])
  {
    hide Sending, Store, Bytes, Prefix;
    var rest, res := it.pkt.data[st.offs..], dev(st.calls).res;
    assert rest[..res] == Offered(Spi, it.pkt, st.offs)[..res];
    assert Left(it.pkt.data, st.offs) == rest;
    if res > 0 {
      assert AdvanceSpi(st, it, dev).st.log[|st.log|] == Gave(it.id, rest[..res]);
    }
  }

  lemma HandsOverStream(st: IfState, it: Item, dev: Device)
    requires (st.kind == Uart || st.kind == Eth) && it.pkt.kind == PKT_UART_TX && !st.busy
    requires st.offs < |it.pkt.data| && 0 <= dev(st.calls).res <= |Offered(st.kind, it.pkt, st.offs)|
    ensures var o, res := Advance(st, it, dev), dev(st.calls).res;
            |o.st.log| > |st.log| && (o.res == 1 ==> o.st.offs == st.offs + res) &&
            o.st.log[|st.log|] ==
              if res == 0 then Stalled(it.id) else Gave(it.id, Offered(st.kind, it.pkt, st.offs)[..res])
  {
    hide Sending, AdvanceI2c, AdvanceSpi, AdvanceUsbh, AdvanceCan;
  }

  /** Each byte that the device makes is the next one of what is read. */
  lemma TakesIn(st: IfState, it: Item, dev: Device)
    requires (st.kind == Spi && it.pkt.kind == PKT_SPI_TX && st.offs < |it.pkt.data|) ||
             (st.kind == I2c && it.pkt.kind == PKT_I2C_READ && st.offs < it.pkt.bflag)
    requires var a := dev(st.calls);
             !st.busy && 0 < a.res <= |a.bytes| &&
             a.res <= if st.kind == I2c then it.pkt.bflag - st.offs else |Offered(Spi, it.pkt, st.offs)|
    ensures var o, a := Advance(st, it, dev), dev(st.calls);
            Made(it.id, a.bytes[..a.res]) in o.st.log[|st.log|..] && (o.res == 1 ==> o.st.offs == st.offs + a.res)
  {
    hide AdvanceSpi, AdvanceI2c, AdvanceUsbh, AdvanceCan;
    if st.kind == Spi {
      TakesInSpi(st, it, dev);
    } else {
      TakesInI2c(st, it, dev);
    }
    var o, n := Advance(st, it, dev), |st.log|;
    assert o.st.log[n..][0] == o.st.log[n] && (st.kind == Spi ==> o.st.log[n..][1] == o.st.log[n + 1]);
  }

  lemma TakesInSpi(st: IfState, it: Item, dev: Device)
    requires it.pkt.kind == PKT_SPI_TX && st.offs < |it.pkt.data|
    requires !st.busy && 0 < dev(st.calls).res <= |dev(st.calls).bytes|
    requires dev(st.calls).res <= |Offered(Spi, it.pkt, st.offs)|
    ensures var o, a := AdvanceSpi(st, it, dev), dev(st.calls);
            |o.st.log| >= |st.log| + 2 && o.st.log[|st.log| + 1] == Made(it.id, a.bytes[..a.res]) &&
            (o.res == 1 ==> o.st.offs == st.offs + a.res)
  {
    hide Sending, Store, Prefix;
  }

  lemma TakesInI2c(st: IfState, it: Item, dev: Device)
    requires it.pkt.kind == PKT_I2C_READ && st.offs < it.pkt.bflag
    requires !st.busy && 0 < dev(st.calls).res <= |dev(st.calls).bytes|
    requires dev(st.calls).res <= it.pkt.bflag - st.offs
    ensures var o, a := AdvanceI2c(st, it, dev), dev(st.calls);
            |o.st.log| >= |st.log| + 1 && o.st.log[|st.log|] == Made(it.id, a.bytes[..a.res]) &&
            (o.res == 1 ==> o.st.offs == st.offs + a.res)
  {
    hide Sending, Store, Prefix, Done, Left;
  }
}
