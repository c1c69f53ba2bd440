/**
 USB transfer scheduling over whole runs: any arrivals, any callback results, any usbh_ready calls
 and any resets, including packets that arrive while the interface is still being attached.
 */
module UsbRuns {
  import opened Wire
  import opened Protocol
  import opened PortRuns
  import opened Books

  predicate IsReset(p: Packet) {
    p.kind == PKT_USBH_RESET
  }

  predicate IsTransfer(p: Packet) {
    p.kind == PKT_USBH_XFR
  }

  /** Transfers carry one of the three tokens OUT, IN and SETUP. */
  ghost predicate TokensOk(hist: seq<Packet>) {
    forall p <- hist :: IsTransfer(p) ==> Token(p) <= USB_TKN_SETUP
  }

  /** The reply to a transfer echoes its index, token, endpoint and address. */
  predicate Echoes(d: Packet, p: Packet, conn: u16) {
    d.conn == conn && d.kind == PKT_USBH_DONE && d.bflag == p.bflag && d.hflag % 0x8000 == p.hflag % 0x8000
  }

  /** The number of bytes an IN asks for, of which the read buffer holds 512. */
  function Wanted(p: Packet): (n: nat)
    requires |p.data| >= 2
  {
    if p.data[1] >= 2 then 512 else p.data[0] as int + 0x100 * p.data[1] as int
  }

  /** What the device answered: a failed transfer is marked and returns nothing; an IN returns the bytes
      produced, at most what was asked for; an OUT the number of bytes accepted. */
  predicate Conveys(d: Packet, p: Packet, a: Answer) {
    a.res != USB_XFR_NAK && (d.hflag >= 0x8000 <==> a.res < 0) &&
    if a.res < 0 then d.data == if Token(p) == USB_TKN_IN then [] else [0, 0]
    else if Token(p) == USB_TKN_IN then
      |p.data| >= 2 && |d.data| == Amount(a, Wanted(p)) &&
      forall k :: 0 <= k < |d.data| && k < |a.bytes| ==> d.data[k] == a.bytes[k]
    else |d.data| == 2 && GetLE16(d.data, 0) == Amount(a, |p.data|) % 0x1_0000
  }

  /** Each entry of a USB log settles one packet; this says which kind of packet it may settle. */
  ghost predicate Settles(e: Entry, p: Packet, conn: u16) {
    match e
    case Reply(_, d, a) => IsTransfer(p) && Token(p) != USB_TKN_SETUP && Echoes(d, p, conn) && Conveys(d, p, a)
    case Called(_) => IsTransfer(p) && Token(p) == USB_TKN_SETUP
    case Discarded(_) => IsTransfer(p)
    case Reset(_) => IsReset(p)
    case Dropped(_) => !IsReset(p) && (IsTransfer(p) ==> Token(p) == USB_TKN_IN && |p.data| < 2)
    case _ => false
  }

  /** Each arrival is queued or settled once, by an entry of the right kind. */
  ghost predicate Accounted(log: seq<Entry>, q: seq<Item>, hist: seq<Packet>, conn: u16) {
    Balanced(log, q, hist) && forall a :: 0 <= a < |log| ==> Settles(log[a], hist[log[a].id], conn)
  }

  predicate SameSlot(p: Packet, r: Packet) {
    IsTransfer(p) && IsTransfer(r) && Slot(p) == Slot(r)
  }

  /** Replies for one endpoint and token come in arrival order, also with respect to what is queued. */
  ghost predicate InOrder(log: seq<Entry>, q: seq<Item>, hist: seq<Packet>)
    requires forall a :: 0 <= a < |log| ==> log[a].id < |hist|
  {
    (forall a, b :: 0 <= a < b < |log| && log[a].Reply? && log[b].Reply? ==>
      SameSlot(hist[log[a].id], hist[log[b].id]) ==> log[a].id < log[b].id) &&
    (forall a, k :: 0 <= a < |log| && 0 <= k < |q| && log[a].Reply? ==>
      SameSlot(hist[log[a].id], q[k].pkt) ==> log[a].id < q[k].id)
  }

  /** A reset settles after everything that arrived before it, and a discarded transfer is followed
      by others and then by a reset, all of them later arrivals. */
  ghost predicate Barriers(log: seq<Entry>, q: seq<Item>) {
    (forall a, b :: 0 <= a < b < |log| && log[a].Reset? ==> log[a].id < log[b].id) &&
    (forall a, k :: 0 <= a < |log| && 0 <= k < |q| && log[a].Reset? ==> log[a].id < q[k].id) &&
    (forall a :: 0 <= a < |log| - 1 && log[a].Discarded? ==>
      (log[a + 1].Discarded? || log[a + 1].Reset?) && log[a].id < log[a + 1].id)
  }

  ghost predicate Good(st: IfState, q: seq<Item>, hist: seq<Packet>) {
    st.kind == Usbh && TokensOk(hist) &&
    Accounted(Finals(st.log), q, hist, st.conn) && InOrder(Finals(st.log), q, hist) && Barriers(Finals(st.log), q) &&
    (forall s <- st.ebusy :: s % 4 != USB_TKN_SETUP)
  }

  predicate MidFlush(log: seq<Entry>) {
    log != [] && log[|log| - 1].Discarded?
  }

  function LastFinal(st: IfState): Entry
    requires Finals(st.log) != []
  {
    Finals(st.log)[|Finals(st.log)| - 1]
  }

  predicate Blocked(st: IfState, it: Item) {
    IsTransfer(it.pkt) && Slot(it.pkt) in st.ebusy
  }

  lemma SettleAccounted(log: seq<Entry>, q: seq<Item>, i: nat, hist: seq<Packet>, conn: u16, e: Entry)
    requires Accounted(log, q, hist, conn) && i < |q| && e.id == q[i].id && Settles(e, q[i].pkt, conn)
    ensures Accounted(log + [e], Without(q, i), hist, conn)
  {
    hide Settles, Without;
    SettleBalanced(log, q, i, hist, e);
  }

  lemma SettleInOrder(log: seq<Entry>, q: seq<Item>, i: nat, hist: seq<Packet>, conn: u16, e: Entry)
    requires Accounted(log, q, hist, conn) && InOrder(log, q, hist) && i < |q| && e.id == q[i].id
    requires e.Reply? ==> forall j :: 0 <= j < i ==> !SameSlot(q[j].pkt, q[i].pkt)
    ensures forall a :: 0 <= a < |log + [e]| ==> (log + [e])[a].id < |hist|
    ensures InOrder(log + [e], Without(q, i), hist)
  {
    hide Settles, Without;
    WithoutAt(q, i);
  }

  lemma SettleBarriers(log: seq<Entry>, q: seq<Item>, i: nat, e: Entry)
    requires Sorted(q) && Barriers(log, q) && i < |q| && e.id == q[i].id
    requires e.Reset? ==> i == 0
    requires MidFlush(log) ==> (e.Discarded? || e.Reset?) && log[|log| - 1].id < e.id
    ensures Barriers(log + [e], Without(q, i))
  {
    hide Without;
    WithoutAt(q, i);
  }

  /** Settling the packet at i of the queue keeps the books, provided that a reply has nothing of its
      own slot ahead of it, that a reset is at the front, and that a flush is not interrupted. */
  lemma Settle(st: IfState, q: seq<Item>, i: nat, hist: seq<Packet>, e: Entry)
    requires Good(st, q, hist) && i < |q| && e.id == q[i].id && Settles(e, q[i].pkt, st.conn)
    requires e.Reply? ==> forall j :: 0 <= j < i ==> !SameSlot(q[j].pkt, q[i].pkt)
    requires e.Reset? ==> i == 0
    requires !Notes(e) && (MidFlush(Finals(st.log)) ==> (e.Discarded? || e.Reset?) && LastFinal(st).id < e.id)
    ensures Good(st.Note(e), Without(q, i), hist)
  {
    hide Finals;
    SettleAccounted(Finals(st.log), q, i, hist, st.conn, e);
    SettleInOrder(Finals(st.log), q, i, hist, st.conn, e);
    SettleBarriers(Finals(st.log), q, i, e);
    FinalsAppend(st.log, e);
    hide Accounted, InOrder, Barriers;
  }

  /** Where a scan can stand: in a flush at the front, with the reset at r and only transfers ahead of
      it; otherwise with everything before i blocked. */
  ghost predicate At(st: IfState, q: seq<Item>, i: nat, r: nat) {
    if st.busy then
      i == 0 && r < |q| && IsReset(q[r].pkt) && (forall j :: 0 <= j < r ==> IsTransfer(q[j].pkt)) &&
      (MidFlush(Finals(st.log)) ==> forall k :: 0 <= k < |q| ==> LastFinal(st).id < q[k].id)
    else
      !MidFlush(Finals(st.log)) && i <= |q| && forall j :: 0 <= j < i ==> Blocked(st, q[j])
  }

  lemma FlushState(st: IfState, it: Item, dev: Device)
    requires st.kind == Usbh && st.busy && (IsTransfer(it.pkt) || IsReset(it.pkt))
    ensures AdvanceUsbh(st, it, dev) ==
            if IsReset(it.pkt) then Outcome(st.Note(Reset(it.id)).(busy := false, ebusy := {}, calls := st.calls +
              1), 0)
            else Outcome(st.Note(Discarded(it.id)), 0)
  {
  }

  lemma FlushStep(st: IfState, q: seq<Item>, r: nat, hist: seq<Packet>, dev: Device)
    requires Good(st, q, hist) && st.busy && At(st, q, 0, r)
    ensures var o := AdvanceUsbh(st, q[0], dev);
            o.res == 0 && o.st.conn == st.conn && Good(o.st, Without(q, 0), hist) &&
            At(o.st, Without(q, 0), 0, if r == 0 then 0 else r - 1)
  {
    hide InOrder, Barriers, Without, AdvanceUsbh, Finals, Accounted;
    var e := if r == 0 then Reset(q[0].id) else Discarded(q[0].id);
    FlushState(st, q[0], dev);
    Settle(st, q, 0, hist, e);
    FlushAt(st, q, r, hist);
    FinalsAppend(st.log, e);
  }

  /** Everything behind the packet discarded is a later arrival. */
  lemma FlushAt(st: IfState, q: seq<Item>, r: nat, hist: seq<Packet>)
    requires Good(st, q, hist) && st.busy && At(st, q, 0, r)
    ensures Finals(st.Note(Reset(q[0].id)).log) == Finals(st.log) + [Reset(q[0].id)]
    ensures r > 0 ==> At(st.Note(Discarded(q[0].id)), Without(q, 0), 0, r - 1)
  {
    hide InOrder, Barriers, Without, Settles, Finals;
    WithoutAt(q, 0);
    FinalsAppend(st.log, Reset(q[0].id));
    FinalsAppend(st.log, Discarded(q[0].id));
  }

  lemma Fields(h: u16)
    ensures h % 0x10 + 0x10 * (h / 0x10 % 0x10) + 0x100 * (h / 0x100 % 0x80) == h % 0x8000
  {
    var a, b := h / 0x10, h / 0x100;
    assert h % 0x10 + 0x10 * a == h && a % 0x10 + 0x10 * b == a && b % 0x80 + 0x80 * (h / 0x8000) == b;
  }

  lemma DoneEchoes(conn: u16, p: Packet, a: Answer)
    requires Token(p) == USB_TKN_IN ==> |p.data| >= 2
    ensures Echoes(UsbDone(conn, p, a), p, conn)
    ensures a.res != USB_XFR_NAK ==> Conveys(UsbDone(conn, p, a), p, a)
  {
    hide InSize, LE16, Amount, GetLE16, Wanted;
    Fields(p.hflag);
    if Token(p) == USB_TKN_IN {
      WantedSize(p);
    }
    Count16(0);
    Count16(Amount(a, |p.data|) % 0x1_0000);
  }

  lemma WantedSize(p: Packet)
    requires |p.data| >= 2
    ensures InSize(p) == Wanted(p)
  {
  }

  lemma Count16(n: u16)
    ensures GetLE16(LE16(n), 0) == n && LE16(0) == [0, 0]
  {
  }

  /** A SETUP bit is never set, and only bits of other tokens are. */
  lemma SlotToken(p: Packet)
    requires Token(p) <= USB_TKN_SETUP
    ensures Slot(p) % 4 == Token(p)
  {
    hide Token, Endpoint;
  }

  /** A transfer that is removed: answered, or a SETUP, or malformed. */
  lemma RemovalStep(st: IfState, q: seq<Item>, i: nat, hist: seq<Packet>, dev: Device)
    requires Good(st, q, hist) && !st.busy && At(st, q, i, 0) && i < |q| && IsTransfer(q[i].pkt)
    requires AdvanceUsbh(st, q[i], dev).res == 0
    ensures var o := AdvanceUsbh(st, q[i], dev);
            o.st.conn == st.conn && Good(o.st, Without(q, i), hist) && At(o.st, Without(q, i), 0, 0)
  {
    hide InOrder, Barriers, UsbDone, Echoes, Conveys, Without, Slot, Token, AdvanceUsbh, Finals, Accounted, Balanced;
    assert q[i].pkt in hist by {
      QueuedKnown(st, q, i, hist);
    }
    XferOutcome(st, q[i], dev);
    var e := AdvanceUsbh(st, q[i], dev).st.log[|st.log|];
    Settle(st, q, i, hist, e);
    FinalsAppend(st.log, e);
  }

  lemma QueuedKnown(st: IfState, q: seq<Item>, i: nat, hist: seq<Packet>)
    requires Good(st, q, hist) && i < |q|
    ensures q[i].pkt in hist
  {
    hide Settles, InOrder, Barriers, Finals;
  }

  /** A transfer that stays queued has its bit set afterwards, and nothing else changes. */
  lemma SkipState(st: IfState, it: Item, dev: Device)
    requires st.kind == Usbh && !st.busy && IsTransfer(it.pkt) && Token(it.pkt) <= USB_TKN_SETUP
    requires forall s <- st.ebusy :: s % 4 != USB_TKN_SETUP
    requires AdvanceUsbh(st, it, dev).res != 0
    ensures var o := AdvanceUsbh(st, it, dev);
            o.res == -1 && o.st == st.(ebusy := st.ebusy + {Slot(it.pkt)}, calls := o.st.calls, log := o.st.log) &&
            Finals(o.st.log) == Finals(st.log) && Slot(it.pkt) % 4 != USB_TKN_SETUP
  {
    hide UsbDone, Slot, Token, Finals, Sending;
    SlotToken(it.pkt);
    FinalsAppend(st.log, Paused(it.id, dev(st.calls)));
    assert Finals(st.log) + [] == Finals(st.log);
  }

  lemma SkipStep(st: IfState, q: seq<Item>, i: nat, hist: seq<Packet>, dev: Device)
    requires Good(st, q, hist) && !st.busy && At(st, q, i, 0) && i < |q| && IsTransfer(q[i].pkt)
    requires AdvanceUsbh(st, q[i], dev).res != 0
    ensures var o := AdvanceUsbh(st, q[i], dev);
            o.st.conn == st.conn && o.res == -1 && Good(o.st, q, hist) && At(o.st, q, i + 1, 0)
  {
    hide InOrder, Barriers, AdvanceUsbh, Slot, Token;
    assert q[i].pkt in hist;
    SkipState(st, q[i], dev);
    hide Accounted;
  }

  lemma StepKeeps(st: IfState, q: seq<Item>, i: nat, r: nat, hist: seq<Packet>, dev: Device) returns (r': nat)
    requires Good(st, q, hist) && At(st, q, i, r) && i < |q|
    ensures var o := Advance(st, q[i], dev);
            o.res <= 0 && o.st.conn == st.conn &&
            (o.res == 0 ==> Good(o.st, Without(q, i), hist) && At(o.st, Without(q, i), 0, r')) &&
            (o.res < 0 ==> Good(o.st, q, hist) && At(o.st, q, if o.res == -2 then 0 else i + 1, r'))
  {
    hide InOrder, Barriers, Accounted;
    r' := 0;
    if st.busy {
      FlushStep(st, q, r, hist, dev);
      r' := if r == 0 then 0 else r - 1;
    } else if IsTransfer(q[i].pkt) {
      if AdvanceUsbh(st, q[i], dev).res == 0 {
        RemovalStep(st, q, i, hist, dev);
      } else {
        SkipStep(st, q, i, hist, dev);
      }
    } else if IsReset(q[i].pkt) {
      r' := i;
    } else {
      Settle(st, q, i, hist, Dropped(q[i].id));
    }
  }

  ghost predicate AtRest(st: IfState, q: seq<Item>) {
    !st.busy && !MidFlush(Finals(st.log)) && forall k :: 0 <= k < |q| ==> Blocked(st, q[k])
  }

  lemma {:induction false} ScanKeeps(st: IfState, q: seq<Item>, i: nat, r: nat, hist: seq<Packet>, dev: Device)
    requires Good(st, q, hist) && At(st, q, i, r) && i <= |q|
    ensures var s := Scan(st, q, i, dev);
            s.st.conn == st.conn && Good(s.st, s.q, hist) && AtRest(s.st, s.q)
    decreases |q|, !st.busy, |q| - i
  {
    hide Advance, Without, Good, At, AtRest;
    if i == |q| {
      EndsAtRest(st, q, i, r);
    } else {
      var r' := StepKeeps(st, q, i, r, hist, dev);
      GoodKind(st, q, hist);
      AdvanceMeasure(st, q[i], dev);
      WithoutAt(q, i);
      var o := Advance(st, q[i], dev);
      ScanKeeps(o.st, if o.res == 0 then Without(q, i) else q, if o.res == -1 then i + 1 else 0, r', hist, dev);
    }
  }

  lemma EndsAtRest(st: IfState, q: seq<Item>, i: nat, r: nat)
    requires At(st, q, i, r) && i == |q|
    ensures AtRest(st, q)
  {
    hide Finals, Blocked;
  }

  lemma GoodKind(st: IfState, q: seq<Item>, hist: seq<Packet>)
    requires Good(st, q, hist)
    ensures st.kind == Usbh
  {
    hide Accounted, InOrder, Barriers, Finals;
  }

  lemma ArrivalAccounted(log: seq<Entry>, q: seq<Item>, hist: seq<Packet>, conn: u16, pkt: Packet)
    requires Accounted(log, q, hist, conn)
    ensures Accounted(log, q + [Item(|hist|, pkt)], hist + [pkt], conn)
  {
    hide Settles;
    ArriveBalanced(log, q, hist, pkt);
  }

  lemma ArrivalInOrder(log: seq<Entry>, q: seq<Item>, hist: seq<Packet>, conn: u16, pkt: Packet)
    requires Accounted(log, q, hist, conn) && InOrder(log, q, hist)
    ensures forall a :: 0 <= a < |log| ==> log[a].id < |hist|
    ensures InOrder(log, q + [Item(|hist|, pkt)], hist + [pkt])
  {
    hide Settles, SameSlot;
  }

  lemma ArrivalBarriers(log: seq<Entry>, q: seq<Item>, n: nat, pkt: Packet)
    requires Barriers(log, q) && forall a :: 0 <= a < |log| ==> log[a].id < n
    ensures Barriers(log, q + [Item(n, pkt)])
  {
  }

  lemma ArrivalKeeps(st: IfState, q: seq<Item>, hist: seq<Packet>, pkt: Packet)
    requires Good(st, q, hist) && (IsTransfer(pkt) ==> Token(pkt) <= USB_TKN_SETUP)
    ensures Good(st, q + [Item(|hist|, pkt)], hist + [pkt])
  {
    ArrivalAccounted(Finals(st.log), q, hist, st.conn, pkt);
    ArrivalInOrder(Finals(st.log), q, hist, st.conn, pkt);
    ArrivalBarriers(Finals(st.log), q, |hist|, pkt);
    hide Accounted, InOrder, Barriers;
  }

  /** What holds between the inputs. */
  ghost predicate Sound(p: Port, hist: seq<Packet>) {
    Good(p.st, p.q, hist) && p.arrived == |hist| && !p.st.busy && !MidFlush(Finals(p.st.log)) &&
    (!p.defer ==> AtRest(p.st, p.q))
  }

  lemma RescanKeeps(p: Port, hist: seq<Packet>, dev: Device)
    requires Good(p.st, p.q, hist) && p.arrived == |hist| && !p.st.busy && !MidFlush(Finals(p.st.log))
    ensures Sound(Rescan(p, dev), hist) && Rescan(p, dev).st.conn == p.st.conn
  {
    hide Scan;
    ScanKeeps(p.st, p.q, 0, 0, hist, dev);
    hide Good;
  }

  lemma NextSound(p: Port, hist: seq<Packet>, input: Input, dev: Device)
    requires Sound(p, hist)
    requires input.Deliver? && IsTransfer(input.pkt) ==> Token(input.pkt) <= USB_TKN_SETUP
    ensures Sound(Next(p, input, dev), After(hist, input))
    ensures Next(p, input, dev).st.conn == p.st.conn
  {
    hide Rescan, Accounted, InOrder, Barriers, IsTransfer, Token;
    match input
    case Deliver(pkt, attaching) =>
      ArrivalKeeps(p.st, p.q, hist, pkt);
      var arrived := p.(q := p.q + [Item(p.arrived, pkt)], arrived := p.arrived + 1, defer := attaching);
      RescanKeeps(arrived, hist + [pkt], dev);
    case Unstall =>
      RescanKeeps(p.(st := p.st.(busy := false)), hist, dev);
    case UsbUnpause(ep, tkn) =>
      RescanKeeps(p.(st := p.st.(ebusy := p.st.ebusy - {ep * 4 + tkn})), hist, dev);
    case CatchUp =>
      RescanKeeps(p.(defer := false), hist, dev);
  }

  lemma {:induction false} RunSound(conn: u16, inputs: seq<Input>, dev: Device)
    requires TokensOk(Arrivals(inputs))
    ensures Sound(Run(Usbh, conn, inputs, dev), Arrivals(inputs)) && Run(Usbh, conn, inputs, dev).st.conn == conn
  {
    if inputs != [] {
      hide Next, Good, IsTransfer, Token, AtRest, MidFlush;
      var before, last := inputs[..|inputs| - 1], inputs[|inputs| - 1];
      assert forall x <- Arrivals(before) :: x in Arrivals(inputs);
      RunSound(conn, before, dev);
      assert last.Deliver? ==> last.pkt in Arrivals(inputs);
      NextSound(Run(Usbh, conn, before, dev), Arrivals(before), last, dev);
    }
  }

  /** USB scheduling, over every run.  Between inputs each packet that arrived is either queued or has
      been settled once: a transfer by the one DONE that echoes it, or by being discarded for a reset;
      DONEs for one endpoint and token are in arrival order; a reset settles after everything ahead of
      it; discarded transfers are followed by the reset, a later arrival.  Unless the interface is still
      being attached, no reset is queued and every queued transfer is paused. */
  lemma UsbScheduling(conn: u16, inputs: seq<Input>, dev: Device)
    requires TokensOk(Arrivals(inputs))
    ensures var p, hist := Run(Usbh, conn, inputs, dev), Arrivals(inputs);
            var log := Finals(p.st.log);
            Accounted(log, p.q, hist, conn) &&
            (forall id :: 0 <= id < |hist| ==> Queued(p.q, id) != Settled(log, id)) &&
            InOrder(log, p.q, hist) && Barriers(log, p.q) &&
            !p.st.busy && !MidFlush(log) &&
            (!p.defer ==> forall k :: 0 <= k < |p.q| ==> Blocked(p.st, p.q[k]))
  {
    hide Run, Arrivals, InOrder, Barriers, Settles, Blocked;
    RunSound(conn, inputs, dev);
    var p, hist := Run(Usbh, conn, inputs, dev), Arrivals(inputs);
    Fates(Finals(p.st.log), p.q, hist);
  }

  function Discards(q: seq<Item>): seq<Entry> {
    seq(|q|, i requires 0 <= i < |q| => Discarded(q[i].id))
  }

  lemma DiscardsNone(q: seq<Item>)
    ensures Discards(q[..0]) == []
  {
  }

  lemma DiscardsCons(q: seq<Item>, r: nat)
    requires 0 < r < |q|
    ensures Discards(q[..r]) == [Discarded(q[0].id)] + Discards(q[1..][..r - 1]) && q[1..][r..] == q[r + 1..]
  {
  }

  function AfterReset(st: IfState, q: seq<Item>, r: nat): IfState
    requires r < |q|
  {
    st.(busy := false, ebusy := {}, log := st.log + Discards(q[..r]) + [Reset(q[r].id)], calls := st.calls + 1)
  }

  /** A flush from the front discards everything up to the reset at r and calls rst once. */
  lemma {:induction false} FlushRuns(st: IfState, q: seq<Item>, r: nat, dev: Device)
    requires st.kind == Usbh && st.busy && r < |q| && IsReset(q[r].pkt)
    requires forall j :: 0 <= j < r ==> IsTransfer(q[j].pkt)
    ensures Scan(st, q, 0, dev) ==
            Scan(AfterReset(st, q, r), q[r + 1..], 0, dev)
    decreases r
  {
    hide AdvanceUsbh, Discards;
    FlushState(st, q[0], dev);
    assert Without(q, 0) == q[1..] && q[0..] == q;
    hide Without;
    if r == 0 {
      DiscardsNone(q);
      assert st.log + Discards(q[..0]) == st.log;
    } else {
      FlushRuns(st.Note(Discarded(q[0].id)), q[1..], r - 1, dev);
      DiscardsCons(q, r);
      Assoc(st.log, [Discarded(q[0].id)], Discards(q[1..][..r - 1]));
    }
  }

  /** The reset barrier: a scan that finds a reset at i, with only transfers (all of them paused) ahead
      of it, discards exactly those, calls rst once, clears every pause and goes on with what is behind. */
  lemma ResetBarrier(st: IfState, q: seq<Item>, i: nat, dev: Device)
    requires st.kind == Usbh && !st.busy && i < |q| && IsReset(q[i].pkt)
    requires forall j :: 0 <= j < i ==> IsTransfer(q[j].pkt)
    ensures Scan(st, q, i, dev) ==
            Scan(AfterReset(st, q, i), q[i + 1..], 0, dev)
  {
    hide AdvanceI2c, AdvanceSpi, AdvanceCan, AdvanceUart, AdvanceEth, Sending, Discards;
    FlushRuns(st.(busy := true), q, i, dev);
  }

  /** What a transfer reached outside a flush leads to.  A paused one waits, and is not offered again; one
      that is malformed is dropped; any other is offered to the device at once.  It is kept, and its
      slot paused, if and only if the answer is -1; otherwise it leaves the queue with one entry, which for
      anything but a SETUP is the DONE that conveys the answer. */
  lemma XferOutcome(st: IfState, it: Item, dev: Device)
    requires st.kind == Usbh && !st.busy && IsTransfer(it.pkt) && Token(it.pkt) <= USB_TKN_SETUP
    requires forall s <- st.ebusy :: s % 4 != USB_TKN_SETUP
    ensures var o, a, slot := Advance(st, it, dev), dev(st.calls), Slot(it.pkt);
            var called := st.(calls := st.calls + 1);
            if slot in st.ebusy then o == Outcome(st, -1)
            else if Token(it.pkt) == USB_TKN_IN && |it.pkt.data| < 2 then o == Outcome(st.Note(Dropped(it.id)), 0)
            else if Token(it.pkt) == USB_TKN_SETUP then o == Outcome(called.Note(Called(it.id)), 0)
            else if a.res == -1 then o == Outcome(called.(ebusy := st.ebusy + {slot}).Note(Paused(it.id, a)), -1)
            else
              var d := UsbDone(st.conn, it.pkt, a);
              o == Outcome(called.Note(Reply(it.id, d, a)), 0) && Echoes(d, it.pkt, st.conn) && Conveys(d, it.pkt, a)
  {
    hide UsbDone, Echoes, Conveys, Slot, Token, Sending;
    SlotToken(it.pkt);
    if Token(it.pkt) == USB_TKN_SETUP {
      assert st.ebusy - {Slot(it.pkt)} == st.ebusy;
    } else if Token(it.pkt) == USB_TKN_IN ==> |it.pkt.data| >= 2 {
      DoneEchoes(st.conn, it.pkt, dev(st.calls));
    }
  }

  /** The slots paused after some entries: `xfr` answering -1 pauses the slot of its transfer, and a reset
      lifts every pause. */
  ghost function Pauses(paused: set<nat>, log: seq<Entry>, hist: seq<Packet>): set<nat> {
    if log == [] then paused
    else
      var e, before := log[|log| - 1], Pauses(paused, log[..|log| - 1], hist);
      if e.Reset? then {}
      else if e.Paused? && e.ans.res == -1 && e.id < |hist| then before + {PauseBit(hist[e.id].hflag)}
      else before
  }

  /** The bit that stands for an endpoint, bits 4 to 7, and a token, bits 0 to 3. */
  function PauseBit(hflag: u16): nat {
    4 * ((hflag % 0x100) / 0x10) + hflag % 0x10
  }

  lemma SlotBit(p: Packet)
    ensures Slot(p) == PauseBit(p.hflag)
  {
    Nibble(p.hflag);
  }

  lemma Nibble(h: u16)
    ensures h / 0x10 % 0x10 == h % 0x100 / 0x10
  {
    var a, b := h / 0x10, h / 0x100;
    assert h == 0x10 * a + h % 0x10 && a == 0x10 * b + a % 0x10;
    assert h % 0x100 == 0x10 * (a % 0x10) + h % 0x10;
  }

  /** From st to st' the pauses follow the new entries. */
  ghost predicate Follows(st: IfState, st': IfState, hist: seq<Packet>) {
    st.log <= st'.log && st'.ebusy == Pauses(st.ebusy, st'.log[|st.log|..], hist)
  }

  lemma {:induction false} PausesConcat(paused: set<nat>, log: seq<Entry>, more: seq<Entry>, hist: seq<Packet>)
    ensures Pauses(paused, log + more, hist) == Pauses(Pauses(paused, log, hist), more, hist)
  {
    if more == [] {
      assert log + more == log;
    } else {
      assert (log + more)[..|log + more| - 1] == log + more[..|more| - 1];
      PausesConcat(paused, log, more[..|more| - 1], hist);
    }
  }

  lemma FollowsTrans(a: IfState, b: IfState, c: IfState, hist: seq<Packet>)
    requires Follows(a, b, hist) && Follows(b, c, hist)
    ensures Follows(a, c, hist)
  {
    hide Pauses;
    assert c.log[|a.log|..] == b.log[|a.log|..] + c.log[|b.log|..];
    PausesConcat(a.ebusy, b.log[|a.log|..], c.log[|b.log|..], hist);
  }

  lemma FollowsNone(st: IfState, st': IfState, hist: seq<Packet>)
    requires st'.log == st.log && st'.ebusy == st.ebusy
    ensures Follows(st, st', hist)
  {
    assert st'.log[|st.log|..] == [];
  }

  lemma FollowsNote(st: IfState, st': IfState, e: Entry, hist: seq<Packet>)
    requires st'.log == st.log + [e]
    requires st'.ebusy == if e.Reset? then {}
                          else if e.Paused? && e.ans.res == -1 && e.id < |hist| then st.ebusy + {Slot(hist[e.id])}
                          else st.ebusy
    ensures Follows(st, st', hist)
  {
    hide Slot, PauseBit;
    if e.Paused? && e.id < |hist| {
      SlotBit(hist[e.id]);
    }
    assert st'.log[|st.log|..] == [e] && [e][..0] == [];
    assert Pauses(st.ebusy, [], hist) == st.ebusy;
  }

  lemma PauseStep(st: IfState, q: seq<Item>, i: nat, r: nat, hist: seq<Packet>, dev: Device)
    requires Good(st, q, hist) && At(st, q, i, r) && i < |q|
    ensures Follows(st, Advance(st, q[i], dev).st, hist)
  {
    hide InOrder, Barriers, UsbDone, Slot, Token, Follows, Settles, Echoes, Conveys, Finals, Sending;
    var it, o := q[i], Advance(st, q[i], dev);
    assert it.pkt == hist[it.id] && it.pkt in hist;
    if st.busy && (IsTransfer(it.pkt) || IsReset(it.pkt)) {
      FlushState(st, it, dev);
      FollowsNote(st, o.st, if IsReset(it.pkt) then Reset(it.id) else Discarded(it.id), hist);
    } else if IsTransfer(it.pkt) {
      XferOutcome(st, it, dev);
      if o.st.log == st.log {
        FollowsNone(st, o.st, hist);
      } else {
        FollowsNote(st, o.st, o.st.log[|st.log|], hist);
      }
    } else if IsReset(it.pkt) {
      FollowsNone(st, o.st, hist);
    } else {
      FollowsNote(st, o.st, Dropped(it.id), hist);
    }
  }

  lemma {:induction false} ScanFollows(st: IfState, q: seq<Item>, i: nat, r: nat, hist: seq<Packet>, dev: Device)
    requires Good(st, q, hist) && At(st, q, i, r) && i <= |q|
    ensures Follows(st, Scan(st, q, i, dev).st, hist)
    decreases |q|, !st.busy, |q| - i
  {
    hide Advance, Without, Follows, Good, At;
    if i == |q| {
      FollowsNone(st, st, hist);
    } else {
      var r' := StepKeeps(st, q, i, r, hist, dev);
      PauseStep(st, q, i, r, hist, dev);
      GoodKind(st, q, hist);
      AdvanceMeasure(st, q[i], dev);
      WithoutAt(q, i);
      var o := Advance(st, q[i], dev);
      var q', i' := if o.res == 0 then Without(q, i) else q, if o.res == -1 then i + 1 else 0;
      ScanFollows(o.st, q', i', r', hist, dev);
      FollowsTrans(st, o.st, Scan(o.st, q', i', dev).st, hist);
    }
  }

  /** The slots that are paused, by the history: a usbh_ready lifts one pause, and the new entries of the
      log say the rest. */
  ghost function PausedNow(conn: u16, inputs: seq<Input>, dev: Device): set<nat> {
    if inputs == [] then {}
    else
      var init := inputs[..|inputs| - 1];
      var seen, log := Run(Usbh, conn, init, dev).st.log, Run(Usbh, conn, inputs, dev).st.log;
      PausedNext(PausedNow(conn, init, dev), inputs[|inputs| - 1], seen, log, Arrivals(inputs))
  }

  ghost function PausedNext(paused: set<nat>, input: Input, seen: seq<Entry>, log: seq<Entry>, hist: seq<Packet>)
    : set<nat>
  {
    var lifted := if input.UsbUnpause? then paused - {input.ep * 4 + input.tkn} else paused;
    Pauses(lifted, if |seen| <= |log| then log[|seen|..] else [], hist)
  }

  /** The pauses are exact, over every run: a bit of `ebusy` is set if and only if `xfr` has answered -1 to
      a transfer of that slot and there was no usbh_ready for the slot and no reset since. */
  lemma {:induction false} PausesExact(conn: u16, inputs: seq<Input>, dev: Device)
    requires TokensOk(Arrivals(inputs))
    ensures Run(Usbh, conn, inputs, dev).st.ebusy == PausedNow(conn, inputs, dev)
  {
    if inputs != [] {
      hide Next, IsTransfer, Token, PausedNext, Sound;
      var init, last := inputs[..|inputs| - 1], inputs[|inputs| - 1];
      assert TokensOk(Arrivals(init)) by {
        assert forall x <- Arrivals(init) :: x in Arrivals(inputs);
      }
      PausesExact(conn, init, dev);
      RunSound(conn, init, dev);
      assert last.Deliver? ==> last.pkt in Arrivals(inputs);
      NextFollows(Run(Usbh, conn, init, dev), Arrivals(init), last, dev);
    }
  }

  lemma NextFollows(p: Port, hist: seq<Packet>, input: Input, dev: Device)
    requires Sound(p, hist)
    requires input.Deliver? && IsTransfer(input.pkt) ==> Token(input.pkt) <= USB_TKN_SETUP
    ensures var st := Next(p, input, dev).st;
            st.ebusy == PausedNext(p.st.ebusy, input, p.st.log, st.log, After(hist, input))
  {
    hide Rescan, Accounted, InOrder, Barriers, IsTransfer, Token, Pauses, Finals;
    match input
    case Deliver(pkt, attaching) =>
      ArrivalKeeps(p.st, p.q, hist, pkt);
      RescanFollows(p.(q := p.q + [Item(p.arrived, pkt)], arrived := p.arrived + 1, defer := attaching),
        hist + [pkt], dev);
    case Unstall =>
      assert p.st.(busy := false) == p.st.(ebusy := p.st.ebusy);
      RescanFollows(p.(st := p.st.(busy := false)), hist, dev);
    case UsbUnpause(ep, tkn) =>
      RescanFollows(p.(st := p.st.(ebusy := p.st.ebusy - {ep * 4 + tkn})), hist, dev);
    case CatchUp =>
      RescanFollows(p.(defer := false), hist, dev);
      FollowsNone(p.st, p.st, hist);
  }

  lemma RescanFollows(p: Port, hist: seq<Packet>, dev: Device)
    requires Good(p.st, p.q, hist) && p.arrived == |hist| && !p.st.busy && !MidFlush(Finals(p.st.log))
    ensures Follows(p.st, Rescan(p, dev).st, hist)
  {
    hide Scan, Good, Follows;
    FollowsNone(p.st, p.st, hist);
    ScanFollows(p.st, p.q, 0, 0, hist, dev);
  }
}
