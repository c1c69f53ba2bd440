/** Whole control transfers: what a host reads and writes, for every way it cuts the data stage up. */
module UsbControlRuns {
  import opened Wire
  import opened UsbControl

  /** For IN, `data` is the host's buffer. */
  datatype Event = Event(ep: nat, tkn: nat, data: seq<byte>)

  predicate Is(e: Event, tkn: nat) {
    e.ep == 0 && e.tkn == tkn
  }

  /** Anything that may go on during the data stage of a read: reads of it, and traffic elsewhere. */
  predicate WhileReading(e: Event) {
    e.ep < 16 && !Is(e, SETUP) && !Is(e, OUT)
  }

  predicate WhileWriting(e: Event) {
    e.ep < 16 && !Is(e, SETUP) && !Is(e, IN)
  }

  predicate Reading(s: Control) {
    Valid(s) && s.inSetup && FromDevice(s.reqType)
  }

  predicate Writing(s: Control) {
    Valid(s) && s.inSetup && !FromDevice(s.reqType)
  }

  /** The device after the events, and everything it handed out on endpoint 0. */
  function Read(s: Control, events: seq<Event>): (r: (Control, seq<byte>))
    requires Reading(s) && s.ptr == 0 && forall e <- events :: WhileReading(e)
    requires Min(Requested(events), s.length) <= EP0_BUF
    ensures Reading(r.0) && r.0.length == s.length && r.0.ptr == Min(Requested(events), s.length)
  {
    if events == [] then (s, [])
    else
      var last := events[|events| - 1];
      assert WhileReading(last);
      var (t, got) := Read(s, events[..|events| - 1]);
      var d := Xfr(t, last.ep, last.tkn, last.data);
      (d.s, if Is(last, IN) then got + d.data[..d.res] else got)
  }

  /** How many bytes the host asked for in all. */
  function Requested(events: seq<Event>): nat {
    if events == [] then 0
    else
      var last := events[|events| - 1];
      Requested(events[..|events| - 1]) + if Is(last, IN) then |last.data| else 0
  }

  /** What changes while reading: the position, and the report that the interrupt endpoint gives away. */
  predicate SameRequest(s: Control, t: Control) {
    t == s.(ptr := t.ptr, hasReport := t.hasReport)
  }

  predicate Progress(s: Control, t: Control, got: seq<byte>, requested: nat)
    requires Reading(s)
  {
    SameRequest(s, t) && t.ptr == Min(requested, s.length) && t.ptr <= EP0_BUF && got == s.buf[..t.ptr]
  }

  lemma ReadStep(s: Control, t: Control, got: seq<byte>, requested: nat, e: Event)
    requires Reading(s) && Reading(t) && Progress(s, t, got, requested) && WhileReading(e)
    requires Is(e, IN) ==> Min(requested + |e.data|, s.length) <= EP0_BUF
    ensures var d := Xfr(t, e.ep, e.tkn, e.data);
            if Is(e, IN) then 0 <= d.res <= |d.data| && Progress(s, d.s, got + d.data[..d.res], requested + |e.data|)
            else Progress(s, d.s, got, requested)
  {
  }

  lemma {:induction false} ReadPrefix(s: Control, events: seq<Event>)
    requires Reading(s) && s.ptr == 0 && forall e <- events :: WhileReading(e)
    requires Min(Requested(events), s.length) <= EP0_BUF
    ensures var (t, got) := Read(s, events); Progress(s, t, got, Requested(events))
  {
    if events != [] {
      hide Progress, Xfr, Reading, WhileReading;
      var init := events[..|events| - 1];
      ReadPrefix(s, init);
      var (t, got) := Read(s, init);
      ReadStep(s, t, got, Requested(init), events[|events| - 1]);
    }
  }

  function KindOf(p: seq<byte>): Kind
    requires |p| >= 8
  {
    Asked(p[0], p[1], Word(p[2], p[3]))
  }

  function LengthOf(p: seq<byte>): u16
    requires |p| >= 8
  {
    Word(p[6], p[7])
  }

  lemma PreparedReply(buf: seq<byte>, k: Kind, most: nat)
    requires |buf| == EP0_BUF && Known(k)
    ensures Prepared(buf, k, |Reply(k, most)|)[..|Reply(k, most)|] == Reply(k, most)
  {
    hide DeviceDescriptor, ConfigDescriptor, StringDescriptor, ReportDescriptor;
    if k.Config? || k.Str? {
      Sizes(k);
    }
  }

  lemma Sizes(k: Kind)
    requires Known(k)
    ensures k.Config? ==> |Descriptor(k)| == 34
    ensures k.Str? ==> |Descriptor(k)| <= 22
  {
  }

  lemma DescriptorSetup(s: Control, p: seq<byte>)
    requires Valid(s) && |p| >= 8 && FromDevice(p[0]) && Known(KindOf(p))
    ensures var d := Xfr(s, 0, SETUP, p);
            d.res == |p| && Reading(d.s) && d.s.ptr == 0 && d.s.length <= EP0_BUF &&
            d.s.buf[..d.s.length] == Reply(KindOf(p), LengthOf(p))
  {
    hide Prepared, Descriptor, Asked, Reply;
    PreparedReply(s.buf, KindOf(p), LengthOf(p));
  }

  lemma Slice(buf: seq<byte>, n: nat, a: nat, b: nat)
    requires a <= b <= n <= |buf|
    ensures buf[..n][a..b] == buf[a..b] && buf[..n][..a] == buf[..a]
  {
  }

  lemma PutFront(data: seq<byte>, front: seq<byte>)
    requires |front| <= |data|
    ensures Put(data, 0, front) == front + data[|front|..]
  {
  }

  lemma InPiece(t: Control, buffer: seq<byte>)
    requires Reading(t) && t.length <= EP0_BUF
    ensures var next, step := Xfr(t, 0, IN, buffer), Min(t.length - t.ptr, |buffer|);
            next.res == step && next.data == t.buf[t.ptr..t.ptr + step] + buffer[step..]
  {
    hide Put;
    PutFront(buffer, t.buf[t.ptr..t.ptr + Min(t.length - t.ptr, |buffer|)]);
  }

  lemma NextPiece(s: Control, t: Control, got: seq<byte>, requested: nat, buffer: seq<byte>)
    requires Reading(s) && Reading(t) && Progress(s, t, got, requested) && s.length <= EP0_BUF
    ensures var next, all := Xfr(t, 0, IN, buffer), s.buf[..s.length];
            got == all[..Min(requested, |all|)] &&
            next.res == Min(|all| - |got|, |buffer|) &&
            next.data == all[|got|..|got| + next.res] + buffer[next.res..] &&
            (buffer != [] ==> (next.res < |buffer| <==> requested + |buffer| > |all|))
  {
    hide DoIn, DoSetup, DoOut, DoInterrupt, Xfr;
    InPiece(t, buffer);
    Slice(s.buf, s.length, t.ptr, t.ptr + Min(t.length - t.ptr, |buffer|));
  }

  /** The data stage of a request for a descriptor the device has: however the host cuts it up, it gets
      the front of the reply, each further read the next piece, and so a short packet exactly when it
      asks past the end, and nothing from then on. */
  lemma DescriptorRead(s: Control, p: seq<byte>, events: seq<Event>, buffer: seq<byte>)
    requires Valid(s) && |p| >= 8 && FromDevice(p[0]) && Known(KindOf(p))
    requires forall e <- events :: WhileReading(e)
    ensures var d, reply := Xfr(s, 0, SETUP, p), Reply(KindOf(p), LengthOf(p));
            d.res == |p| && Reading(d.s) &&
            var (t, got) := Read(d.s, events);
            got == reply[..Min(Requested(events), |reply|)] &&
            var next := Xfr(t, 0, IN, buffer);
            next.res == Min(|reply| - |got|, |buffer|) &&
            next.data == reply[|got|..|got| + next.res] + buffer[next.res..] &&
            (buffer != [] ==> (next.res < |buffer| <==> Requested(events) + |buffer| > |reply|))
  {
    hide DoSetup, DoIn, DoOut, DoInterrupt, Reply, KindOf, LengthOf, Progress, Xfr, Read, Requested, WhileReading,
      Asked,
      Descriptor;
    DescriptorSetup(s, p);
    var d := Xfr(s, 0, SETUP, p);
    ReadPrefix(d.s, events);
    var (t, got) := Read(d.s, events);
    NextPiece(d.s, t, got, Requested(events), buffer);
  }

  /** A host that asks for the front of the configuration descriptor, 4 bytes or more, reads its total
      length right if and only if it asks for all of it. */
  lemma ConfigTotalIff(most: nat)
    requires most >= 4
    ensures var r := Reply(Config, most);
            (r[2] == |Descriptor(Config)| && r[3] == 0) <==> most >= |Descriptor(Config)|
  {
  }

  /** The usual first request, for 9 bytes, reads 9 for the total length of 34. */
  lemma ShortConfigExample(s: Control)
    requires Valid(s)
    ensures var p, events := [0x80, 6, 0, 2, 0, 0, 9, 0], [Event(0, IN, Zeros(9))];
            Reading(Xfr(s, 0, SETUP, p).s) &&
            Read(Xfr(s, 0, SETUP, p).s, events).1 == [9, 2, 9, 0, 1, 1, 3, 0xa0, 0]
  {
    hide DoSetup, DoIn, DoOut, DoInterrupt, Read, Prepared;
    var p, e := [0x80, 6, 0, 2, 0, 0, 9, 0], Event(0, IN, Zeros(9));
    assert [e][..0] == [];
    assert KindOf(p) == Config && LengthOf(p) == 9;
    DescriptorRead(s, p, [e], []);
  }

  /** A request the device does not have is refused, but the refusal of a SETUP does not reach the host,
      and reads that follow are served with what an earlier request left in the endpoint buffer. */
  lemma RefusedRead(s: Control, p: seq<byte>, events: seq<Event>)
    requires Valid(s) && |p| >= 8 && FromDevice(p[0]) && !Known(KindOf(p))
    requires (forall e <- events :: WhileReading(e)) && Min(Requested(events), LengthOf(p)) <= EP0_BUF
    ensures var d := Xfr(s, 0, SETUP, p);
            d.res == STALL && Reading(d.s) &&
            Read(d.s, events).1 == s.buf[..Min(Requested(events), LengthOf(p))] &&
            (Read(d.s, events).1 == [] <==> Requested(events) == 0 || LengthOf(p) == 0)
  {
    ReadPrefix(Xfr(s, 0, SETUP, p).s, events);
  }

  /** Ten bytes of a device qualifier, which the keyboard does not have, after its device descriptor. */
  lemma RefusedExample(s: Control)
    requires Valid(s)
    ensures var t := Xfr(s, 0, SETUP, [0x80, 6, 0, 1, 0, 0, 18, 0]).s;
            var d := Xfr(t, 0, SETUP, [0x80, 6, 0, 6, 0, 0, 10, 0]);
            d.res == STALL && Read(d.s, [Event(0, IN, Zeros(10))]).1 == DeviceDescriptor()[..10]
  {
    hide Read, DoIn, Descriptor, Prepared;
    var p, q, e := [0x80, 6, 0, 1, 0, 0, 18, 0], [0x80, 6, 0, 6, 0, 0, 10, 0], Event(0, IN, Zeros(10));
    assert [e][..0] == [];
    DescriptorSetup(s, p);
    var t := Xfr(s, 0, SETUP, p).s;
    DeviceReply(18);
    RefusedRead(t, q, [e]);
    Slice(t.buf, 18, 0, 10);
    assert t.buf[..18][..10] == t.buf[..10];
  }

  lemma DeviceReply(most: nat)
    requires most >= 18
    ensures Reply(Device, most) == DeviceDescriptor()
  {
  }

  /** The device after the events, and everything it took from the host on endpoint 0. */
  function Write(s: Control, events: seq<Event>): (r: (Control, seq<byte>))
    requires Writing(s) && s.ptr == 0 && forall e <- events :: WhileWriting(e)
    requires Min(|Sent(events)|, s.length) <= EP0_BUF
    ensures Writing(r.0) && r.0.length == s.length && r.0.ptr == Min(|Sent(events)|, s.length)
  {
    if events == [] then (s, [])
    else
      var last := events[|events| - 1];
      assert WhileWriting(last);
      var (t, took) := Write(s, events[..|events| - 1]);
      var d := Xfr(t, last.ep, last.tkn, last.data);
      (d.s, if Is(last, OUT) then took + last.data[..d.res] else took)
  }

  function Sent(events: seq<Event>): seq<byte> {
    if events == [] then []
    else
      var last := events[|events| - 1];
      Sent(events[..|events| - 1]) + if Is(last, OUT) then last.data else []
  }

  predicate Taken(s: Control, t: Control, took: seq<byte>, sent: seq<byte>)
    requires Writing(s)
  {
    took == sent[..Min(|sent|, s.length)] && |took| <= EP0_BUF &&
    t == s.(ptr := |took|, buf := Put(s.buf, 0, took), hasReport := t.hasReport)
  }

  lemma PutPut(buf: seq<byte>, a: seq<byte>, b: seq<byte>)
    requires |a| + |b| <= |buf|
    ensures Put(Put(buf, 0, a), |a|, b) == Put(buf, 0, a + b)
  {
  }

  lemma WriteStep(s: Control, t: Control, took: seq<byte>, sent: seq<byte>, e: Event)
    requires Writing(s) && Writing(t) && Taken(s, t, took, sent) && WhileWriting(e)
    requires Is(e, OUT) ==> Min(|sent| + |e.data|, s.length) <= EP0_BUF
    ensures var d := Xfr(t, e.ep, e.tkn, e.data);
            if Is(e, OUT) then 0 <= d.res <= |e.data| && Taken(s, d.s, took + e.data[..d.res], sent + e.data)
            else Taken(s, d.s, took, sent)
  {
    hide Put;
    if Is(e, OUT) {
      var step := Min(t.length - t.ptr, |e.data|);
      PutPut(s.buf, took, e.data[..step]);
      if step < |e.data| {
        assert (sent + e.data)[..s.length] == sent[..|took|] + e.data[..step];
      }
    }
  }

  lemma {:induction false} WritePrefix(s: Control, events: seq<Event>)
    requires Writing(s) && s.ptr == 0 && forall e <- events :: WhileWriting(e)
    requires Min(|Sent(events)|, s.length) <= EP0_BUF
    ensures var (t, took) := Write(s, events); Taken(s, t, took, Sent(events))
  {
    if events != [] {
      hide Taken, Xfr, Writing, WhileWriting;
      var init := events[..|events| - 1];
      WritePrefix(s, init);
      var (t, took) := Write(s, init);
      WriteStep(s, t, took, Sent(init), events[|events| - 1]);
      assert Sent(init) + [] == Sent(init);
    } else {
      WriteNone(s);
    }
  }

  lemma WriteNone(s: Control)
    requires Writing(s) && s.ptr == 0
    ensures Taken(s, s, [], [])
  {
  }

  predicate Settable(reqType: byte, request: byte) {
    (reqType == 0 && (request == 5 || request == 9)) || (reqType == 2 && request == 1)
  }

  /** A request to the device: however the host cuts its data up, the device takes the front that the
      request announced; the status stage accepts exactly three requests, and only there a new address
      takes effect. */
  lemma ControlWrite(s: Control, p: seq<byte>, events: seq<Event>, status: seq<byte>)
    requires Valid(s) && |p| >= 8 && !FromDevice(p[0])
    requires (forall e <- events :: WhileWriting(e)) && Min(|Sent(events)|, LengthOf(p)) <= EP0_BUF
    ensures var d := Xfr(s, 0, SETUP, p);
            d.res == |p| && Writing(d.s) &&
            var (t, took) := Write(d.s, events);
            took == Sent(events)[..Min(|Sent(events)|, LengthOf(p))] &&
            t.buf == Put(s.buf, 0, took) && t.addr == s.addr &&
            var done := Xfr(t, 0, IN, status);
            (if Settable(p[0], p[1]) then done.res == |status| else done.res == STALL) &&
            done.s == t.(inSetup := false, addr := if p[0] == 0 && p[1] == 5 then p[2] else s.addr)
  {
    hide Put;
    WritePrefix(Xfr(s, 0, SETUP, p).s, events);
    LowByte(p[2], p[3]);
  }

  lemma LowByte(lo: byte, hi: byte)
    ensures Word(lo, hi) % 256 == lo
  {
  }

  lemma PieceInside(t: Control, tkn: nat, moved: nat, piece: seq<byte>)
    requires Valid(t) && t.inSetup && (tkn == IN || tkn == OUT) && (tkn == IN <==> FromDevice(t.reqType))
    requires t.ptr == Min(moved, t.length)
    ensures Legal(t, 0, tkn, piece) <==> Min(moved + |piece|, t.length) <= EP0_BUF
  {
  }

  lemma SetupLength(s: Control, p: seq<byte>)
    requires Valid(s) && |p| >= 8
    ensures Legal(s, 0, SETUP, p)
    ensures var t := Xfr(s, 0, SETUP, p).s;
            t.inSetup && t.ptr == 0 && t.reqType == p[0] &&
            (!FromDevice(p[0]) || !Known(KindOf(p)) ==> t.length == LengthOf(p)) &&
            (FromDevice(p[0]) && Known(KindOf(p)) ==> t.length <= 63)
  {
    hide Prepared, Asked;
  }

  /** The device never compares wLength with the size of its buffer.  The next piece of a write stays
      inside the buffer if and only if all that is sent, up to wLength, fits it. */
  lemma WriteInsideIff(s: Control, p: seq<byte>, events: seq<Event>, piece: seq<byte>)
    requires Valid(s) && |p| >= 8 && !FromDevice(p[0])
    requires (forall e <- events :: WhileWriting(e)) && Min(|Sent(events)|, LengthOf(p)) <= EP0_BUF
    ensures Legal(Write(Xfr(s, 0, SETUP, p).s, events).0, 0, OUT, piece) <==>
            Min(|Sent(events)| + |piece|, LengthOf(p)) <= EP0_BUF
  {
    hide Legal, Write, Xfr, WhileWriting, LengthOf, KindOf, Sent;
    SetupLength(s, p);
    PieceInside(Write(Xfr(s, 0, SETUP, p).s, events).0, OUT, |Sent(events)|, piece);
  }

  /** Likewise for a read: one of a known descriptor always does, one that was refused if and only if all
      that is asked for, up to wLength, lies in the buffer. */
  lemma ReadInsideIff(s: Control, p: seq<byte>, events: seq<Event>, buffer: seq<byte>)
    requires Valid(s) && |p| >= 8 && FromDevice(p[0]) && (forall e <- events :: WhileReading(e))
    requires Known(KindOf(p)) || Min(Requested(events), LengthOf(p)) <= EP0_BUF
    ensures Legal(Read(Xfr(s, 0, SETUP, p).s, events).0, 0, IN, buffer) <==>
            Known(KindOf(p)) || Min(Requested(events) + |buffer|, LengthOf(p)) <= EP0_BUF
  {
    hide Legal, Read, Xfr, WhileReading, LengthOf, KindOf, Requested, Known;
    SetupLength(s, p);
    PieceInside(Read(Xfr(s, 0, SETUP, p).s, events).0, IN, Requested(events), buffer);
  }

  /** Requests that leave it: a SET_REPORT of 1024 bytes sent at once, and the second of two reads of 512
      bytes after a refused request for 1024. */
  lemma WriteOutside(s: Control)
    requires Valid(s)
    ensures !Legal(Xfr(s, 0, SETUP, [0x21, 0x09, 0, 2, 0, 0, 0, 4]).s, 0, OUT, Zeros(1024))
  {
    WriteInsideIff(s, [0x21, 0x09, 0, 2, 0, 0, 0, 4], [], Zeros(1024));
  }

  lemma ReadOutside(s: Control)
    requires Valid(s)
    ensures var t := Xfr(s, 0, SETUP, [0x80, 6, 0, 6, 0, 0, 0, 4]).s;
            !Legal(Read(t, [Event(0, IN, Zeros(512))]).0, 0, IN, Zeros(512))
  {
    hide DoSetup, DoIn, Read;
    var p, e := [0x80, 6, 0, 6, 0, 0, 0, 4], Event(0, IN, Zeros(512));
    assert [e][..0] == [];
    assert !Known(KindOf(p)) && LengthOf(p) == 1024 && Requested([e]) == 512;
    ReadInsideIff(s, p, [e], Zeros(512));
  }

  /** In no state does any other transfer change the address. */
  lemma AddressKept(s: Control, e: Event)
    requires Legal(s, e.ep, e.tkn, e.data)
    ensures Xfr(s, e.ep, e.tkn, e.data).s.addr ==
            if Is(e, IN) && s.inSetup && s.reqType == 0 && s.request == 5 then s.value % 256 else s.addr
  {
    hide Prepared, Asked, Descriptor, Put;
  }

  /** After its status stage a control transfer is over: until the next SETUP, endpoint 0 stalls. */
  lemma {:induction false} OverUntilSetup(s: Control, events: seq<Event>, e: Event)
    requires Valid(s) && !s.inSetup && forall f <- events :: f.ep < 16 && !Is(f, SETUP)
    requires Is(e, IN) || Is(e, OUT)
    ensures var t := Later(s, events);
            Xfr(t, 0, e.tkn, e.data) == Done(t, STALL, e.data) && t == s.(hasReport := t.hasReport)
  {
    if events != [] {
      OverUntilSetup(s, events[..|events| - 1], e);
      assert !Is(events[|events| - 1], SETUP);
    }
  }

  function Later(s: Control, events: seq<Event>): (t: Control)
    requires Valid(s) && !s.inSetup && forall f <- events :: f.ep < 16 && !Is(f, SETUP)
    ensures Valid(t) && !t.inSetup
  {
    if events == [] then s
    else
      var last := events[|events| - 1];
      assert !Is(last, SETUP);
      Xfr(Later(s, events[..|events| - 1]), last.ep, last.tkn, last.data).s
  }

  /** Transfers on any endpoint, leaving out those that would leave a buffer. */
  function Played(s: Control, events: seq<Event>): (t: Control)
    requires Valid(s)
    ensures Valid(t)
  {
    if events == [] then s
    else
      var t, e := Played(s, events[..|events| - 1]), events[|events| - 1];
      if Legal(t, e.ep, e.tkn, e.data) then Xfr(t, e.ep, e.tkn, e.data).s else t
  }

  predicate AsksReport(e: Event) {
    e.ep == 1 && e.tkn == IN
  }

  lemma {:induction false} ReportKept(s: Control, events: seq<Event>)
    requires Valid(s) && forall e <- events :: AsksReport(e) ==> !s.hasReport
    ensures var t := Played(s, events); t.hasReport == s.hasReport && t.report == s.report
  {
    hide DoSetup, Put;
    if events != [] {
      var init, e := events[..|events| - 1], events[|events| - 1];
      assert e in events && forall f <- init :: f in events;
      ReportKept(s, init);
      if |e.data| >= 8 {
        SetupKeepsReport(Played(s, init), e.data);
      }
    }
  }

  lemma SetupKeepsReport(s: Control, data: seq<byte>)
    requires Valid(s) && |data| >= 8
    ensures var t := DoSetup(s, data).s; t.hasReport == s.hasReport && t.report == s.report
  {
  }

  /** A report is given once: whatever happens on the control endpoint before, the first interrupt transfer
      gets it, cut to its buffer, and from then on every one is told to wait. */
  lemma ReportOnce(s: Control, before: seq<Event>, buffer: seq<byte>, later: seq<Event>, next: seq<byte>)
    requires Valid(s) && s.hasReport && forall e <- before :: !AsksReport(e)
    ensures var r := Xfr(Played(s, before), 1, IN, buffer);
            var t := Played(r.s, later);
            r.res == Min(8, |buffer|) && r.data == s.report[..r.res] + buffer[r.res..] &&
            Xfr(t, 1, IN, next) == Done(t, NAK, next)
  {
    hide Played;
    ReportKept(s, before);
    ReportKept(Xfr(Played(s, before), 1, IN, buffer).s, later);
  }

  /** Descriptors in a row, each with its length in front and its type behind that. */
  predicate Chained(d: seq<byte>, types: seq<byte>)
    decreases |d|
  {
    if d == [] then types == []
    else
      |d| >= 2 && 2 <= d[0] <= |d| && types != [] && d[1] == types[0] && Chained(d[d[0]..], types[1..])
  }

  /** The configuration is a chain of configuration, interface, HID and endpoint descriptor, and the HID
      descriptor names the length of the report descriptor. */
  lemma ConfigChain()
    ensures var d := ConfigDescriptor();
            Chained(d, [2, 4, 0x21, 5]) && d[9..][9..][6] == 0x22 &&
            Word(d[9..][9..][7], d[9..][9..][8]) == |ReportDescriptor()|
    ensures Chained(DeviceDescriptor(), [1])
  {
    var d := ConfigDescriptor();
    var d1, d2, d3 := d[9..], d[9..][9..], d[9..][9..][9..];
    assert d3[7..] == [] && [5 as byte][1..] == [];
    assert Chained(d3, [5]);
    assert [0x21 as byte, 5][1..] == [5] && Chained(d2, [0x21, 5]);
    assert [4 as byte, 0x21, 5][1..] == [0x21, 5] && Chained(d1, [4, 0x21, 5]);
    assert [2 as byte, 4, 0x21, 5][1..] == [4, 0x21, 5];
    assert DeviceDescriptor()[18..] == [] && [1 as byte][1..] == [];
  }

  /** The read of a descriptor ends with an OUT, whatever has been read by then. */
  lemma StatusOfRead(s: Control, ack: seq<byte>)
    requires Reading(s)
    ensures Xfr(s, 0, OUT, ack) == Done(s.(inSetup := false), |ack|, ack)
  {
  }
}
