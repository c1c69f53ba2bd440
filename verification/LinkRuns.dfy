/**
 Both ends of one direction of the stream: packets pushed on the sender, any partial writes, any read
 chunks on the receiver and any drains, including drains cut short by a failed allocation.
 The steps are the contracts of TxQueue.Queue.Push and Flush and of RxRing.Ring.Receive and
 ProcessRxq, with the bytes on their way in between.
 */
module LinkRuns {
  import opened Wire
  import opened RxRing

  datatype Link = Link(unsent: seq<byte>, wire: seq<byte>, ring: seq<byte>,
                       pushed: seq<Packet>, dispatched: seq<Packet>)

  datatype Step =
    | Push(p: Packet)
    | Write(n: nat)
    | Read(n: nat)
    | Drain(budget: nat)

  const Idle := Link([], [], [], [], [])

  function Next(l: Link, step: Step): Link {
    match step
    case Push(p) =>
      if p.Sendable() then l.(unsent := l.unsent + Frame(p), pushed := l.pushed + [p]) else l
    case Write(n) =>
      var k := Min(n, |l.unsent|);
      l.(unsent := l.unsent[k..], wire := l.wire + l.unsent[..k])
    case Read(n) =>
      var k := if |l.ring| <= RX_BUF then Min(n, Min(|l.wire|, RX_BUF - |l.ring|)) else 0;
      l.(wire := l.wire[k..], ring := l.ring + l.wire[..k])
    case Drain(budget) =>
      if HeadersOk(l.ring) then
        var d := RxRing.Drain(l.ring, budget);
        l.(ring := d.rest, dispatched := l.dispatched + d.taken)
      else l
  }

  function Run(l: Link, steps: seq<Step>): Link {
    if steps == [] then l else Next(Run(l, steps[..|steps| - 1]), steps[|steps| - 1])
  }

  /** The packets the receiver does not skip. */
  function Small(ps: seq<Packet>): seq<Packet> {
    if ps == [] then []
    else Kept(ps[0]) + Small(ps[1..])
  }

  function Kept(p: Packet): seq<Packet> {
    if Pad4(p.Len()) <= MAX_PKT then [p] else []
  }

  lemma {:induction false} SmallConcat(ps: seq<Packet>, qs: seq<Packet>)
    ensures Small(ps + qs) == Small(ps) + Small(qs)
  {
    if ps == [] {
      assert ps + qs == qs;
    } else {
      assert (ps + qs)[1..] == ps[1..] + qs;
      SmallConcat(ps[1..], qs);
      Assoc(Kept(ps[0]), Small(ps[1..]), Small(qs));
    }
  }

  ghost predicate AllSendable(ps: seq<Packet>) {
    forall p <- ps :: p.Sendable()
  }

  /** The first k packets have been consumed, and the bytes under way are exactly the rest. */
  ghost predicate Consistent(l: Link, k: nat) {
    k <= |l.pushed| && AllSendable(l.pushed) && |l.ring| <= RX_BUF &&
    l.dispatched == Small(l.pushed[..k]) &&
    l.ring + (l.wire + l.unsent) == Frames(l.pushed[k..])
  }

  /** The header at the front of a frame sequence is that of its first packet. */
  lemma FrontFrame(s: seq<byte>, tail: seq<byte>, ps: seq<Packet>)
    requires AllSendable(ps) && s + tail == Frames(ps) && |s| >= 8
    ensures ps != [] && GetLE16(s, 0) == ps[0].Len()
    ensures Whole(s) ==> Decode(s) == ps[0] && s[NextLen(s)..] + tail == Frames(ps[1..])
  {
    assert |Frames(ps)| >= 8;
    var others := Frames(ps[1..]);
    DecodeFrame(ps[0], others);
    assert s[0] == (s + tail)[0] && s[1] == (s + tail)[1];
    if Whole(s) {
      var n := NextLen(s);
      assert (s + tail)[n..] == s[n..] + tail && (Frame(ps[0]) + others)[n..] == others;
      assert s[..n] == (s + tail)[..n] == (Frame(ps[0]) + others)[..n];
      DecodePrefix(s, n);
      DecodePrefix(s + tail, n);
    }
  }

  lemma {:induction false} PrefixHeadersOk(s: seq<byte>, tail: seq<byte>, ps: seq<Packet>)
    requires AllSendable(ps) && s + tail == Frames(ps)
    ensures HeadersOk(s)
    decreases |s|
  {
    if |s| >= 8 {
      FrontFrame(s, tail, ps);
      if Whole(s) {
        PrefixHeadersOk(s[NextLen(s)..], tail, ps[1..]);
      }
    }
  }

  /** The first m packets of ps were taken, and what is left of the stream starts the others. */
  ghost predicate Took(d: Drained, tail: seq<byte>, ps: seq<Packet>, m: nat) {
    m <= |ps| && d.taken == Small(ps[..m]) && d.rest + tail == Frames(ps[m..])
  }

  lemma TookOneMore(d: Drained, tail: seq<byte>, p: Packet, ps: seq<Packet>, m: nat)
    requires Took(d, tail, ps, m)
    ensures Took(Drained(Kept(p) + d.taken, d.rest), tail, [p] + ps, m + 1)
  {
    assert ([p] + ps)[m + 1..] == ps[m..];
    assert ([p] + ps)[..m + 1][1..] == ps[..m];
  }

  lemma TookNone(s: seq<byte>, tail: seq<byte>, ps: seq<Packet>)
    requires s + tail == Frames(ps)
    ensures Took(Drained([], s), tail, ps, 0)
  {
    assert ps[0..] == ps && ps[..0] == [];
  }

  /** A drain of any prefix of the stream takes whole packets off its front. */
  lemma {:induction false} DrainPrefix(s: seq<byte>, tail: seq<byte>, ps: seq<Packet>, budget: nat) returns (m: nat)
    requires AllSendable(ps) && s + tail == Frames(ps) && HeadersOk(s)
    ensures Took(RxRing.Drain(s, budget), tail, ps, m)
    decreases |s|
  {
    hide Took, Frames, Decode;
    if !Whole(s) || (NextLen(s) <= MAX_PKT && budget == 0) {
      m := 0;
      TookNone(s, tail, ps);
    } else {
      FrontFrame(s, tail, ps);
      var left := budget - |First(s)|;
      var n := DrainPrefix(s[NextLen(s)..], tail, ps[1..], left);
      TookOneMore(RxRing.Drain(s[NextLen(s)..], left), tail, ps[0], ps[1..], n);
      assert ps == [ps[0]] + ps[1..];
      m := n + 1;
    }
  }

  lemma PushKeeps(l: Link, p: Packet, k: nat)
    requires Consistent(l, k) && p.Sendable()
    ensures Consistent(Next(l, Push(p)), k)
  {
    var rest := l.pushed[k..];
    assert (l.pushed + [p])[..k] == l.pushed[..k] && (l.pushed + [p])[k..] == rest + [p];
    FramesSnoc(rest, p);
    Assoc(l.wire, l.unsent, Frame(p));
    Assoc(l.ring, l.wire + l.unsent, Frame(p));
  }

  lemma DrainKeeps(l: Link, budget: nat, k: nat) returns (k': nat)
    requires Consistent(l, k)
    ensures k <= k' && Consistent(Next(l, Drain(budget)), k')
  {
    var tail, rest := l.wire + l.unsent, l.pushed[k..];
    PrefixHeadersOk(l.ring, tail, rest);
    var m := DrainPrefix(l.ring, tail, rest, budget);
    TakeDrop(l.pushed, k, m);
    SmallConcat(l.pushed[..k], rest[..m]);
    k' := k + m;
  }

  lemma WriteKeeps(l: Link, n: nat, k: nat)
    requires Consistent(l, k)
    ensures Consistent(Next(l, Write(n)), k)
  {
    var m := Min(n, |l.unsent|);
    assert l.unsent == l.unsent[..m] + l.unsent[m..];
    Assoc(l.wire, l.unsent[..m], l.unsent[m..]);
  }

  lemma ReadKeeps(l: Link, n: nat, k: nat)
    requires Consistent(l, k)
    ensures Consistent(Next(l, Read(n)), k)
  {
    var m := Min(n, Min(|l.wire|, RX_BUF - |l.ring|));
    Assoc(l.wire[..m], l.wire[m..], l.unsent);
    Assoc(l.ring, l.wire[..m], l.wire[m..] + l.unsent);
    assert l.wire == l.wire[..m] + l.wire[m..];
  }

  lemma NextKeeps(l: Link, step: Step, k: nat) returns (k': nat)
    requires Consistent(l, k)
    ensures k <= k' && Consistent(Next(l, step), k')
  {
    k' := k;
    match step
    case Push(p) =>
      if p.Sendable() {
        PushKeeps(l, p, k);
      }
    case Write(n) =>
      WriteKeeps(l, n, k);
    case Read(n) =>
      ReadKeeps(l, n, k);
    case Drain(budget) =>
      k' := DrainKeeps(l, budget, k);
  }

  /** Safety of framing: in every reachable state the dispatched packets are those pushed first, in
      order and once each, less the oversized ones, and every byte of the others is still under way. */
  lemma {:induction false} FramingSafe(steps: seq<Step>) returns (k: nat)
    ensures Consistent(Run(Idle, steps), k)
  {
    if steps == [] {
      k := 0;
    } else {
      k := FramingSafe(steps[..|steps| - 1]);
      k := NextKeeps(Run(Idle, steps[..|steps| - 1]), steps[|steps| - 1], k);
    }
  }

  /** Completeness of framing: once nothing is unsent or on the wire, a drain that finds memory
      dispatches everything that was pushed, so a failed allocation only ever delays a packet. */
  lemma FramingComplete(steps: seq<Step>, budget: nat)
    requires var l := Run(Idle, steps);
             l.unsent == l.wire == [] && budget >= RX_BUF
    ensures var l := Next(Run(Idle, steps), Drain(budget));
            l.dispatched == Small(l.pushed) && l.ring == []
  {
    var l := Run(Idle, steps);
    var k := FramingSafe(steps);
    assert l.wire + l.unsent == [] && l.ring + [] == l.ring;
    PrefixHeadersOk(l.ring, [], l.pushed[k..]);
    var m := NextKeeps(l, Drain(budget), k);
    var done := Next(l, Drain(budget));
    DrainStops(l.ring, budget);
    assert done.ring + (done.wire + done.unsent) == done.ring;
    if m < |l.pushed| {
      var rest := l.pushed[m..];
      assert Frames(rest) == Frame(rest[0]) + Frames(rest[1..]);
      DecodeFrame(rest[0], Frames(rest[1..]));
      assert false;
    }
    assert l.pushed[..m] == l.pushed;
  }

  /** With memory for every packet a drain leaves no whole frame behind. */
  lemma {:induction false} DrainStops(s: seq<byte>, budget: nat)
    requires HeadersOk(s) && |s| <= budget
    ensures !Whole(RxRing.Drain(s, budget).rest)
    decreases |s|
  {
    if Whole(s) {
      DrainStops(s[NextLen(s)..], budget - |First(s)|);
    }
  }

  /** A frame whose padded length exceeds the ring blocks the stream for good: once it fills the ring
      nothing is read or dispatched any more, whatever happens next. */
  lemma {:induction false} OversizeBlocks(l: Link, steps: seq<Step>)
    requires |l.ring| == RX_BUF && HeadersOk(l.ring) && NextLen(l.ring) > RX_BUF
    ensures Run(l, steps).ring == l.ring && Run(l, steps).dispatched == l.dispatched
  {
    if steps != [] {
      OversizeBlocks(l, steps[..|steps| - 1]);
    }
  }

  /** If every packet pushed fits the ring, a drain that finds memory always makes room, so that in no
      reachable state reading is shut out. */
  lemma RoomAlways(steps: seq<Step>, budget: nat)
    requires budget >= RX_BUF && forall p <- Run(Idle, steps).pushed :: Pad4(p.Len()) <= RX_BUF
    ensures |Next(Run(Idle, steps), Drain(budget)).ring| < RX_BUF
  {
    hide Run, Frame, Small;
    var l := Run(Idle, steps);
    var k := FramingSafe(steps);
    var tail, rest := l.wire + l.unsent, l.pushed[k..];
    PrefixHeadersOk(l.ring, tail, rest);
    DrainMakesRoom(l.ring, budget);
    if |l.ring| == RX_BUF {
      FrontFrame(l.ring, tail, rest);
      assert rest[0] in l.pushed;
    }
  }

  lemma {:induction false} FrameWithin(ps: seq<Packet>, i: nat)
    requires i < |ps|
    ensures |Frame(ps[i])| <= |Frames(ps)|
  {
    hide Frame;
    if i > 0 {
      FrameWithin(ps[1..], i - 1);
    }
  }

  lemma TookLength(s: seq<byte>, tail: seq<byte>, ps: seq<Packet>, d: Drained, m: nat)
    requires s + tail == Frames(ps) && Took(d, tail, ps, m)
    ensures |Frames(ps[..m])| + |d.rest| == |s|
  {
    hide Frames, Small;
    FramesConcat(ps[..m], ps[m..]);
    assert ps == ps[..m] + ps[m..];
    assert |s + tail| == |s| + |tail| && |d.rest + tail| == |d.rest| + |tail|;
  }

  lemma LargeAmong(ps: seq<Packet>, m: nat, i: nat)
    requires i < m <= |ps| && Pad4(ps[i].Len()) > RX_BUF
    ensures |Frames(ps[..m])| > RX_BUF
  {
    hide Frame, Frames;
    FrameWithin(ps[..m], i);
    FrameLength(ps[i]);
  }

  /** What has been consumed fits what was in the ring. */
  lemma TookFits(s: seq<byte>, tail: seq<byte>, ps: seq<Packet>, d: Drained, m: nat, i: nat)
    requires s + tail == Frames(ps) && Took(d, tail, ps, m) && |s| <= RX_BUF
    requires i < |ps| && Pad4(ps[i].Len()) > RX_BUF
    ensures m <= i
  {
    hide Frames, Small;
    TookLength(s, tail, ps, d, m);
    if m > i {
      LargeAmong(ps, m, i);
    }
  }

  lemma FrameLength(p: Packet)
    ensures |Frame(p)| == Pad4(p.Len())
  {
  }

  lemma DrainStopsAt(l: Link, budget: nat, k: nat, i: nat) returns (k': nat)
    requires Consistent(l, k) && k <= i < |l.pushed| && Pad4(l.pushed[i].Len()) > RX_BUF
    ensures k <= k' <= i && Consistent(Next(l, Drain(budget)), k')
  {
    hide Frame, Frames, Small;
    var tail, rest := l.wire + l.unsent, l.pushed[k..];
    PrefixHeadersOk(l.ring, tail, rest);
    var m := DrainPrefix(l.ring, tail, rest, budget);
    TookFits(l.ring, tail, rest, RxRing.Drain(l.ring, budget), m, i - k);
    TakeDrop(l.pushed, k, m);
    SmallConcat(l.pushed[..k], rest[..m]);
    k' := k + m;
  }

  lemma ConsumedBound(l: Link, k: nat)
    requires Consistent(l, k)
    ensures k <= |l.pushed|
  {
  }

  lemma DrainPushes(l: Link, budget: nat)
    ensures Next(l, Drain(budget)).pushed == l.pushed
  {
  }

  /** One step never consumes the large packet at i. */
  lemma NextStops(l: Link, step: Step, k: nat, i: nat) returns (k': nat)
    requires Consistent(l, k) && k <= i
    requires i < |l.pushed| ==> Pad4(l.pushed[i].Len()) > RX_BUF
    ensures k <= k' <= i && Consistent(Next(l, step), k')
  {
    hide Consistent, Next;
    if !step.Drain? {
      k' := StillConsistent(l, step, k);
    } else if i < |l.pushed| {
      k' := DrainStopsAt(l, step.budget, k, i);
    } else {
      k' := NextKeeps(l, step, k);
      ConsumedBound(Next(l, step), k');
      DrainPushes(l, step.budget);
    }
  }

  /** Only a drain consumes packets. */
  lemma StillConsistent(l: Link, step: Step, k: nat) returns (k': nat)
    requires Consistent(l, k) && !step.Drain?
    ensures k' == k && Consistent(Next(l, step), k)
  {
    k' := k;
    match step
    case Push(p) =>
      if p.Sendable() {
        PushKeeps(l, p, k);
      }
    case Write(n) =>
      WriteKeeps(l, n, k);
    case Read(n) =>
      ReadKeeps(l, n, k);
  }

  /** A packet larger than the ring blocks the stream, wherever in a run it is pushed: only packets pushed
      before it are ever consumed. */
  lemma {:induction false} OversizeRun(steps: seq<Step>, i: nat) returns (k: nat)
    requires i < |Run(Idle, steps).pushed| && Pad4(Run(Idle, steps).pushed[i].Len()) > RX_BUF
    ensures k <= i && Consistent(Run(Idle, steps), k)
  {
    k := OversizePrefix(steps, i, Run(Idle, steps).pushed);
  }

  lemma {:induction false} OversizePrefix(steps: seq<Step>, i: nat, pushed: seq<Packet>) returns (k: nat)
    requires Run(Idle, steps).pushed <= pushed && i < |pushed| && Pad4(pushed[i].Len()) > RX_BUF
    ensures k <= i && Consistent(Run(Idle, steps), k)
  {
    hide Consistent, Frame;
    if steps == [] {
      k := FramingSafe(steps);
      NothingYet(k);
    } else {
      var before := Run(Idle, steps[..|steps| - 1]);
      assert before.pushed <= Run(Idle, steps).pushed by {
        PushedGrows(before, steps[|steps| - 1]);
      }
      k := OversizePrefix(steps[..|steps| - 1], i, pushed);
      k := NextStops(before, steps[|steps| - 1], k, i);
    }
  }

  lemma NothingYet(k: nat)
    requires Consistent(Idle, k)
    ensures k == 0
  {
  }

  lemma PushedGrows(l: Link, step: Step)
    ensures l.pushed <= Next(l, step).pushed
  {
  }

  lemma RunSnoc(l: Link, steps: seq<Step>, step: Step)
    ensures Run(l, steps + [step]) == Next(Run(l, steps), step)
  {
    assert (steps + [step])[..|steps|] == steps;
  }

  /** Such a run, with a packet behind the large one that would fit. */
  lemma OversizeExample()
    ensures var large, little := Packet(1, 0, 0, 0, Zeros(5000)), Packet(1, 0, 0, 0, []);
            var l := Run(Idle, [] + [Push(large)] + [Push(little)] + [Write(6000)] + [Read(6000)] + [Drain(RX_BUF)]);
            l.pushed == [large, little] && l.dispatched == []
  {
    hide Frame, Next;
    var large, little := Packet(1, 0, 0, 0, Zeros(5000)), Packet(1, 0, 0, 0, []);
    RunSnoc(Idle, [], Push(large));
    RunSnoc(Idle, [] + [Push(large)], Push(little));
    RunSnoc(Idle, [] + [Push(large)] + [Push(little)], Write(6000));
    RunSnoc(Idle, [] + [Push(large)] + [Push(little)] + [Write(6000)], Read(6000));
    RunSnoc(Idle, [] + [Push(large)] + [Push(little)] + [Write(6000)] + [Read(6000)], Drain(RX_BUF));
    PushedByFive(large, little);
    var k := OversizeRun([] + [Push(large)] + [Push(little)] + [Write(6000)] + [Read(6000)] + [Drain(RX_BUF)], 0);
    assert Small([]) == [];
  }

  lemma PushedByFive(p: Packet, q: Packet)
    requires p.Sendable() && q.Sendable()
    ensures var l := Next(Next(Idle, Push(p)), Push(q));
            Next(Next(Next(l, Write(6000)), Read(6000)), Drain(RX_BUF)).pushed == [p, q]
  {
    hide Frame, RxRing.Drain, HeadersOk;
  }

  /** One round of the link: drain, write at least n bytes or all, read likewise. */
  function Round(l: Link, n: nat, budget: nat): Link {
    Next(Next(Next(l, Drain(budget)), Write(n)), Read(n))
  }

  function Rounds(l: Link, count: nat, n: nat, budget: nat): Link {
    if count == 0 then l else Round(Rounds(l, count - 1, n, budget), n, budget)
  }

  /** The bytes still to come, weighed by how far they have to go. */
  function Way(l: Link): nat {
    3 * |l.unsent| + 2 * |l.wire| + |l.ring|
  }

  ghost predicate AllFit(ps: seq<Packet>) {
    forall p <- ps :: Pad4(p.Len()) <= RX_BUF
  }

  /** A drain with memory leaves room, and empties the ring if nothing else is under way. */
  lemma DrainProgress(l: Link, k: nat, budget: nat)
    requires Consistent(l, k) && AllFit(l.pushed) && budget >= RX_BUF
    ensures var d := Next(l, Drain(budget));
            |d.ring| <= |l.ring| && |d.ring| < RX_BUF && d.pushed == l.pushed && d.wire == l.wire &&
              d.unsent == l.unsent &&
            (l.wire == l.unsent == [] ==> d.ring == [])
  {
    hide Frame, Small;
    var tail, rest := l.wire + l.unsent, l.pushed[k..];
    PrefixHeadersOk(l.ring, tail, rest);
    DrainMakesRoom(l.ring, budget);
    if |l.ring| == RX_BUF {
      FrontFrame(l.ring, tail, rest);
      assert rest[0] in l.pushed;
    }
    if l.wire == l.unsent == [] {
      var k' := DrainKeeps(l, budget, k);
      var d := Next(l, Drain(budget));
      DrainStops(l.ring, budget);
      assert d.ring + (d.wire + d.unsent) == d.ring;
      NothingLeft(d.ring, l.pushed[k'..]);
    }
  }

  /** Frames that are all there and of which none is whole: there are none. */
  lemma NothingLeft(s: seq<byte>, ps: seq<Packet>)
    requires AllSendable(ps) && s == Frames(ps) && !Whole(s)
    ensures s == []
  {
    if ps != [] {
      FrontWhole(ps);
    }
  }

  lemma FrontWhole(ps: seq<Packet>)
    requires AllSendable(ps) && ps != []
    ensures Whole(Frames(ps))
  {
    DecodeFrame(ps[0], Frames(ps[1..]));
  }

  lemma NoFrames(ps: seq<Packet>)
    requires Frames(ps) == []
    ensures ps == []
  {
  }

  lemma RoundProgress(l: Link, k: nat, n: nat, budget: nat) returns (k': nat)
    requires Consistent(l, k) && AllFit(l.pushed) && n > 0 && budget >= RX_BUF
    ensures var r := Round(l, n, budget);
            Consistent(r, k') && r.pushed == l.pushed && (Way(r) < Way(l) || Way(r) == 0)
  {
    hide Consistent, Frame;
    DrainProgress(l, k, budget);
    k' := NextKeeps(l, Drain(budget), k);
    var d := Next(l, Drain(budget));
    WriteKeeps(d, n, k');
    var w := Next(d, Write(n));
    ReadKeeps(w, n, k');
    RoomIn(d, n);
  }

  lemma RoomIn(d: Link, n: nat)
    requires |d.ring| < RX_BUF && n > 0
    ensures var r := Next(Next(d, Write(n)), Read(n));
            r.pushed == d.pushed && Way(r) <= Way(d) && (d.unsent != [] || d.wire != [] ==> Way(r) < Way(d))
  {
  }

  /** Delivery: from any reachable state in which every packet pushed fits the ring, after as many rounds
      as there are bytes to go, weighed by their way, everything has been dispatched, however little is
      written and read in a round. */
  lemma {:induction false} Delivered(steps: seq<Step>, count: nat, n: nat, budget: nat)
    requires AllFit(Run(Idle, steps).pushed) && n > 0 && budget >= RX_BUF && count >= Way(Run(Idle, steps))
    ensures var l := Rounds(Run(Idle, steps), count, n, budget);
            l.pushed == Run(Idle, steps).pushed && l.dispatched == Small(l.pushed) &&
            l.unsent == l.wire == l.ring == []
  {
    var k := FramingSafe(steps);
    k := RoundsProgress(Run(Idle, steps), k, count, n, budget);
    var l := Rounds(Run(Idle, steps), count, n, budget);
    assert l.ring + (l.wire + l.unsent) == [];
    NoFrames(l.pushed[k..]);
    assert l.pushed[..k] == l.pushed;
  }

  lemma {:induction false} RoundsProgress(l: Link, k: nat, count: nat, n: nat, budget: nat) returns (k': nat)
    requires Consistent(l, k) && AllFit(l.pushed) && n > 0 && budget >= RX_BUF
    ensures var r := Rounds(l, count, n, budget);
            Consistent(r, k') && r.pushed == l.pushed && Way(r) <= if count <= Way(l) then Way(l) - count else 0
  {
    hide Consistent, Round, AllFit, Way;
    k' := k;
    if count > 0 {
      k' := RoundsProgress(l, k, count - 1, n, budget);
      k' := RoundProgress(Rounds(l, count - 1, n, budget), k', n, budget);
    }
  }
}
