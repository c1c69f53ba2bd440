/**
 The receive side: a 4096-byte ring driven by two free-running 32-bit counters, and the loop that
 cuts packets out of it.  `Drain` is that loop on a plain byte string.
 */
module RxRing {
  import opened Wire

  /** The padded length of the frame whose header starts s. */
  function NextLen(s: seq<byte>): (n: nat)
    requires |s| >= 8
    ensures n % 4 == 0
  {
    Pad4(GetLE16(s, 0))
  }

  predicate Whole(s: seq<byte>) {
    |s| >= 8 && NextLen(s) <= |s|
  }

  /** Every frame whose header has arrived is at least as long as its own header. */
  predicate HeadersOk(s: seq<byte>)
    decreases |s|
  {
    |s| >= 8 ==>
      8 <= GetLE16(s, 0) && (Whole(s) ==> HeadersOk(s[NextLen(s)..]))
  }

  datatype Drained = Drained(taken: seq<Packet>, rest: seq<byte>)

  /** The packets dispatched from s and the bytes left over, when `budget` packets find memory
      before an allocation fails. */
  function Drain(s: seq<byte>, budget: nat): (d: Drained)
    requires HeadersOk(s)
    ensures |d.rest| <= |s| && HeadersOk(d.rest)
    decreases |s|
  {
    if !Whole(s) || (NextLen(s) <= MAX_PKT && budget == 0) then
      Drained([], s)
    else
      var d := Drain(s[NextLen(s)..], budget - |First(s)|);
      Drained(First(s) + d.taken, d.rest)
  }

  /** The packet handed on for the first frame of s, if it is not oversized. */
  function First(s: seq<byte>): (ps: seq<Packet>)
    requires Whole(s) && HeadersOk(s)
    ensures |ps| <= 1
  {
    if NextLen(s) > MAX_PKT then [] else [Decode(s)]
  }

  /** The outcome of a drain that has already taken packets and has `rest` to go. */
  ghost function Resume(taken: seq<Packet>, rest: seq<byte>, budget: nat): Drained
    requires HeadersOk(rest)
  {
    var d := Drain(rest, budget);
    Drained(taken + d.taken, d.rest)
  }

  lemma ResumeNext(taken: seq<Packet>, rest: seq<byte>, budget: nat,
        taken': seq<Packet>, rest': seq<byte>, budget': nat)
    requires HeadersOk(rest) && Whole(rest) && |First(rest)| <= budget
    requires taken' == taken + First(rest) && rest' == rest[NextLen(rest)..] && budget' == budget - |First(rest)|
    ensures HeadersOk(rest') && Resume(taken', rest', budget') == Resume(taken, rest, budget)
  {
    Assoc(taken, First(rest), Drain(rest', budget').taken);
  }

  /** After a drain that finds memory the ring has room again, so that reading resumes, exactly when
      the next frame fits the ring at all. */
  lemma {:induction false} DrainMakesRoom(s: seq<byte>, budget: nat)
    requires HeadersOk(s) && |s| <= RX_BUF <= budget
    ensures |Drain(s, budget).rest| < RX_BUF <==> !(|s| == RX_BUF && NextLen(s) > RX_BUF)
  {
    if Whole(s) {
      var next := s[NextLen(s)..];
      assert |Drain(next, budget - |First(s)|).rest| <= |next|;
    }
  }

  lemma DecodePrefix(s: seq<byte>, n: nat)
    requires 8 <= n <= |s| && 8 <= GetLE16(s, 0) <= n
    ensures Decode(s[..n]) == Decode(s)
  {
    assert s[..n][8..GetLE16(s, 0)] == s[8..GetLE16(s, 0)];
  }

  /** n bytes of the ring from the free-running position start. */
  function Window(ring: seq<byte>, start: nat, n: nat): (s: seq<byte>)
    requires |ring| == RX_BUF
    ensures |s| == n
  {
    seq(n, i requires 0 <= i => ring[(start + i) % RX_BUF])
  }

  lemma ModApart(a: nat, d: nat)
    requires 0 < d < RX_BUF
    ensures (a + d) % RX_BUF != a % RX_BUF
  {
  }

  lemma ModNear(a: nat, d: nat)
    requires a % RX_BUF + d < RX_BUF
    ensures (a + d) % RX_BUF == a % RX_BUF + d
  {
  }

  lemma ModWrap(a: nat, d: nat)
    ensures (a % WRAP + d) % RX_BUF == (a + d) % RX_BUF
  {
  }

  lemma ModOutside(start: nat, n: nat, len: nat, i: nat)
    requires i < n && n + len <= RX_BUF && (start + n) % RX_BUF + len <= RX_BUF
    ensures var at := (start + i) % RX_BUF;
            at < (start + n) % RX_BUF || (start + n) % RX_BUF + len <= at
  {
    var k := (start + i) % RX_BUF - (start + n) % RX_BUF;
    if 0 <= k < len {
      ModNear(start + n, k);
      ModApart(start + i, n + k - i);
      assert false;
    }
  }

  lemma WindowExtend(before: seq<byte>, after: seq<byte>, start: nat, n: nat, more: seq<byte>)
    requires |before| == |after| == RX_BUF
    requires n + |more| <= RX_BUF
    requires (start + n) % RX_BUF + |more| <= RX_BUF
    requires var offs := (start + n) % RX_BUF;
             after == before[..offs] + more + before[offs + |more|..]
    ensures Window(after, start, n + |more|) == Window(before, start, n) + more
  {
    var offs := (start + n) % RX_BUF;
    forall i | 0 <= i < n + |more|
      ensures after[(start + i) % RX_BUF] == (Window(before, start, n) + more)[i]
    {
      if i >= n {
        ModNear(start + n, i - n);
      } else {
        ModOutside(start, n, |more|, i);
      }
    }
  }

  lemma WindowDrop(ring: seq<byte>, start: nat, n: nat, k: nat)
    requires |ring| == RX_BUF && k <= n
    ensures Window(ring, start, n)[k..] == Window(ring, (start + k) % WRAP, n - k)
  {
    forall i | 0 <= i < n - k
      ensures Window(ring, start, n)[k..][i] == Window(ring, (start + k) % WRAP, n - k)[i]
    {
      ModWrap(start + k, i);
    }
  }

  lemma WindowCopy(ring: seq<byte>, start: nat, n: nat, k: nat)
    requires |ring| == RX_BUF && k <= n && k <= RX_BUF
    ensures var offs := start % RX_BUF;
            Window(ring, start, n)[..k] ==
            if RX_BUF - offs < k then ring[offs..] + ring[..k - (RX_BUF - offs)] else ring[offs..offs + k]
  {
    var offs := start % RX_BUF;
    forall i | 0 <= i < k
      ensures Window(ring, start, n)[i] == ring[if offs + i < RX_BUF then offs + i else offs + i - RX_BUF]
    {
    }
  }

  lemma HeaderAt(ring: seq<byte>, start: nat, n: nat)
    requires |ring| == RX_BUF && n >= 8 && start % 4 == 0
    ensures start % RX_BUF + 4 <= RX_BUF
    ensures GetLE16(Window(ring, start, n), 0) ==
            ring[start % RX_BUF] as int + 0x100 * ring[start % RX_BUF + 1] as int
  {
    ModNear(start, 1);
  }

  lemma CounterAt(rp: u32, wp: u32)
    ensures (rp + (wp - rp) % WRAP) % RX_BUF == wp % RX_BUF
  {
  }

  lemma CounterAdd(rp: u32, wp: u32, k: nat)
    requires (wp - rp) % WRAP + k < WRAP
    ensures ((wp + k) % WRAP - rp) % WRAP == (wp - rp) % WRAP + k
  {
  }

  lemma CounterSub(rp: u32, wp: u32, k: nat)
    requires k <= (wp - rp) % WRAP
    ensures (wp - (rp + k) % WRAP) % WRAP == (wp - rp) % WRAP - k
  {
  }

  lemma CounterAligned(rp: u32, k: nat)
    requires rp % 4 == 0 && k % 4 == 0
    ensures (rp + k) % WRAP % 4 == 0
  {
  }

  class Ring {
    const rxq: array<byte>
    var rxqwp: u32
    var rxqrp: u32

    ghost predicate Valid()
      reads this
    {
      rxq.Length == RX_BUF && Occupied() <= RX_BUF && rxqrp % 4 == 0
    }

    /** The difference of the counters in 32-bit arithmetic. */
    function Occupied(): nat
      reads this
    {
      (rxqwp - rxqrp) % WRAP
    }

    ghost function Contents(): (s: seq<byte>)
      requires Valid()
      reads this, rxq
      ensures |s| == Occupied()
    {
      Window(rxq[..], rxqrp, Occupied())
    }

    constructor ()
      ensures Valid() && fresh(rxq) && Contents() == []
    {
      rxq := new byte[RX_BUF](_ => 0);
      rxqwp, rxqrp := 0, 0;
    }

    /** One read(2) of `piece` at the write position. */
    method Fill(piece: seq<byte>)
      requires Valid()
      requires |piece| <= RX_BUF - Occupied() && rxqwp % RX_BUF + |piece| <= RX_BUF
      modifies this`rxqwp, rxq
      ensures Valid() && Contents() == old(Contents()) + piece
    {
      var offs := rxqwp % RX_BUF;
      ghost var before, n := rxq[..], Occupied();
      forall i | 0 <= i < |piece| {
        rxq[offs + i] := piece[i];
      }
      assert rxq[..] == before[..offs] + piece + before[offs + |piece|..];
      CounterAt(rxqrp, rxqwp);
      WindowExtend(before, rxq[..], rxqrp, n, piece);
      CounterAdd(rxqrp, rxqwp, |piece|);
      rxqwp := (rxqwp + |piece|) % WRAP;
    }

    /** The bytes of the first frame, in one piece. */
    method CopyOut(dlen: nat) returns (buf: seq<byte>)
      requires Valid() && dlen <= Occupied() && dlen <= MAX_PKT
      ensures buf == Contents()[..dlen]
    {
      WindowCopy(rxq[..], rxqrp, Occupied(), dlen);
      var offs := rxqrp % RX_BUF;
      var step := RX_BUF - offs;
      buf := if step < dlen then rxq[offs..] + rxq[..dlen - step] else rxq[offs..offs + dlen];
    }

    /** Advances the read counter over n bytes. */
    method Consume(n: nat)
      requires Valid() && n <= Occupied() && n % 4 == 0
      modifies this`rxqrp
      ensures Valid() && Contents() == old(Contents())[n..]
    {
      WindowDrop(rxq[..], rxqrp, Occupied(), n);
      CounterSub(rxqrp, rxqwp, n);
      CounterAligned(rxqrp, n);
      rxqrp := (rxqrp + n) % WRAP;
    }

    /** The read loop: `avail` is what the socket yields before it would block, and call c of
        read(2) returns any length from 1 to what is asked for, picked by chunk(c). */
    method Receive(avail: seq<byte>, chunk: nat -> nat) returns (taken: nat)
      requires Valid()
      modifies this`rxqwp, rxq
      ensures Valid()
      ensures taken == Min(|avail|, RX_BUF - old(Occupied()))
      ensures Contents() == old(Contents()) + avail[..taken]
    {
      hide Window, HeadersOk, Drain;
      taken := 0;
      var call := 0;
      while true
        invariant Valid() && taken <= |avail|
        invariant Contents() == old(Contents()) + avail[..taken]
        decreases |avail| - taken
      {
        var step := RX_BUF - (rxqwp - rxqrp) % WRAP;
        if step == 0 {
          break;
        }
        var offs := rxqwp % RX_BUF;
        if step > RX_BUF - offs {
          step := RX_BUF - offs;
        }
        if taken == |avail| {
          break;
        }
        var res := Moved(chunk(call), Min(step, |avail| - taken));
        call := call + 1;
        Fill(avail[taken..taken + res]);
        assert avail[..taken + res] == avail[..taken] + avail[taken..taken + res];
        taken := taken + res;
      }
    }

    /** The length field of the next header.  The source also has a branch for a length field split
        over the end of the ring; the read counter stays a multiple of 4, so it is never taken. */
    method PeekLen() returns (len: u16)
      requires Valid() && Occupied() >= 8
      ensures len == GetLE16(Contents(), 0)
    {
      assert rxqrp != RX_BUF - 1;
      HeaderAt(rxq[..], rxqrp, Occupied());
      var offs := rxqrp % RX_BUF;
      len := rxq[offs] as int + 0x100 * rxq[offs + 1] as int;
    }

    /** One round of the loop below: skips an oversized frame or takes a packet out, unless too few
        bytes have arrived or (with `memory` false) the packet could not be stored. */
    method Round(memory: bool) returns (more: bool, got: seq<Packet>)
      requires Valid() && HeadersOk(Contents())
      modifies this`rxqrp
      ensures Valid()
      ensures var s := old(Contents());
              more == (Whole(s) && (NextLen(s) > MAX_PKT || memory))
      ensures var s := old(Contents());
              if more then
                Contents() == s[NextLen(s)..] && got == First(s)
              else
                Contents() == s
    {
      more, got := false, [];
      if (rxqwp - rxqrp) % WRAP < 8 {
        return;
      }
      ghost var s := Contents();
      var len := PeekLen();
      var dlen := Pad4(len);
      if (rxqwp - rxqrp) % WRAP < dlen {
        return;
      }
      if dlen <= MAX_PKT {
        var buf := CopyOut(dlen);
        if !memory {
          return;
        }
        DecodePrefix(s, dlen);
        got := [Decode(buf)];
      }
      Consume(dlen);
      more := true;
    }

    /** Dispatches whole packets until too few bytes remain or an allocation fails. */
    method ProcessRxq(budget: nat) returns (dispatched: seq<Packet>)
      requires Valid() && HeadersOk(Contents())
      modifies this`rxqrp
      ensures Valid()
      ensures Drained(dispatched, Contents()) == Drain(old(Contents()), budget)
    {
      dispatched := [];
      var left: nat := budget;
      ghost var all, now := Contents(), Contents();
      var more := true;
      while more
        invariant Valid() && Contents() == now && HeadersOk(now)
        invariant Resume(dispatched, now, left) == Drain(all, budget)
        invariant !more ==> !Whole(now) || (NextLen(now) <= MAX_PKT && left == 0)
        decreases more, |now|
      {
        var got;
        more, got := Round(left > 0);
        if more {
          ghost var dispatched0, now0, left0 := dispatched, now, left;
          dispatched, left, now := dispatched + got, left - |got|, now[NextLen(now)..];
          ResumeNext(dispatched0, now0, left0, dispatched, now, left);
        }
      }
    }
  }
}
