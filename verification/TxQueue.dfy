/**
 The transmit side: a linked list of buffers, each written to the socket piece by piece, and the
 wake-up byte for the thread that sleeps in select(2).
 */
module TxQueue {
  import opened Wire

  /** One queued buffer.  The bytes never change; rptr counts those already written. */
  class TxBuf {
    var next: TxBuf?
    var rptr: nat
    const buf: seq<byte>
    /** How many buffers were queued before this one. */
    ghost const serial: nat

    constructor (buf: seq<byte>, ghost serial: nat)
      ensures this.buf == buf && this.serial == serial && next == null && rptr == 0
    {
      this.buf, this.serial := buf, serial;
      next, rptr := null, 0;
    }
  }

  function Concat(ss: seq<seq<byte>>): seq<byte> {
    if ss == [] then [] else ss[0] + Concat(ss[1..])
  }

  lemma {:induction false} ConcatSnoc(ss: seq<seq<byte>>, s: seq<byte>)
    ensures Concat(ss + [s]) == Concat(ss) + s
  {
    if ss == [] {
      assert ss + [s] == [s] && Concat([s]) == s + Concat([]);
    } else {
      assert (ss + [s])[1..] == ss[1..] + [s];
      ConcatSnoc(ss[1..], s);
    }
  }

  lemma ConcatSplit(ss: seq<seq<byte>>, k: nat)
    requires ss != [] && k <= |ss[0]|
    ensures Concat(ss) == ss[0][..k] + (ss[0][k..] + Concat(ss[1..]))
  {
    Assoc(ss[0][..k], ss[0][k..], Concat(ss[1..]));
  }

  class Queue {
    var txbufs: TxBuf?
    /** The buffer whose `next` is the slot for the next append; null stands for `txbufs` itself. */
    var etxbufs: TxBuf?
    var txflag: bool
    var needWake: bool
    var wakeBytes: nat
    ghost var nodes: seq<TxBuf>
    /** The unwritten bytes of each buffer. */
    ghost var chunks: seq<seq<byte>>

    ghost var popped: nat

    ghost predicate NodeOk(i: nat)
      requires i < |nodes| == |chunks|
      reads this`nodes, this`chunks, this`popped, nodes
    {
      nodes[i].serial == popped + i &&
      nodes[i].next == (if i + 1 < |nodes| then nodes[i + 1] else null) &&
      nodes[i].rptr < |nodes[i].buf| && chunks[i] == nodes[i].buf[nodes[i].rptr..]
    }

    ghost predicate Valid()
      reads this`txbufs, this`etxbufs, this`nodes, this`chunks, this`popped, nodes
    {
      |chunks| == |nodes| &&
      (txbufs == if nodes == [] then null else nodes[0]) &&
      (etxbufs == if nodes == [] then null else nodes[|nodes| - 1]) &&
      forall i | 0 <= i < |nodes| :: NodeOk(i)
    }

    /** The bytes still to be written. */
    ghost function Unsent(): seq<byte>
      reads this
    {
      Concat(chunks)
    }

    constructor ()
      ensures Valid() && nodes == [] && Unsent() == []
      ensures !txflag && !needWake && wakeBytes == 0
    {
      txbufs, etxbufs, nodes, chunks, popped := null, null, [], [], 0;
      txflag, needWake, wakeBytes := false, false, 0;
    }

    /** Appends a buffer through the slot etxbufs points at. */
    method Link(buf: seq<byte>)
      requires Valid() && buf != []
      modifies this`txbufs, this`etxbufs, this`nodes, this`chunks, etxbufs
      ensures Valid() && chunks == old(chunks) + [buf]
      ensures |nodes| == |old(nodes)| + 1 && nodes[..|old(nodes)|] == old(nodes) && fresh(nodes[|old(nodes)|])
    {
      var txb := new TxBuf(buf, popped + |nodes|);
      if etxbufs == null {
        txbufs := txb;
      } else {
        etxbufs.next := txb;
      }
      etxbufs := txb;
      nodes, chunks := nodes + [txb], chunks + [buf];
      forall i | 0 <= i < |nodes|
        ensures NodeOk(i)
      {
        assert i < |old(nodes)| ==> old(NodeOk(i) && NodeOk(|nodes| - 1));
      }
    }

    /** Queues one packet.  Without memory nothing happens and the error is returned. */
    method Push(p: Packet, memory: bool) returns (err: bool)
      requires Valid() && p.Sendable()
      modifies this, etxbufs
      ensures Valid() && err == !memory && needWake == old(needWake)
      ensures err ==> unchanged(this)
      ensures !err ==> Unsent() == old(Unsent()) + Frame(p)
      ensures !err ==> |nodes| == |old(nodes)| + 1 && nodes[..|old(nodes)|] == old(nodes) && fresh(nodes[|old(nodes)|])
      ensures !err ==> txflag && wakeBytes == old(wakeBytes) + (if needWake then 1 else 0)
    {
      if !memory {
        return true;
      }
      ConcatSnoc(chunks, Frame(p));
      Link(Frame(p));
      txflag := true;
      if needWake {
        wakeBytes := wakeBytes + 1;
      }
      err := false;
    }

    /** Unlinks the first buffer, which has been written to the end. */
    method Unlink()
      requires Valid() && txbufs != null
      modifies this`txbufs, this`etxbufs, this`nodes, this`chunks, this`popped
      ensures Valid() && nodes == old(nodes)[1..] && chunks == old(chunks)[1..]
    {
      var txb := txbufs;
      assert NodeOk(0);
      txbufs := txb.next;
      if txbufs == null {
        etxbufs := null;
      }
      nodes, chunks, popped := nodes[1..], chunks[1..], popped + 1;
      forall i | 0 <= i < |nodes|
        ensures NodeOk(i)
      {
        assert old(NodeOk(i + 1));
      }
    }

    /** One write(2) of the first res unwritten bytes of the first buffer. */
    method Advance(res: nat) returns (piece: seq<byte>)
      requires Valid() && txbufs != null && 0 < res <= |chunks[0]|
      modifies this`txbufs, this`etxbufs, this`nodes, this`chunks, this`popped, txbufs
      ensures Valid() && |piece| == res
      ensures nodes == old(nodes) || nodes == old(nodes)[1..]
      ensures old(Unsent()) == piece + Unsent()
    {
      var txb := txbufs;
      assert NodeOk(0);
      piece := txb.buf[txb.rptr..txb.rptr + res];
      assert piece == chunks[0][..res];
      ConcatSplit(chunks, res);
      ghost var first, others := chunks[0], chunks[1..];
      if txb.rptr + res >= |txb.buf| {
        Unlink();
      } else {
        txb.rptr := txb.rptr + res;
        chunks := [first[res..]] + others;
        assert chunks[1..] == others;
        forall i | 0 <= i < |nodes|
          ensures NodeOk(i)
        {
          assert old(NodeOk(i));
        }
      }
    }

    /** The write loop: the socket takes `room` bytes in all before it would block, and call c of
        write(2) takes any length from 1 to what is offered, picked by chunk(c). */
    method Flush(room: nat, chunk: nat -> nat) returns (sent: seq<byte>)
      requires Valid()
      modifies this`txbufs, this`etxbufs, this`nodes, this`chunks, this`popped, nodes
      ensures Valid()
      ensures old(Unsent()) == sent + Unsent()
      ensures |sent| <= room && (|sent| == room || nodes == [])
      ensures |nodes| <= |old(nodes)| && forall n <- nodes :: n in old(nodes)
    {
      sent := [];
      var call, left: nat := 0, room;
      while txbufs != null && left > 0
        invariant Valid() && |sent| + left == room
        invariant |nodes| <= |old(nodes)| && forall n <- nodes :: n in old(nodes)
        invariant old(Unsent()) == sent + Unsent()
        decreases left
      {
        assert NodeOk(0) && txbufs in nodes;
        var step := |txbufs.buf| - txbufs.rptr;
        var most := if step < left then step else left;
        var piece := Advance(Moved(chunk(call), most));
        Assoc(sent, piece, Unsent());
        sent := sent + piece;
        left := left - |piece|;
        call := call + 1;
      }
    }
  }
}
