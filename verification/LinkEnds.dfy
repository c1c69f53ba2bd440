/** The two ends of a stream as objects, and the bytes between them: each method is a step of LinkRuns. */
module LinkEnds {
  import opened Wire
  import opened RxRing
  import opened TxQueue
  import LinkRuns

  lemma Cut(all: seq<byte>, sent: seq<byte>, rest: seq<byte>, n: nat)
    requires all == sent + rest && |sent| <= n && (|sent| == n || rest == [])
    ensures sent == all[..Min(n, |all|)] && rest == all[Min(n, |all|)..]
  {
  }

  lemma WriteStep(l: LinkRuns.Link, n: nat)
    ensures var k := Min(n, |l.unsent|);
            LinkRuns.Next(l, LinkRuns.Write(n)) == l.(unsent := l.unsent[k..], wire := l.wire + l.unsent[..k])
  {
  }

  lemma NoneLeft(tx: Queue)
    requires tx.Valid()
    ensures tx.nodes == [] ==> tx.Unsent() == []
  {
  }

  class Ends {
    const tx: Queue
    const rx: Ring
    var wire: seq<byte>
    ghost var pushed: seq<Packet>
    var dispatched: seq<Packet>

    ghost predicate Valid()
      reads tx, tx.nodes, rx
    {
      tx.Valid() && rx.Valid()
    }

    ghost function View(): LinkRuns.Link
      requires rx.Valid()
      reads this, tx, rx, rx.rxq
    {
      LinkRuns.Link(tx.Unsent(), wire, rx.Contents(), pushed, dispatched)
    }

    constructor ()
      ensures Valid() && View() == LinkRuns.Idle && fresh(tx) && fresh(rx) && fresh(rx.rxq)
    {
      tx := new Queue();
      rx := new Ring();
      wire, pushed, dispatched := [], [], [];
    }

    /** Without memory there is no step, and the caller is told. */
    method Push(p: Packet, memory: bool) returns (err: bool)
      requires Valid() && p.Sendable()
      modifies this`pushed, tx, tx.etxbufs
      ensures Valid() && err == !memory
      ensures View() == if memory then LinkRuns.Next(old(View()), LinkRuns.Push(p)) else old(View())
    {
      hide Frame;
      err := tx.Push(p, memory);
      if !err {
        pushed := pushed + [p];
      }
    }

    /** The socket takes n bytes, in any pieces. */
    method Write(n: nat, chunk: nat -> nat)
      requires Valid()
      modifies this`wire, tx, tx.nodes
      ensures Valid() && View() == LinkRuns.Next(old(View()), LinkRuns.Write(n))
    {
      hide LinkRuns.Next, HeadersOk, RxRing.Drain, Frame, Concat, Window;
      WriteStep(View(), n);
      var sent := tx.Flush(n, chunk);
      NoneLeft(tx);
      Cut(old(tx.Unsent()), sent, tx.Unsent(), n);
      wire := wire + sent;
    }

    /** n bytes arrive, and are read in any pieces. */
    method Read(n: nat, chunk: nat -> nat)
      requires Valid()
      modifies this`wire, rx, rx.rxq
      ensures Valid() && View() == LinkRuns.Next(old(View()), LinkRuns.Read(n))
    {
      var avail := wire[..Min(n, |wire|)];
      var taken := rx.Receive(avail, chunk);
      assert avail[..taken] == wire[..taken];
      wire := wire[taken..];
    }

    method Drain(budget: nat)
      requires Valid() && HeadersOk(rx.Contents())
      modifies this`dispatched, rx
      ensures Valid() && View() == LinkRuns.Next(old(View()), LinkRuns.Drain(budget))
    {
      var got := rx.ProcessRxq(budget);
      dispatched := dispatched + got;
    }
  }
}
