/**
 Waking the thread that sleeps in select(2).  Other threads, and callbacks run by the loop itself, push
 packets at any time the lock is free or held by the loop.
 */
module Wakeup {
  import opened Wire
  import opened TxQueue

  /** `Asleep` lasts from the end of coremodel_preparefds to the start of coremodel_processfds. */
  datatype Phase = Awake | Asleep

  /** `queued` counts the buffers to write; `armed` tells whether select waits for the socket to become
      writable. */
  datatype Loop = Loop(phase: Phase, queued: nat, armed: bool, txflag: bool, needWake: bool, wakeBytes: nat)

  const Initial := Loop(Awake, 0, false, false, false, 0)

  function Push(l: Loop, n: nat): Loop {
    if n == 0 then l
    else l.(queued := l.queued + n, txflag := true, wakeBytes := l.wakeBytes + if l.needWake then n else 0)
  }

  lemma PushNone(l: Loop)
    ensures Push(l, 0) == l
  {
  }

  lemma PushOneMore(l: Loop, n: nat)
    ensures Push(l, n + 1) == Push(Push(l, n), 1)
    ensures Push(Push(l, n), 1) ==
            Push(l, n).(queued := Push(l, n).queued + 1, txflag := true,
                        wakeBytes := Push(l, n).wakeBytes + if Push(l, n).needWake then 1 else 0)
  {
  }

  /** coremodel_preparefds; callbacks of the deferred flush push `pushes` packets. */
  function Prepare(l: Loop, pushes: nat): Loop {
    Push(l.(phase := Asleep, needWake := true, armed := l.queued > 0, txflag := false), pushes)
  }

  /** coremodel_processfds: the wake pipe is emptied if select found it readable, callbacks push, and
      then all but `left` of the buffers are written if select found the socket writable or if buffers
      were queued before this call. */
  function Process(l: Loop, wakeReadable: bool, pushes: nat, writable: bool, left: nat): Loop {
    var l1 := Awoken(l, wakeReadable, pushes);
    if (writable || (l1.queued > 0 && !l1.txflag)) && left <= l1.queued then l1.(queued := left) else l1
  }

  function Awoken(l: Loop, wakeReadable: bool, pushes: nat): Loop {
    Push(l.(phase := Awake, needWake := false, wakeBytes := if wakeReadable then 0 else l.wakeBytes), pushes)
  }

  datatype Move =
    | PushFromThread
    | PrepareFds(pushes: nat)
    | ProcessFds(wakeReadable: bool, pushes: nat, writable: bool, left: nat)
    | OtherLoop(left: nat)   // another thread runs attach or list, and with it the loop, while this one sleeps

  function Step(l: Loop, move: Move): Loop {
    match move
    case PushFromThread => Push(l, 1)
    case PrepareFds(pushes) => if l.phase == Awake then Prepare(l, pushes) else l
    case ProcessFds(wakeReadable, pushes, writable, left) =>
      if l.phase == Asleep then Process(l, wakeReadable, pushes, writable, left) else l
    case OtherLoop(left) =>
      if l.phase == Asleep then Process(Prepare(l, 0), l.wakeBytes > 0, 0, true, left).(phase := Asleep,
        armed := l.armed) else l
  }

  function Run(moves: seq<Move>): Loop {
    if moves == [] then Initial else Step(Run(moves[..|moves| - 1]), moves[|moves| - 1])
  }

  /** What is queued will be noticed. */
  predicate Noticed(l: Loop) {
    l.phase == Asleep && l.queued > 0 ==> l.armed || l.wakeBytes > 0
  }

  lemma {:induction false} AsleepWakes(moves: seq<Move>)
    requires forall m <- moves :: !m.OtherLoop?
    ensures var l := Run(moves);
            Noticed(l) && (l.phase == Asleep <==> l.needWake) && (l.phase == Asleep && l.armed ==> l.queued > 0)
  {
    if moves != [] {
      assert forall m <- moves[..|moves| - 1] :: m in moves;
      AsleepWakes(moves[..|moves| - 1]);
      assert moves[|moves| - 1] in moves;
    }
  }

  /** No lost wake-up: while the loop sleeps with packets queued, the socket is armed for writing or a
      wake byte is in the pipe, after any pushes by any threads and callbacks; and a packet pushed while
      it sleeps is noticed whatever was noticed before. */
  lemma {:induction false} NoLostWakeup(moves: seq<Move>)
    requires forall m <- moves :: !m.OtherLoop?
    ensures Noticed(Run(moves))
    ensures Run(moves).phase == Asleep ==> Push(Run(moves), 1).wakeBytes > Run(moves).wakeBytes
  {
    AsleepWakes(moves);
  }

  /** With a second thread in attach or list the claim fails: it leaves needWake cleared behind the
      sleeping loop, and the next packet is not noticed. */
  lemma SecondLoopLosesWakeup()
    ensures !Noticed(Run([PrepareFds(0), OtherLoop(0), PushFromThread]))
  {
    var m1, m2, m3 := PrepareFds(0), OtherLoop(0), PushFromThread;
    assert [m1, m2, m3][..2] == [m1, m2] && [m1, m2][..1] == [m1] && [m1][..0] == [];
    assert Run([m1]) == Step(Run([]), m1);
    assert Run([m1, m2]) == Step(Run([m1]), m2);
  }

  /** A push is noticed by a sleeping loop exactly if its needWake still stands or it was already going
      to wake up. */
  lemma PushNoticedIff(l: Loop)
    requires l.phase == Asleep
    ensures Noticed(Push(l, 1)) <==> l.needWake || l.armed || l.wakeBytes > 0
  {
  }

  /** The loop with the real transmit queue. */
  class EventLoop {
    const tx: Queue
    var asleep: bool
    var armed: bool

    ghost function View(): Loop
      reads this, tx
    {
      Loop(if asleep then Asleep else Awake, |tx.nodes|, armed, tx.txflag, tx.needWake, tx.wakeBytes)
    }

    constructor ()
      ensures fresh(tx) && tx.Valid() && View() == Initial
    {
      tx := new Queue();
      asleep, armed := false, false;
    }

    /** The buffers queued before, in front of new ones. */
    twostate predicate Grown()
      reads this, tx
    {
      |old(tx.nodes)| <= |tx.nodes| && tx.nodes[..|old(tx.nodes)|] == old(tx.nodes) &&
      forall i :: |old(tx.nodes)| <= i < |tx.nodes| ==> fresh(tx.nodes[i])
    }

    method PushAll(ps: seq<Packet>)
      requires tx.Valid() && forall p <- ps :: p.Sendable()
      modifies tx, tx.etxbufs
      ensures tx.Valid() && View() == Push(old(View()), |ps|) && Grown()
      ensures tx.Unsent() == old(tx.Unsent()) + Frames(ps)
    {
      hide Frame, Frames, Concat, Push;
      FramesNone();
      PushNone(View());
      assert ps[..0] == [];
      for i := 0 to |ps|
        invariant tx.Valid() && View() == Push(old(View()), i) && Grown()
        invariant tx.Unsent() == old(tx.Unsent()) + Frames(ps[..i])
        invariant tx.etxbufs == old(tx.etxbufs) || fresh(tx.etxbufs)
      {
        PushOneMore(old(View()), i);
        FramesSnoc(ps[..i], ps[i]);
        assert ps[..i + 1] == ps[..i] + [ps[i]];
        Assoc(old(tx.Unsent()), Frames(ps[..i]), Frame(ps[i]));
        ghost var nodes := tx.nodes;
        var err := tx.Push(ps[i], true);
        assert forall j :: 0 <= j < |nodes| ==> tx.nodes[j] == tx.nodes[..|nodes|][j];
      }
      assert ps[..|ps|] == ps;
    }

    method PrepareFds(callbacks: seq<Packet>)
      requires tx.Valid() && !asleep && forall p <- callbacks :: p.Sendable()
      modifies this, tx, tx.etxbufs
      ensures tx.Valid() && View() == Prepare(old(View()), |callbacks|)
      ensures tx.Unsent() == old(tx.Unsent()) + Frames(callbacks) && Grown()
    {
      tx.needWake := true;
      armed := tx.txbufs != null;
      tx.txflag := false;
      asleep := true;
      PushAll(callbacks);
    }

    /** The first half of coremodel_processfds, up to the packets it dispatches. */
    method WakeUp(wakeReadable: bool, callbacks: seq<Packet>)
      requires tx.Valid() && forall p <- callbacks :: p.Sendable()
      modifies this`asleep, tx, tx.etxbufs
      ensures tx.Valid() && tx.Unsent() == old(tx.Unsent()) + Frames(callbacks)
      ensures View() == Awoken(old(View()), wakeReadable, |callbacks|)
      ensures |tx.nodes| == |old(tx.nodes)| + |callbacks| && Grown()
    {
      hide Frames, Frame;
      tx.needWake := false;
      if wakeReadable {
        tx.wakeBytes := 0;
      }
      asleep := false;
      PushAll(callbacks);
    }

    method ProcessFds(wakeReadable: bool, callbacks: seq<Packet>, writable: bool, room: nat, chunk: nat -> nat)
      returns (sent: seq<byte>)
      requires tx.Valid() && asleep && forall p <- callbacks :: p.Sendable()
      modifies this, tx, tx.nodes
      ensures tx.Valid() && |tx.nodes| <= |old(tx.nodes)| + |callbacks|
      ensures View() == Process(old(View()), wakeReadable, |callbacks|, writable, |tx.nodes|)
      ensures old(tx.Unsent()) + Frames(callbacks) == sent + tx.Unsent()
      ensures var writes := writable || (|old(tx.nodes)| + |callbacks| > 0 && !tx.txflag);
              if writes then |sent| <= room && (|sent| == room || tx.nodes == []) else sent == []
      ensures forall n <- tx.nodes :: n in old(tx.nodes) || fresh(n)
    {
      hide Frames, Frame, Push;
      WakeUp(wakeReadable, callbacks);
      var txFlag := tx.txbufs != null && !tx.txflag;
      sent := [];
      assert forall i :: 0 <= i < |old(tx.nodes)| ==> tx.nodes[i] == tx.nodes[..|old(tx.nodes)|][i];
      assert forall n <- tx.nodes :: n in old(tx.nodes) || fresh(n);
      if writable || txFlag {
        sent := tx.Flush(room, chunk);
      }
    }

    lemma QueuedBytes()
      requires tx.Valid()
      ensures tx.nodes == [] <==> tx.Unsent() == []
    {
      if tx.nodes != [] {
        assert tx.NodeOk(0);
      }
    }

    /** One round of the main loop with nothing pushed meanwhile: select finds the socket writable if it
        is asked to, and the socket takes `room` bytes. */
    method Turn(room: nat, chunk: nat -> nat, woken: bool) returns (sent: seq<byte>)
      requires tx.Valid() && !asleep
      modifies this, tx, tx.nodes
      ensures tx.Valid() && !asleep && old(tx.Unsent()) == sent + tx.Unsent()
      ensures |sent| == room || tx.nodes == []
      ensures forall k :: 0 <= k < |tx.nodes| ==> tx.nodes[k] in old(tx.nodes) || fresh(tx.nodes[k])
    {
      hide Frame, Frames, Concat;
      FramesNone();
      ghost var before := tx.Unsent();
      assert before + [] == before;
      PrepareFds([]);
      assert forall i :: 0 <= i < |old(tx.nodes)| ==> tx.nodes[i] == tx.nodes[..|old(tx.nodes)|][i];
      assert forall n <- tx.nodes :: n in old(tx.nodes);
      sent := ProcessFds(woken, [], armed, room, chunk);
    }

    /** Rounds of the main loop.  As many as there are bytes empty the queue, however little the socket
        takes in each. */
    method MainLoop(rounds: nat, room: nat, chunk: nat -> nat, woken: nat -> bool) returns (sent: seq<byte>)
      requires tx.Valid() && !asleep && room > 0
      modifies this, tx, tx.nodes
      ensures tx.Valid() && !asleep && old(tx.Unsent()) == sent + tx.Unsent()
      ensures rounds >= |old(tx.Unsent())| ==> tx.nodes == [] && sent == old(tx.Unsent())
    {
      hide Concat;
      sent := [];
      for i := 0 to rounds
        invariant tx.Valid() && !asleep
        invariant forall k :: 0 <= k < |tx.nodes| ==> tx.nodes[k] in old(tx.nodes) || fresh(tx.nodes[k])
        invariant old(tx.Unsent()) == sent + tx.Unsent()
        invariant tx.nodes == [] || |sent| >= i
      {
        QueuedBytes();
        var piece := Turn(room, chunk, woken(i));
        Assoc(sent, piece, tx.Unsent());
        sent := sent + piece;
        QueuedBytes();
      }
      QueuedBytes();
      assert sent + [] == sent;
    }
  }
}
