/** Keeping account of packets: each arrival is either queued or settled by one entry of the log. */
module Books {
  import opened Wire
  import opened Protocol
  import opened Counting

  ghost predicate Sorted(q: seq<Item>) {
    forall j, k :: 0 <= j < k < |q| ==> q[j].id < q[k].id
  }

  /** The queue and the log together hold each arrival exactly once. */
  ghost predicate Balanced(log: seq<Entry>, q: seq<Item>, hist: seq<Packet>) {
    |log| + |q| == |hist| && Sorted(q) &&
    (forall k :: 0 <= k < |q| ==> q[k].id < |hist| && q[k].pkt == hist[q[k].id]) &&
    (forall a :: 0 <= a < |log| ==> log[a].id < |hist|) &&
    (forall a, b :: 0 <= a < b < |log| ==> log[a].id != log[b].id) &&
    (forall a, k :: 0 <= a < |log| && 0 <= k < |q| ==> log[a].id != q[k].id)
  }

  lemma WithoutAt(q: seq<Item>, i: nat)
    requires i < |q|
    ensures |Without(q, i)| == |q| - 1
    ensures forall k :: 0 <= k < |q| - 1 ==> Without(q, i)[k] == q[if k < i then k else k + 1]
    ensures Sorted(q) ==> forall k :: 0 <= k < |q| - 1 ==> Without(q, i)[k].id != q[i].id
    ensures Sorted(q) ==> Sorted(Without(q, i))
  {
  }

  lemma SettleBalanced(log: seq<Entry>, q: seq<Item>, i: nat, hist: seq<Packet>, e: Entry)
    requires Balanced(log, q, hist) && i < |q| && e.id == q[i].id
    ensures Balanced(log + [e], Without(q, i), hist)
  {
    hide Without;
    WithoutAt(q, i);
  }

  lemma ArriveBalanced(log: seq<Entry>, q: seq<Item>, hist: seq<Packet>, pkt: Packet)
    requires Balanced(log, q, hist)
    ensures Balanced(log, q + [Item(|hist|, pkt)], hist + [pkt])
  {
  }

  /** The log without the notes about stalls and pauses, which settle nothing. */
  function Finals(log: seq<Entry>): seq<Entry> {
    if log == [] then []
    else Finals(log[..|log| - 1]) + if Notes(log[|log| - 1]) then [] else [log[|log| - 1]]
  }

  predicate Notes(e: Entry) {
    e.Stalled? || e.Paused?
  }

  lemma FinalsAppend(log: seq<Entry>, e: Entry)
    ensures Finals(log + [e]) == Finals(log) + if Notes(e) then [] else [e]
  {
    assert (log + [e])[..|log|] == log;
  }

  ghost predicate Queued(q: seq<Item>, id: nat) {
    exists k :: 0 <= k < |q| && q[k].id == id
  }

  ghost predicate Settled(log: seq<Entry>, id: nat) {
    exists a :: 0 <= a < |log| && log[a].id == id
  }

  lemma Fates(log: seq<Entry>, q: seq<Item>, hist: seq<Packet>)
    requires Balanced(log, q, hist)
    ensures forall id :: 0 <= id < |hist| ==> Queued(q, id) != Settled(log, id)
  {
    var ids: seq<nat> :=
      seq(|log| + |q|, i requires 0 <= i < |log| + |q| => if i < |log| then log[i].id else q[i - |log|].id);
    Pigeonhole(ids, |hist|);
    forall id | 0 <= id < |hist|
      ensures Queued(q, id) != Settled(log, id)
    {
      assert id in ids;
      var i :| 0 <= i < |ids| && ids[i] == id;
      if i < |log| {
        assert log[i].id == id;
      } else {
        assert q[i - |log|].id == id;
      }
    }
  }
}
