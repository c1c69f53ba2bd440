/** Sampling and reading the ADXL36x FIFO in any interleaving: nothing is lost, doubled or reordered. */
module AdxlRuns {
  import opened Wire
  import opened AdxlFifo

  /** `Sample` offers a set of any layout; `Read` reads one byte, of any I2C read. */
  datatype Event =
    | Sample(batch: seq<sample>)
    | Read(was: bv8, beyond: sample)

  /** The FIFO with everything ever stored in it and every byte read out of it. */
  datatype Track = Track(f: Fifo, stored: seq<sample>, out: seq<bv8>)

  predicate Ok(t: Track) {
    t.f.q != [] ==> t.f.sampleSize > 0
  }

  function Step(t: Track, packing: Packing, event: Event): (t': Track)
    requires Ok(t)
    ensures Ok(t')
  {
    match event
    case Sample(batch) =>
      var f := Store(t.f, batch);
      t.(f := f, stored := if f == t.f then t.stored else t.stored + batch)
    case Read(was, beyond) =>
      if t.f.q == [] then t
      else
        var (f, b) := ReadByte(t.f, packing, was, beyond);
        t.(f := f, out := t.out + [b])
  }

  /** Event k happens while packing(k) is selected, which can change at any time. */
  function Run(packing: nat -> Packing, events: seq<Event>): (t: Track)
    ensures Ok(t)
  {
    if events == [] then Track(Fresh, [], [])
    else Step(Run(packing, events[..|events| - 1]), packing(|events| - 1), events[|events| - 1])
  }

  function Always(packing: Packing): nat -> Packing {
    _ => packing
  }

  /** The queue is always the end of what was stored, in order, and holds at most 2048 samples. */
  ghost predicate Queue(t: Track) {
    |t.f.q| <= FIFO_SIZE && |t.f.q| <= |t.stored| && t.stored[|t.stored| - |t.f.q|..] == t.f.q
  }

  function UsedUp(t: Track): seq<sample>
    requires |t.f.q| <= |t.stored|
  {
    t.stored[..|t.stored| - |t.f.q|]
  }

  lemma SampleQueue(t: Track, packing: Packing, batch: seq<sample>)
    requires Ok(t) && Queue(t)
    ensures var t' := Step(t, packing, Sample(batch)); Queue(t') && UsedUp(t') == UsedUp(t)
  {
    Tail(t.stored, t.f.q, batch);
  }

  lemma ReadState(t: Track, packing: Packing, event: Event)
    requires Ok(t) && event.Read?
    ensures var t' := Step(t, packing, event);
            if t.f.q == [] then t' == t
            else t'.stored == t.stored && t'.f.q == if ByteOf(t.f, packing, event.beyond).1 then t.f.q[1..] else t.f.q
  {
    hide ByteOf;
  }

  /** A set is stored whole if it fits, and not at all if it does not: the FIFO holds 2048 samples. */
  lemma SampleIff(t: Track, packing: Packing, batch: seq<sample>)
    requires Ok(t)
    ensures var t' := Step(t, packing, Sample(batch));
            if |t.f.q| + |batch| <= 2048 then
              t'.stored == t.stored + batch && t'.f.q == t.f.q + batch && t'.out == t.out
            else t' == t
  {
    assert t.f.q + [] == t.f.q && t.stored + [] == t.stored;
  }

  /** What a read does to the queue and to what is used up. */
  lemma ReadQueue(t: Track, t': Track, pop: bool)
    requires Queue(t) && t.f.q != [] && t'.stored == t.stored && t'.f.q == if pop then t.f.q[1..] else t.f.q
    ensures Queue(t') && UsedUp(t') == UsedUp(t) + if pop then [t.f.q[0]] else []
  {
    Head(t.stored, t.f.q);
  }

  lemma StepQueue(t: Track, packing: Packing, event: Event)
    requires Ok(t) && Queue(t)
    ensures Queue(Step(t, packing, event))
    ensures event.Sample? ==> UsedUp(Step(t, packing, event)) == UsedUp(t)
    ensures event.Read? && t.f.q != [] ==>
      UsedUp(Step(t, packing, event)) == UsedUp(t) + if ByteOf(t.f, packing, event.beyond).1 then [t.f.q[0]] else []
  {
    hide ByteOf, Step, Queue, UsedUp;
    QueueBound(t);
    if event.Sample? {
      SampleQueue(t, packing, event.batch);
    } else {
      ReadState(t, packing, event);
      if t.f.q != [] {
        ReadQueue(t, Step(t, packing, event), ByteOf(t.f, packing, event.beyond).1);
      }
    }
    QueueBound(Step(t, packing, event));
  }

  lemma Tail(stored: seq<sample>, q: seq<sample>, batch: seq<sample>)
    requires |q| <= |stored| && stored[|stored| - |q|..] == q
    ensures var more := stored + batch;
            more[|more| - |q + batch|..] == q + batch && more[..|more| - |q + batch|] == stored[..|stored| - |q|]
  {
  }

  lemma Head(stored: seq<sample>, q: seq<sample>)
    requires 0 < |q| <= |stored| && stored[|stored| - |q|..] == q
    ensures stored[|stored| - |q[1..]|..] == q[1..]
    ensures stored[..|stored| - |q[1..]|] == stored[..|stored| - |q|] + [q[0]]
  {
    assert stored[|stored| - |q|] == q[0];
  }

  lemma {:induction false} QueueAlways(packing: nat -> Packing, events: seq<Event>)
    ensures Queue(Run(packing, events))
  {
    if events != [] {
      hide Step, Queue;
      QueueAlways(packing, events[..|events| - 1]);
      StepQueue(Run(packing, events[..|events| - 1]), packing(|events| - 1), events[|events| - 1]);
    } else {
      StartQueue();
    }
  }

  /** In whatever packings, read_count counts the bytes read, so that the position within a packed sample goes
      on from one packing to another. */
  lemma {:induction false} PhaseCounts(packing: nat -> Packing, events: seq<Event>)
    ensures Run(packing, events).f.readCount == |Run(packing, events).out| % WRAP
  {
    hide Step;
    if events != [] {
      var t := Run(packing, events[..|events| - 1]);
      PhaseCounts(packing, events[..|events| - 1]);
      PhaseStep(t, packing(|events| - 1), events[|events| - 1]);
      CountOn(|t.out|);
    }
  }

  lemma PhaseStep(t: Track, packing: Packing, event: Event)
    requires Ok(t)
    ensures var t' := Step(t, packing, event);
            if |t'.out| == |t.out| then t'.f.readCount == t.f.readCount
            else |t'.out| == |t.out| + 1 && t'.f.readCount == (t.f.readCount + 1) % WRAP
  {
    hide ByteOf;
  }

  lemma CountOn(n: nat)
    ensures (n % WRAP + 1) % WRAP == (n + 1) % WRAP
  {
  }

  lemma StartQueue()
    ensures Queue(Track(Fresh, [], []))
  {
  }

  /** Two bytes a sample, high byte first. */
  function Pack16(xs: seq<sample>): seq<bv8> {
    if xs == [] then [] else Pack16(xs[..|xs| - 1]) + [High(xs[|xs| - 1]), Low(xs[|xs| - 1])]
  }

  function Join16(hi: bv8, lo: bv8): sample {
    ((hi as bv16) << 8) | (lo as bv16)
  }

  function Unpack16(bytes: seq<bv8>): seq<sample> {
    if |bytes| < 2 then []
    else Unpack16(bytes[..|bytes| - 2]) + [Join16(bytes[|bytes| - 2], bytes[|bytes| - 1])]
  }

  lemma Joined16(s: sample)
    ensures Join16(High(s), Low(s)) == s
  {
  }

  lemma UnpackNone16()
    ensures Unpack16([]) == []
  {
  }

  lemma UnpackSnoc16(bytes: seq<bv8>, hi: bv8, lo: bv8)
    ensures Unpack16(bytes + [hi, lo]) == Unpack16(bytes) + [Join16(hi, lo)]
  {
    hide Join16;
    assert (bytes + [hi, lo])[..|bytes|] == bytes;
  }

  lemma {:induction false} RoundTrip16(xs: seq<sample>)
    ensures Unpack16(Pack16(xs)) == xs
  {
    hide High, Low, Join16, Unpack16;
    if xs == [] {
      UnpackNone16();
    } else {
      var init, last := xs[..|xs| - 1], xs[|xs| - 1];
      RoundTrip16(init);
      Joined16(last);
      UnpackSnoc16(Pack16(init), High(last), Low(last));
    }
  }

  /** Where the 16-bit readout stands. */
  ghost predicate Exact16(t: Track) {
    Queue(t) &&
    if t.f.readCount % 2 == 0 then t.out == Pack16(UsedUp(t))
    else t.f.q != [] && t.out == Pack16(UsedUp(t)) + [High(t.f.q[0])]
  }

  lemma Step16(t: Track, event: Event)
    requires Ok(t) && Exact16(t)
    ensures Exact16(Step(t, Bits16, event))
  {
    hide High, Low, Queue, UsedUp, Pack16;
    StepQueue(t, Bits16, event);
    QueueBound(t);
    QueueBound(Step(t, Bits16, event));
    NextPhase(t.f.readCount);
    if event.Read? && t.f.q != [] {
      assert UsedUp(t) + [] == UsedUp(t);
      PackSnoc16(UsedUp(t), t.f.q[0]);
      Assoc(Pack16(UsedUp(t)), [High(t.f.q[0])], [Low(t.f.q[0])]);
    }
  }

  /** The count of reads keeps its parity when it wraps, but not its remainder by 3. */
  lemma NextPhase(n: u32)
    ensures (n + 1) % WRAP % 2 == (n % 2 + 1) % 2
    ensures n < WRAP - 1 ==> (n + 1) % WRAP % 3 == (n % 3 + 1) % 3
  {
  }

  lemma QueueBound(t: Track)
    requires Queue(t)
    ensures |t.f.q| <= |t.stored|
  {
  }

  lemma PackSnoc16(xs: seq<sample>, x: sample)
    ensures Pack16(xs + [x]) == Pack16(xs) + [High(x), Low(x)]
  {
    assert (xs + [x])[..|xs|] == xs;
  }

  /** 16-bit readout: over every mix of sampling and reading the bytes read are those of the samples
      used up, in order, and possibly the first byte of the next; whole, they give the samples back. */
  lemma {:induction false} Readout16(events: seq<Event>)
    ensures var t := Run(Always(Bits16), events);
            Exact16(t) && (t.f.readCount % 2 == 0 ==> Unpack16(t.out) == UsedUp(t))
  {
    if events != [] {
      hide Step, Exact16, Pack16, Unpack16;
      Readout16(events[..|events| - 1]);
      Step16(Run(Always(Bits16), events[..|events| - 1]), events[|events| - 1]);
    } else {
      Start16();
    }
    Whole16(Run(Always(Bits16), events));
  }

  lemma Start16()
    ensures Exact16(Track(Fresh, [], []))
  {
  }

  lemma Whole16(t: Track)
    requires Exact16(t)
    ensures |t.f.q| <= |t.stored| && (t.f.readCount % 2 == 0 ==> Unpack16(t.out) == UsedUp(t))
  {
    RoundTrip16(UsedUp(t));
  }

  /** 8-bit readout: each byte is the low half of the next sample stored, and uses it up. */
  ghost predicate Exact8(t: Track) {
    Queue(t) && |t.out| == |UsedUp(t)| && forall i :: 0 <= i < |t.out| ==> t.out[i] as bv16 == UsedUp(t)[i] & 0xFF
  }

  lemma LowHalf(s: sample)
    ensures Low(s) as bv16 == s & 0xFF
  {
  }

  lemma Step8(t: Track, event: Event)
    requires Ok(t) && Exact8(t)
    ensures Exact8(Step(t, Bits8, event))
  {
    hide Low, Queue, UsedUp;
    StepQueue(t, Bits8, event);
    QueueBound(t);
    QueueBound(Step(t, Bits8, event));
    if event.Read? && t.f.q != [] {
      LowHalf(t.f.q[0]);
    }
  }

  /** Over every mix of sampling and reading the bytes read in 8-bit packing are the low halves of the samples
      used up, one for one and in order. */
  lemma {:induction false} Readout8(events: seq<Event>)
    ensures Exact8(Run(Always(Bits8), events))
  {
    if events != [] {
      hide Step, Exact8;
      Readout8(events[..|events| - 1]);
      Step8(Run(Always(Bits8), events[..|events| - 1]), events[|events| - 1]);
    } else {
      StartQueue();
    }
  }

  /** Three bytes for two 12-bit samples. */
  function Pack12(xs: seq<sample>): seq<bv8> {
    if |xs| < 2 then []
    else
      var a, b := xs[|xs| - 2], xs[|xs| - 1];
      Pack12(xs[..|xs| - 2]) + [Shifted4(a), Middle(a, b), Low(b)]
  }

  function First12(b0: bv8, b1: bv8): sample {
    ((b0 as bv16) << 4) | ((b1 as bv16) >> 4)
  }

  function Second12(b1: bv8, b2: bv8): sample {
    (((b1 as bv16) & 0xF) << 8) | (b2 as bv16)
  }

  function Unpack12(bytes: seq<bv8>): seq<sample> {
    if |bytes| < 3 then []
    else
      var b0, b1, b2 := bytes[|bytes| - 3], bytes[|bytes| - 2], bytes[|bytes| - 1];
      Unpack12(bytes[..|bytes| - 3]) + [First12(b0, b1), Second12(b1, b2)]
  }

  predicate Twelve(s: sample) {
    s < 0x1000
  }

  /** What comes out of a triple whose middle byte was made with `next`: the first sample whole, and the
      second with its four high bits taken from `next`. */
  lemma FirstHalf(a: sample, next: sample)
    requires Twelve(a)
    ensures First12(Shifted4(a), Middle(a, next)) == a
  {
  }

  lemma SecondHalf(a: sample, next: sample, b: sample)
    ensures Second12(Middle(a, next), Low(b)) == (next & 0xF00) | (b & 0xFF)
  {
  }

  lemma Twelve12(b: sample)
    requires Twelve(b)
    ensures (b & 0xF00) | (b & 0xFF) == b
  {
  }

  /** In 12-bit packing every sample that is stored has 12 bits. */
  lemma ShiftedTwelve(s: sample)
    ensures Twelve(s >> 4)
  {
  }

  lemma UnpackSnoc12(bytes: seq<bv8>, b0: bv8, b1: bv8, b2: bv8)
    ensures Unpack12(bytes + [b0, b1, b2]) == Unpack12(bytes) + [First12(b0, b1), Second12(b1, b2)]
  {
    hide First12, Second12;
    assert (bytes + [b0, b1, b2])[..|bytes|] == bytes;
  }

  lemma {:induction false} RoundTrip12(xs: seq<sample>)
    requires |xs| % 2 == 0 && forall x <- xs :: Twelve(x)
    ensures Unpack12(Pack12(xs)) == xs
  {
    hide Shifted4, Middle, Low, First12, Second12, Twelve, Unpack12;
    if xs == [] {
      UnpackNone12();
    } else {
      var init, a, b := xs[..|xs| - 2], xs[|xs| - 2], xs[|xs| - 1];
      assert forall x <- init :: x in xs;
      RoundTrip12(init);
      assert a in xs && b in xs;
      FirstHalf(a, b);
      SecondHalf(a, b, b);
      Twelve12(b);
      UnpackSnoc12(Pack12(init), Shifted4(a), Middle(a, b), Low(b));
    }
  }

  lemma UnpackNone12()
    ensures Unpack12([]) == []
  {
  }

  /** What the bytes read so far look like, by phase. */
  ghost function Read12(used: seq<sample>, q: seq<sample>, phase: nat): seq<bv8>
    requires phase < 3 && (q != [] || phase == 0)
    requires phase == 2 ==> used != []
  {
    if phase == 0 then Pack12(used)
    else if phase == 1 then Pack12(used) + [Shifted4(q[0])]
    else Pack12(used[..|used| - 1]) + [Shifted4(used[|used| - 1]), Middle(used[|used| - 1], q[0])]
  }

  /** Where the 12-bit readout stands: between triples, or within one. */
  ghost predicate Exact12(t: Track) {
    Queue(t) &&
    var used, phase := UsedUp(t), t.f.readCount % 3;
    |used| % 2 == (if phase == 2 then 1 else 0) && (phase != 0 ==> t.f.q != []) && t.out == Read12(used, t.f.q, phase)
  }

  /** The middle byte of a triple is read only while the second sample of the pair is queued, and the
      count of reads does not wrap. */
  predicate PairReady(f: Fifo) {
    f.readCount < WRAP - 1 && (f.readCount % 3 == 1 ==> |f.q| >= 2)
  }

  lemma PackSnoc12(xs: seq<sample>, a: sample, b: sample)
    ensures Pack12(xs + [a] + [b]) == Pack12(xs) + [Shifted4(a), Middle(a, b), Low(b)]
  {
    assert (xs + [a] + [b])[..|xs|] == xs;
  }

  lemma Step12(t: Track, event: Event)
    requires Ok(t) && Exact12(t) && (event.Read? ==> PairReady(t.f))
    ensures Exact12(Step(t, Bits12, event))
  {
    hide Shifted4, Middle, Low, Queue, UsedUp, Pack12;
    StepQueue(t, Bits12, event);
    QueueBound(t);
    QueueBound(Step(t, Bits12, event));
    if event.Read? && t.f.q != [] {
      NextPhase(t.f.readCount);
      Byte12(UsedUp(t), t.f, event.beyond);
    }
  }

  lemma Byte12(used: seq<sample>, f: Fifo, beyond: sample)
    requires f.q != [] && PairReady(f) && |used| % 2 == (if f.readCount % 3 == 2 then 1 else 0)
    ensures var (b, pop) := ByteOf(f, Bits12, beyond);
            var phase := f.readCount % 3;
            var used' := used + if pop then [f.q[0]] else [];
            var q' := if pop then f.q[1..] else f.q;
            (phase == 1 ==> q' != []) &&
            Read12(used', q', (phase + 1) % 3) == Read12(used, f.q, phase) + [b]
  {
    hide Shifted4, Middle, Low, Pack12;
    var s := f.q[0];
    if f.readCount % 3 == 0 {
      assert used + [] == used;
    } else if f.readCount % 3 == 1 {
      assert (used + [s])[..|used|] == used;
      Assoc(Pack12(used), [Shifted4(s)], [Middle(s, f.q[1])]);
    } else {
      var init, a := used[..|used| - 1], used[|used| - 1];
      assert used == init + [a];
      PackSnoc12(init, a, s);
      Assoc(Pack12(init), [Shifted4(a), Middle(a, s)], [Low(s)]);
    }
  }

  ghost predicate AllReady(events: seq<Event>) {
    forall k :: 0 <= k < |events| && events[k].Read? ==> PairReady(Run(Always(Bits12), events[..k]).f)
  }

  /** 12-bit readout: over every mix of sampling and reading in which the middle byte of a triple is only
      read with the second sample there, the bytes read are those of the pairs used up, in order, and
      at most two bytes of the next pair; whole triples give the samples back. */
  lemma {:induction false} Readout12(events: seq<Event>)
    requires AllReady(events)
    ensures var t := Run(Always(Bits12), events);
            Exact12(t) &&
            (t.f.readCount % 3 == 0 && (forall x <- t.stored :: Twelve(x)) ==> Unpack12(t.out) == UsedUp(t))
  {
    if events != [] {
      hide Step, Exact12, Pack12, Unpack12, Twelve, PairReady;
      var init := events[..|events| - 1];
      assert forall k :: 0 <= k < |init| ==> init[..k] == events[..k] && init[k] == events[k];
      Readout12(init);
      Step12(Run(Always(Bits12), init), events[|events| - 1]);
    } else {
      Start12();
    }
    Whole12(Run(Always(Bits12), events));
  }

  lemma Start12()
    ensures Exact12(Track(Fresh, [], []))
  {
  }

  lemma Whole12(t: Track)
    requires Exact12(t)
    ensures |t.f.q| <= |t.stored|
    ensures t.f.readCount % 3 == 0 && (forall x <- t.stored :: Twelve(x)) ==> Unpack12(t.out) == UsedUp(t)
  {
    hide Twelve, Pack12, Unpack12;
    if t.f.readCount % 3 == 0 && forall x <- t.stored :: Twelve(x) {
      assert forall x <- UsedUp(t) :: x in t.stored;
      RoundTrip12(UsedUp(t));
    }
  }

  /** A pair whose middle byte is read with the first sample alone in the FIFO mixes in what the slot
      behind it still holds: the pair comes out right exactly if that has the same high bits. */
  lemma LoneSample(a: sample, b: sample, stale: sample)
    requires Twelve(a) && Twelve(b)
    ensures (First12(Shifted4(a), Middle(a, stale)) == a && Second12(Middle(a, stale), Low(b)) == b) <==>
            stale & 0xF00 == b & 0xF00
  {
    hide Shifted4, Middle, Low, First12, Second12;
    FirstHalf(a, stale);
    SecondHalf(a, stale, b);
    SameHigh(stale, b);
  }

  lemma SameHigh(stale: sample, b: sample)
    requires Twelve(b)
    ensures ((stale & 0xF00) | (b & 0xFF) == b) <==> stale & 0xF00 == b & 0xF00
  {
  }

  lemma MiddleSame(a: sample, x: sample, y: sample)
    ensures Middle(a, x) == Middle(a, y) <==> x & 0xF00 == y & 0xF00
  {
  }

  /** Each of three steps: what it does to the bytes and the queue. */
  lemma LoneMiddle(t: Track, was: bv8, beyond: sample)
    requires Ok(t) && t.f.readCount % 3 == 1 && |t.f.q| == 1 && t.f.readCount < WRAP - 1
    ensures var t' := Step(t, Bits12, Read(was, beyond));
            t'.out == t.out + [Middle(t.f.q[0], beyond)] && t'.f.q == [] && t'.stored == t.stored &&
            t'.f.readCount == t.f.readCount + 1
  {
    hide Middle, Low, Shifted4;
  }

  lemma LoneArrival(t: Track, batch: seq<sample>)
    requires Ok(t) && t.f.q == [] && 0 < |batch| <= 4
    ensures var t' := Step(t, Bits12, Sample(batch));
            t'.out == t.out && t'.f.q == batch && t'.stored == t.stored + batch && t'.f.readCount == t.f.readCount
  {
  }

  lemma LoneLast(t: Track, next: Event)
    requires Ok(t) && t.f.q != [] && t.f.readCount % 3 == 2 && t.f.readCount < WRAP - 1 && next.Read?
    ensures var t' := Step(t, Bits12, next);
            t'.out == t.out + [Low(t.f.q[0])] && t'.f.q == t.f.q[1..] && t'.stored == t.stored &&
            t'.f.readCount == t.f.readCount + 1
  {
    hide Middle, Low, Shifted4;
  }

  lemma LoneSteps(t: Track, was: bv8, beyond: sample, batch: seq<sample>, next: Event)
    requires Ok(t) && t.f.readCount % 3 == 1 && |t.f.q| == 1 && t.f.readCount < WRAP - 2
    requires 0 < |batch| <= 4 && next.Read?
    ensures var t' := Step(Step(Step(t, Bits12, Read(was, beyond)), Bits12, Sample(batch)), Bits12, next);
            t'.out == t.out + [Middle(t.f.q[0], beyond)] + [Low(batch[0])] && t'.f.q == batch[1..] &&
            t'.stored == t.stored + batch && t'.f.readCount % 3 == 0
  {
    hide Middle, Low, Shifted4, Step;
    var t1 := Step(t, Bits12, Read(was, beyond));
    LoneMiddle(t, was, beyond);
    LoneArrival(t1, batch);
    LoneLast(Step(t1, Bits12, Sample(batch)), next);
  }

  /** In a run: the middle byte is read with one sample queued, then a set arrives, then the third byte
      is read.  The readout is still exact if and only if the stale slot has the high bits of the sample
      that arrives. */
  lemma LonePair(t: Track, was: bv8, beyond: sample, batch: seq<sample>, next: Event)
    requires Ok(t) && Exact12(t) && t.f.readCount % 3 == 1 && |t.f.q| == 1 && t.f.readCount < WRAP - 2
    requires 0 < |batch| <= 4 && next.Read?
    ensures var t' := Step(Step(Step(t, Bits12, Read(was, beyond)), Bits12, Sample(batch)), Bits12, next);
            Exact12(t') <==> beyond & 0xF00 == batch[0] & 0xF00
  {
    hide Step, Shifted4, Middle, Low, Pack12;
    LoneSteps(t, was, beyond, batch, next);
    var used, a, b := UsedUp(t), t.f.q[0], batch[0];
    var t' := Step(Step(Step(t, Bits12, Read(was, beyond)), Bits12, Sample(batch)), Bits12, next);
    assert t.stored == used + [a] && t'.stored == used + [a] + [b] + batch[1..];
    assert UsedUp(t') == used + [a] + [b] && Queue(t');
    PackSnoc12(used, a, b);
    Triple(Pack12(used), Shifted4(a), Middle(a, beyond), Middle(a, b), Low(b));
    MiddleSame(a, beyond, b);
  }

  lemma Triple(front: seq<bv8>, b0: bv8, x: bv8, y: bv8, b2: bv8)
    ensures front + [b0] + [x] + [b2] == front + [b0, y, b2] <==> x == y
  {
    var l, r := front + [b0] + [x] + [b2], front + [b0, y, b2];
    assert l[|front| + 1] == x && r[|front| + 1] == y;
  }

  lemma RunSnoc(packing: Packing, events: seq<Event>, event: Event)
    ensures Run(Always(packing), events + [event]) == Step(Run(Always(packing), events), packing, event)
  {
    assert (events + [event])[..|events|] == events;
  }

  /** Such a run: sample, two bytes read, sample, one byte read. */
  lemma LoneSampleExample()
    ensures var events := [Sample([0x123])] + [Read(0, 0)] + [Read(0, 0)] + [Sample([0x456])] + [Read(0, 0)];
            var t := Run(Always(Bits12), events);
            t.f.q == [] && t.stored == [0x123, 0x456] && Unpack12(t.out) == [0x123, 0x056]
  {
    hide Shifted4, Middle, Low, First12, Second12, Run, Step;
    TwoBytes();
    var t := Track(Fifo([], 2, WRAP - 1, 1), [0x123], [Shifted4(0x123), Middle(0x123, 0)]);
    var events := [Sample([0x123])] + [Read(0, 0)] + [Read(0, 0)];
    RunSnoc(Bits12, events, Sample([0x456]));
    RunSnoc(Bits12, events + [Sample([0x456])], Read(0, 0));
    LastByte(t);
    FirstHalf(0x123, 0);
    SecondHalf(0x123, 0, 0x456);
  }

  lemma TwoBytes()
    ensures Run(Always(Bits12), [Sample([0x123])] + [Read(0, 0)] + [Read(0, 0)]) ==
            Track(Fifo([], 2, WRAP - 1, 1), [0x123], [Shifted4(0x123), Middle(0x123, 0)])
  {
    hide Shifted4, Middle, Low;
    assert [] + [Sample([0x123])] == [Sample([0x123])];
    RunSnoc(Bits12, [], Sample([0x123]));
    RunSnoc(Bits12, [Sample([0x123])], Read(0, 0));
    RunSnoc(Bits12, [Sample([0x123])] + [Read(0, 0)], Read(0, 0));
  }

  lemma LastByte(t: Track)
    requires t.f == Fifo([], 2, WRAP - 1, 1) && |t.out| == 2
    ensures var t' := Step(Step(t, Bits12, Sample([0x456])), Bits12, Read(0, 0));
            t'.f.q == [] && t'.stored == t.stored + [0x456] && t'.out == t.out + [Low(0x456)]
  {
    hide Low;
  }

  /** What the second sample of a pair is taken to be when its middle byte is read. */
  function Second(f: Fifo, beyond: sample): sample {
    if |f.q| > 1 then f.q[1] else beyond
  }

  /** These, for all the middle bytes read in a run. */
  function Mids(events: seq<Event>): seq<sample> {
    if events == [] then []
    else
      var init, last := events[..|events| - 1], events[|events| - 1];
      Mids(init) + MidOf(Run(Always(Bits12), init), last)
  }

  function MidOf(t: Track, event: Event): seq<sample> {
    if event.Read? && t.f.q != [] && t.f.readCount % 3 == 1 then [Second(t.f, event.beyond)] else []
  }

  /** The bytes of whole pairs, with middle bytes made from mids. */
  function PackWith(xs: seq<sample>, mids: seq<sample>): seq<bv8> {
    if |xs| < 2 || mids == [] then []
    else
      var a, b := xs[|xs| - 2], xs[|xs| - 1];
      PackWith(xs[..|xs| - 2], mids[..|mids| - 1]) + [Shifted4(a), Middle(a, mids[|mids| - 1]), Low(b)]
  }

  lemma PackWithSnoc(xs: seq<sample>, mids: seq<sample>, a: sample, m: sample, b: sample)
    ensures PackWith(xs + [a] + [b], mids + [m]) == PackWith(xs, mids) + [Shifted4(a), Middle(a, m), Low(b)]
  {
    hide Shifted4, Middle, Low;
    assert (xs + [a] + [b])[..|xs|] == xs && (mids + [m])[..|mids|] == mids;
  }

  ghost function ReadWith(used: seq<sample>, q: seq<sample>, phase: nat, mids: seq<sample>): seq<bv8>
    requires phase < 3 && (phase == 1 ==> q != []) && (phase == 2 ==> used != [] && mids != [])
  {
    if phase == 0 then PackWith(used, mids)
    else if phase == 1 then PackWith(used, mids) + [Shifted4(q[0])]
    else
      var a := used[|used| - 1];
      PackWith(used[..|used| - 1], mids[..|mids| - 1]) + [Shifted4(a), Middle(a, mids[|mids| - 1])]
  }

  /** Where any 12-bit readout stands. */
  ghost predicate Any12(t: Track, mids: seq<sample>) {
    Queue(t) && t.f.readCount == |t.out| &&
    var used, phase := UsedUp(t), t.f.readCount % 3;
    |used| % 2 == (if phase == 2 then 1 else 0) && |mids| == (|used| + 1) / 2 && (phase == 1 ==> t.f.q != []) &&
    t.out == ReadWith(used, t.f.q, phase, mids)
  }

  lemma PopPhase(f: Fifo, beyond: sample)
    requires f.q != []
    ensures ByteOf(f, Bits12, beyond).1 == (f.readCount % 3 != 0)
  {
    hide Shifted4, Middle, Low;
  }

  /** The byte read at each phase is the next of the triple, whether or not the pair is complete. */
  lemma FirstWith(used: seq<sample>, f: Fifo, beyond: sample, mids: seq<sample>)
    requires f.q != [] && f.readCount % 3 == 0
    ensures ReadWith(used, f.q, 1, mids) == ReadWith(used, f.q, 0, mids) + [ByteOf(f, Bits12, beyond).0]
  {
    hide Shifted4, Middle, Low, PackWith;
  }

  lemma MiddleWith(used: seq<sample>, f: Fifo, beyond: sample, mids: seq<sample>)
    requires f.q != [] && f.readCount % 3 == 1
    ensures ReadWith(used + [f.q[0]], f.q[1..], 2, mids + [Second(f, beyond)]) ==
            ReadWith(used, f.q, 1, mids) + [ByteOf(f, Bits12, beyond).0]
  {
    hide Shifted4, Middle, Low, PackWith;
    var s, m := f.q[0], Second(f, beyond);
    assert (used + [s])[..|used|] == used && (mids + [m])[..|mids|] == mids;
    Assoc(PackWith(used, mids), [Shifted4(s)], [Middle(s, m)]);
  }

  lemma LastWith(used: seq<sample>, f: Fifo, beyond: sample, mids: seq<sample>)
    requires f.q != [] && f.readCount % 3 == 2 && used != [] && mids != []
    ensures ReadWith(used + [f.q[0]], f.q[1..], 0, mids) ==
            ReadWith(used, f.q, 2, mids) + [ByteOf(f, Bits12, beyond).0]
  {
    hide Shifted4, Middle, Low, PackWith;
    var init, a := used[..|used| - 1], used[|used| - 1];
    var before, m := mids[..|mids| - 1], mids[|mids| - 1];
    assert used == init + [a] && mids == before + [m];
    PackWithSnoc(init, before, a, m, f.q[0]);
    Assoc(PackWith(init, before), [Shifted4(a), Middle(a, m)], [Low(f.q[0])]);
  }

  lemma ByteWith(used: seq<sample>, f: Fifo, beyond: sample, mids: seq<sample>)
    requires f.q != [] && |used| % 2 == (if f.readCount % 3 == 2 then 1 else 0) && |mids| == (|used| + 1) / 2
    ensures var (b, pop) := ByteOf(f, Bits12, beyond);
            var phase := f.readCount % 3;
            var used' := used + if pop then [f.q[0]] else [];
            var mids' := mids + if phase == 1 then [Second(f, beyond)] else [];
            var q' := if pop then f.q[1..] else f.q;
            |mids'| == (|used'| + 1) / 2 &&
            ReadWith(used', q', (phase + 1) % 3, mids') == ReadWith(used, f.q, phase, mids) + [b]
  {
    hide ByteOf, ReadWith, Second;
    PopPhase(f, beyond);
    assert mids + [] == mids && used + [] == used;
    if f.readCount % 3 == 0 {
      FirstWith(used, f, beyond, mids);
    } else if f.readCount % 3 == 1 {
      MiddleWith(used, f, beyond, mids);
    } else {
      LastWith(used, f, beyond, mids);
    }
  }

  lemma StepOut(t: Track, event: Event)
    requires Ok(t)
    ensures var t' := Step(t, Bits12, event);
            |t.out| <= |t'.out| &&
            (event.Sample? || t.f.q == [] ==> t'.out == t.out && t'.f.readCount == t.f.readCount) &&
            (event.Read? && t.f.q != [] ==>
              t'.out == t.out + [ByteOf(t.f, Bits12, event.beyond).0] &&
                t'.f.readCount == (t.f.readCount + 1) % WRAP) &&
            (event.Sample? ==> t.f.q <= t'.f.q) && (event.Read? && t.f.q == [] ==> t' == t)
  {
    hide ByteOf;
  }

  lemma StepWith(t: Track, event: Event, mids: seq<sample>)
    requires Ok(t) && Any12(t, mids) && |Step(t, Bits12, event).out| < WRAP
    ensures Any12(Step(t, Bits12, event), mids + MidOf(t, event))
  {
    hide Step, ByteOf, Shifted4, Middle, Low, Queue, UsedUp, PackWith, ReadWith;
    StepQueue(t, Bits12, event);
    QueueBound(t);
    QueueBound(Step(t, Bits12, event));
    StepOut(t, event);
    assert mids + [] == mids;
    if event.Read? && t.f.q != [] {
      NextPhase(t.f.readCount);
      PopPhase(t.f, event.beyond);
      ByteWith(UsedUp(t), t.f, event.beyond, mids);
      PopAt(t, event);
    } else {
      KeepsWith(UsedUp(t), t.f.q, Step(t, Bits12, event).f.q, t.f.readCount % 3, mids);
    }
  }

  lemma PopAt(t: Track, event: Event)
    requires Ok(t) && event.Read? && t.f.q != []
    ensures Step(t, Bits12, event).f.q == if ByteOf(t.f, Bits12, event.beyond).1 then t.f.q[1..] else t.f.q
  {
    hide ByteOf;
  }

  lemma KeepsWith(used: seq<sample>, q: seq<sample>, more: seq<sample>, phase: nat, mids: seq<sample>)
    requires phase < 3 && (phase == 1 ==> q != []) && (phase == 2 ==> used != [] && mids != []) && q <= more
    ensures ReadWith(used, more, phase, mids) == ReadWith(used, q, phase, mids)
  {
  }

  lemma {:induction false} Readout12With(events: seq<Event>)
    requires |Run(Always(Bits12), events).out| < WRAP
    ensures Any12(Run(Always(Bits12), events), Mids(events))
  {
    hide Step, Any12, MidOf;
    if events == [] {
      NothingRead();
    } else {
      var init, last := events[..|events| - 1], events[|events| - 1];
      StepOut(Run(Always(Bits12), init), last);
      Readout12With(init);
      StepWith(Run(Always(Bits12), init), last, Mids(init));
    }
  }

  lemma NothingRead()
    ensures Any12(Track(Fresh, [], []), [])
  {
  }

  lemma PairAgrees(front: seq<bv8>, other: seq<bv8>, a: sample, m: sample, b: sample)
    requires |front| == |other|
    ensures front + [Shifted4(a), Middle(a, m), Low(b)] == other + [Shifted4(a), Middle(a, b), Low(b)] <==>
            front == other && m & 0xF00 == b & 0xF00
  {
    hide Shifted4, Middle, Low;
    MiddleSame(a, m, b);
    var l, r := front + [Shifted4(a), Middle(a, m), Low(b)], other + [Shifted4(a), Middle(a, b), Low(b)];
    assert l[|front| + 1] == Middle(a, m) && r[|front| + 1] == Middle(a, b);
    assert l[..|front|] == front && r[..|front|] == other;
  }

  predicate Agrees(xs: seq<sample>, mids: seq<sample>, j: nat)
    requires 2 * j + 1 < |xs| && j < |mids|
  {
    mids[j] & 0xF00 == xs[2 * j + 1] & 0xF00
  }

  lemma AgreesFront(xs: seq<sample>, mids: seq<sample>)
    requires |xs| == 2 * |mids| && mids != []
    ensures var n := |mids| - 1;
            (forall j :: 0 <= j < |mids| ==> Agrees(xs, mids, j)) <==>
            (forall j :: 0 <= j < n ==> Agrees(xs[..2 * n], mids[..n], j)) && Agrees(xs, mids, n)
  {
    var n := |mids| - 1;
    assert forall j :: 0 <= j < n ==> (Agrees(xs[..2 * n], mids[..n], j) <==> Agrees(xs, mids, j));
  }

  lemma PackWithLast(xs: seq<sample>, mids: seq<sample>, n: nat)
    requires |xs| == 2 * n + 2 && |mids| == n + 1
    ensures PackWith(xs, mids) ==
            PackWith(xs[..2 * n], mids[..n]) + [Shifted4(xs[2 * n]), Middle(xs[2 * n], mids[n]), Low(xs[2 * n + 1])]
  {
    hide PackWith, Shifted4, Middle, Low;
    assert xs == xs[..2 * n] + [xs[2 * n]] + [xs[2 * n + 1]];
    assert mids == mids[..n] + [mids[n]];
    PackWithSnoc(xs[..2 * n], mids[..n], xs[2 * n], mids[n], xs[2 * n + 1]);
  }

  lemma PackLast(xs: seq<sample>, n: nat)
    requires |xs| == 2 * n + 2
    ensures Pack12(xs) ==
            Pack12(xs[..2 * n]) + [Shifted4(xs[2 * n]), Middle(xs[2 * n], xs[2 * n + 1]), Low(xs[2 * n + 1])]
  {
    hide Pack12, Shifted4, Middle, Low;
    assert xs == xs[..2 * n] + [xs[2 * n]] + [xs[2 * n + 1]];
    PackSnoc12(xs[..2 * n], xs[2 * n], xs[2 * n + 1]);
  }

  lemma {:induction false} PackWithIff(xs: seq<sample>, mids: seq<sample>)
    requires |xs| == 2 * |mids|
    ensures |PackWith(xs, mids)| == |Pack12(xs)|
    ensures PackWith(xs, mids) == Pack12(xs) <==> forall j :: 0 <= j < |mids| ==> Agrees(xs, mids, j)
  {
    hide Shifted4, Middle, Low, PackWith, Pack12;
    if mids == [] {
      PackWithNone(xs);
    } else {
      var n := |mids| - 1;
      PackWithIff(xs[..2 * n], mids[..n]);
      PackWithLast(xs, mids, n);
      PackLast(xs, n);
      AgreesFront(xs, mids);
      PairAgrees(PackWith(xs[..2 * n], mids[..n]), Pack12(xs[..2 * n]), xs[2 * n], mids[n], xs[2 * n + 1]);
    }
  }

  lemma PackWithNone(xs: seq<sample>)
    requires xs == []
    ensures PackWith(xs, []) == Pack12(xs) == []
  {
  }

  /** 12-bit readout in any run: between triples, the bytes read are those of the samples used up if and
      only if each middle byte was made from a value with the high bits of the second sample of its pair,
      which can only fail where that sample was not there yet. */
  lemma Readout12Iff(events: seq<Event>)
    requires |Run(Always(Bits12), events).out| < WRAP
    ensures var t := Run(Always(Bits12), events);
            Queue(t) && |Mids(events)| == (|UsedUp(t)| + 1) / 2 &&
            (|t.out| % 3 == 0 ==>
              |UsedUp(t)| == 2 * |Mids(events)| &&
              (t.out == Pack12(UsedUp(t)) <==>
                forall j :: 0 <= j < |Mids(events)| ==> Agrees(UsedUp(t), Mids(events), j)))
  {
    hide Run, Mids, Pack12, PackWith, Agrees;
    Readout12With(events);
    var t := Run(Always(Bits12), events);
    if |t.out| % 3 == 0 {
      PackWithIff(UsedUp(t), Mids(events));
    }
  }

  /** A middle byte read with two samples queued is made from the second sample of its pair. */
  lemma MidReady(events: seq<Event>, event: Event)
    requires |Run(Always(Bits12), events).out| < WRAP && event.Read?
    requires var t := Run(Always(Bits12), events); t.f.readCount % 3 == 1 && |t.f.q| >= 2
    ensures var t, mids := Run(Always(Bits12), events), Mids(events + [event]);
            mids != [] && 2 * |mids| - 1 < |t.stored| && mids[|mids| - 1] == t.stored[2 * |mids| - 1]
  {
    hide Run, Any12, Mids, MidOf;
    MidsSnoc(events, event);
    Readout12With(events);
    SecondStored(Run(Always(Bits12), events), Mids(events), event);
  }

  lemma MidsSnoc(events: seq<Event>, event: Event)
    ensures Mids(events + [event]) == Mids(events) + MidOf(Run(Always(Bits12), events), event)
  {
    hide Run, MidOf;
    assert (events + [event])[..|events|] == events;
  }

  lemma SecondStored(t: Track, mids: seq<sample>, event: Event)
    requires Any12(t, mids) && event.Read? && t.f.readCount % 3 == 1 && |t.f.q| >= 2
    ensures MidOf(t, event) == [t.f.q[1]] && 2 * |mids| + 1 < |t.stored| && t.f.q[1] == t.stored[2 * |mids| + 1]
  {
    hide ReadWith;
    assert t.stored[|t.stored| - |t.f.q|..][1] == t.f.q[1];
  }

  /** The number of sample sets that are at least partly queued. */
  function Sets(n: nat, size: nat): nat
    requires size > 0
  {
    (n + size - 1) / size
  }

  ghost predicate Counted(f: Fifo, size: nat) {
    0 < size <= 4 && |f.q| <= FIFO_SIZE && (f.q != [] ==> f.sampleSize == size) && f.sampleCount == Sets(|f.q|, size)
  }

  lemma SetsStep(n: nat, size: nat)
    requires 0 < size <= 4
    ensures Sets(n + size, size) == Sets(n, size) + 1
    ensures n > 0 ==> Sets(n - 1, size) == Sets(n, size) - (if (n - 1) % size == 0 then 1 else 0) && Sets(n, size) > 0
    ensures Sets(n, size) <= n
  {
    assert size == 1 || size == 2 || size == 3 || size == 4;
  }

  lemma StoreCounted(f: Fifo, batch: seq<sample>, size: nat)
    requires Counted(f, size) && (batch == [] || |batch| == size)
    ensures Counted(Store(f, batch), size)
  {
    hide Sets;
    SetsStep(|f.q|, size);
  }

  /** A byte read keeps sample_count right exactly if it uses up a sample or if the queued samples do
      not make whole sets. */
  lemma ReadCounted(f: Fifo, packing: Packing, was: bv8, beyond: sample, size: nat)
    requires Counted(f, size) && f.q != []
    ensures Counted(ReadByte(f, packing, was, beyond).0, size) <==>
            ByteOf(f, packing, beyond).1 || |f.q| % size != 0
  {
    hide Sets, ByteOf;
    SetsStep(|f.q|, size);
  }

  /** In 8-bit packing with a fixed layout sample_count always is the number of sets queued. */
  lemma {:induction false} CountExact(events: seq<Event>, size: nat)
    requires 0 < size <= 4
    requires forall e <- events :: e.Sample? ==> e.batch == [] || |e.batch| == size
    ensures Counted(Run(Always(Bits8), events).f, size)
  {
    if events != [] {
      hide Counted, Store, ReadByte;
      var init, last := events[..|events| - 1], events[|events| - 1];
      assert forall e <- init :: e in events;
      CountExact(init, size);
      var f := Run(Always(Bits8), init).f;
      assert last in events;
      if last.Sample? {
        StoreCounted(f, last.batch, size);
      } else if f.q != [] {
        ReadCounted(f, Bits8, last.was, last.beyond, size);
      }
    } else {
      assert Sets(0, size) == 0;
    }
  }

  /** In 16-bit packing it is not: two bytes of one single-axis sample take the count below zero. */
  lemma CountWrapsIn16Bits()
    ensures Run(Always(Bits16), [Sample([7]), Read(0, 0), Read(0, 0)]).f.sampleCount == WRAP - 1
  {
    var e0, e1, e2: Event := Sample([7]), Read(0, 0), Read(0, 0);
    assert [e0, e1, e2][..2] == [e0, e1] && [e0, e1][..1] == [e0] && [e0][..0] == [];
    assert Run(Always(Bits16), [e0]) == Step(Run(Always(Bits16), []), Bits16, e0);
    assert Run(Always(Bits16), [e0, e1]) == Step(Run(Always(Bits16), [e0]), Bits16, e1);
  }
}
