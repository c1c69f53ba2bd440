/**
 The sample FIFO of the ADXL36x accelerometer model: a ring of 2048 samples, filled in sets whose layout
 the channel selection picks and read byte by byte in one of three packings.
 */
module AdxlFifo {
  import opened Wire

  const FIFO_SIZE := 2048

  type sample = bv16

  /** The FIFO as a queue.  `readCount` carries the position within a packed sample. */
  datatype Fifo = Fifo(q: seq<sample>, readCount: u32, sampleCount: u32, sampleSize: nat)

  const Fresh := Fifo([], 0, 0, 0)

  /** The samples of one set, by channel selection; the other selections store nothing. */
  function Layout(select: nat, x: sample, y: sample, z: sample, t: sample): (batch: seq<sample>)
    ensures |batch| <= 4
  {
    if select == 0 then [x, y, z]
    else if select == 1 then [x]
    else if select == 2 then [y]
    else if select == 3 then [z]
    else if select == 4 then [x, y, z, t]
    else if select == 5 then [x, t]
    else if select == 6 then [y, t]
    else if select == 7 then [z, t]
    else if select == 8 then [x, y, z, 0]
    else if select == 9 then [x, 0]
    else if select == 10 then [y, 0]
    else if select == 11 then [z, 0]
    else []
  }

  /** The low two bits of a channel selection below 12 pick the axes and the other two what follows them:
      nothing, the temperature, or a zero. */
  lemma LayoutBits(axes: nat, extra: nat, x: sample, y: sample, z: sample, t: sample)
    requires axes < 4 && extra < 3
    ensures Layout(axes + 4 * extra, x, y, z, t) ==
            (if axes == 0 then [x, y, z] else [[x, y, z][axes - 1]]) + [[], [t], [0]][extra]
  {
  }

  /** One reading as it is stored: 8- and 12-bit packing drop low bits, 16-bit packing marks the channel. */
  function Axis(packing: Packing, tag: sample, v: sample): sample {
    match packing
    case Bits8 => v >> 6
    case Bits12 => v >> 4
    case Bits16 => Mark(tag, v)
  }

  const TAG_X: sample := 0
  const TAG_Y: sample := 0x4000
  const TAG_Z: sample := 0x8000
  const TAG_T: sample := 0xC000

  function SetOf(packing: Packing, select: nat, x: sample, y: sample, z: sample, t: sample): (batch: seq<sample>)
    ensures |batch| <= 4
  {
    Layout(select, Axis(packing, TAG_X, x), Axis(packing, TAG_Y, y), Axis(packing, TAG_Z, z), Axis(packing, TAG_T, t))
  }

  /** Two readings agree in the bits that the packing keeps. */
  predicate Agree(packing: Packing, tag: sample, v: sample, w: sample) {
    match packing
    case Bits8 => v & 0xFFC0 == w & 0xFFC0
    case Bits12 => v & 0xFFF0 == w & 0xFFF0
    case Bits16 => Unmark(tag, v) == Unmark(tag, w)
  }

  predicate SelectsY(select: nat) {
    select < 12 && select % 2 == 0
  }

  predicate SelectsZ(select: nat) {
    select == 0 || select == 3 || select == 4 || select == 7 || select == 8 || select == 11
  }

  function Mark(tag: sample, v: sample): sample {
    v | tag
  }

  function Unmark(tag: sample, v: sample): sample {
    v & !tag
  }

  lemma MarkUnmark(tag: sample, v: sample)
    ensures Unmark(tag, Mark(tag, v)) == Unmark(tag, v) && Mark(tag, Unmark(tag, v)) == Mark(tag, v)
  {
  }

  lemma AxisIff8(tag: sample, v: sample, w: sample)
    ensures Axis(Bits8, tag, v) == Axis(Bits8, tag, w) <==> Agree(Bits8, tag, v, w)
  {
  }

  lemma AxisIff12(tag: sample, v: sample, w: sample)
    ensures Axis(Bits12, tag, v) == Axis(Bits12, tag, w) <==> Agree(Bits12, tag, v, w)
  {
  }

  lemma AxisIff16(tag: sample, v: sample, w: sample)
    ensures Axis(Bits16, tag, v) == Axis(Bits16, tag, w) <==> Agree(Bits16, tag, v, w)
  {
    hide Mark, Unmark;
    MarkUnmark(tag, v);
    MarkUnmark(tag, w);
  }

  lemma AxisIff(packing: Packing, tag: sample, v: sample, w: sample)
    ensures Axis(packing, tag, v) == Axis(packing, tag, w) <==> Agree(packing, tag, v, w)
  {
    hide Axis, Agree;
    AxisIff8(tag, v, w);
    AxisIff12(tag, v, w);
    AxisIff16(tag, v, w);
  }

  /** A set made of the first axis alone is the set meant, if and only if each other axis that is selected
      agrees with the first in the bits that are kept. */
  lemma FirstAxisIff(packing: Packing, select: nat, x: sample, y: sample, z: sample, t: sample)
    ensures SetOf(packing, select, x, x, x, t) == SetOf(packing, select, x, y, z, t) <==>
            (SelectsY(select) ==> Agree(packing, TAG_Y, y, x)) && (SelectsZ(select) ==> Agree(packing, TAG_Z, z, x))
  {
    hide Axis, Agree;
    AxisIff(packing, TAG_Y, y, x);
    AxisIff(packing, TAG_Z, z, x);
    var a, b := SetOf(packing, select, x, x, x, t), SetOf(packing, select, x, y, z, t);
    assert a == b <==> |a| == |b| && forall k :: 0 <= k < |a| ==> a[k] == b[k];
  }

  /** A set is stored whole or not at all. */
  function Store(f: Fifo, batch: seq<sample>): Fifo {
    if batch == [] || |f.q| + |batch| > FIFO_SIZE then f
    else f.(q := f.q + batch, sampleCount := (f.sampleCount + 1) % WRAP, sampleSize := |batch|)
  }

  function Low(s: sample): bv8 {
    (s & 0xFF) as bv8
  }

  /** The three bytes that pack two 12-bit samples, the first being Low of the first shifted by 4. */
  function Middle(s: sample, next: sample): bv8 {
    Low((s & 0xF) << 4) | Low((next & 0xF00) >> 8)
  }

  function Shifted4(s: sample): bv8 {
    Low(s >> 4)
  }

  function High(s: sample): bv8 {
    Low(s >> 8)
  }

  datatype Packing = Bits8 | Bits12 | Bits16

  /** The byte produced, and whether a sample is used up.  `beyond` is what the slot behind the last
      sample still holds. */
  function ByteOf(f: Fifo, packing: Packing, beyond: sample): (bv8, bool)
    requires f.q != []
  {
    var s := f.q[0];
    match packing
    case Bits8 => (Low(s), true)
    case Bits12 =>
      if f.readCount % 3 == 0 then (Shifted4(s), false)
      else if f.readCount % 3 == 1 then
        var next := if |f.q| > 1 then f.q[1] else beyond;
        (Middle(s, next), true)
      else (Low(s), true)
    case Bits16 =>
      if f.readCount % 2 == 0 then (High(s), false) else (Low(s), true)
  }

  /** One byte read.  An empty FIFO changes nothing, and leaves the caller's byte as it was. */
  function ReadByte(f: Fifo, packing: Packing, was: bv8, beyond: sample): (Fifo, bv8)
    requires f.q != [] ==> f.sampleSize > 0
  {
    if f.q == [] then (f, was)
    else
      var (b, pop) := ByteOf(f, packing, beyond);
      var q := if pop then f.q[1..] else f.q;
      var count := if |q| % f.sampleSize == 0 then (f.sampleCount - 1) % WRAP else f.sampleCount;
      (f.(q := q, sampleCount := count, readCount := (f.readCount + 1) % WRAP), b)
  }

  /** n slots of the ring from a free-running position. */
  function Slots(ring: seq<sample>, start: nat, n: nat): (s: seq<sample>)
    requires |ring| == FIFO_SIZE
    ensures |s| == n
  {
    seq(n, i requires 0 <= i => ring[(start + i) % FIFO_SIZE])
  }

  lemma Apart(a: nat, d: nat)
    requires 0 < d < FIFO_SIZE
    ensures (a + d) % FIFO_SIZE != a % FIFO_SIZE
  {
  }

  lemma Wrapped(a: nat, d: nat)
    ensures (a % WRAP + d) % FIFO_SIZE == (a + d) % FIFO_SIZE
  {
  }

  lemma SlotsPut(ring: seq<sample>, rp: u32, wp: u32, v: sample)
    requires |ring| == FIFO_SIZE && (wp - rp) % WRAP < FIFO_SIZE
    ensures var n := (wp - rp) % WRAP;
            (((wp + 1) % WRAP) - rp) % WRAP == n + 1 &&
            Slots(ring[wp % FIFO_SIZE := v], rp, n + 1) == Slots(ring, rp, n) + [v]
  {
    var n := (wp - rp) % WRAP;
    assert (rp + n) % FIFO_SIZE == wp % FIFO_SIZE;
    forall i | 0 <= i < n
      ensures Slots(ring[wp % FIFO_SIZE := v], rp, n + 1)[i] == Slots(ring, rp, n)[i]
    {
      Apart(rp + i, n - i);
    }
  }

  lemma CounterPop(rp: u32, wp: u32)
    requires 0 < (wp - rp) % WRAP
    ensures (wp - (rp + 1) % WRAP) % WRAP == (wp - rp) % WRAP - 1
  {
  }

  lemma SlotsPop(ring: seq<sample>, rp: u32, n: nat)
    requires |ring| == FIFO_SIZE && 0 < n
    ensures Slots(ring, (rp + 1) % WRAP, n - 1) == Slots(ring, rp, n)[1..]
  {
    forall i | 0 <= i < n - 1
      ensures Slots(ring, (rp + 1) % WRAP, n - 1)[i] == Slots(ring, rp, n)[1..][i]
    {
      Wrapped(rp + 1, i);
    }
  }

  class Adxl {
    const sampleFifo: array<sample>
    var wpt: u32
    var rpt: u32
    var fifoCount: u32
    var sampleCount: u32
    var sampleSize: u32
    var readCount: u32
    var fifoControl: bv8
    var adcCtl: bv8
    var fifoSamples: bv8
    var fifoTrig: bool
    /** The low 16 bits of the three readings. */
    const accel: array<sample>
    var temp: sample
    var overrun: bool
    var watermark: bool

    ghost predicate Valid()
      reads this
    {
      sampleFifo.Length == FIFO_SIZE && accel.Length == 3 && accel != sampleFifo &&
        fifoCount == (wpt - rpt) % WRAP <= FIFO_SIZE &&
      (fifoCount > 0 ==> sampleSize > 0)
    }

    /** The samples stored and not yet used up, oldest first. */
    ghost function Contents(): (q: seq<sample>)
      requires sampleFifo.Length == FIFO_SIZE
      reads this, sampleFifo
    {
      Slots(sampleFifo[..], rpt, (wpt - rpt) % WRAP)
    }

    ghost function View(): Fifo
      requires sampleFifo.Length == FIFO_SIZE
      reads this, sampleFifo
    {
      Fifo(Contents(), readCount, sampleCount, sampleSize)
    }

    /** All fields are zero after calloc. */
    constructor ()
      ensures Valid() && fresh(sampleFifo) && fresh(accel) && View() == Fresh
    {
      sampleFifo := new sample[FIFO_SIZE](_ => 0);
      wpt, rpt, fifoCount, sampleCount, sampleSize, readCount := 0, 0, 0, 0, 0, 0;
      fifoControl, adcCtl, fifoSamples, fifoTrig, temp := 0, 0, 0, false, 0;
      accel := new sample[3](_ => 0);
      overrun, watermark := false, false;
    }

    /** The FIFO part of adi_adxl36x_reset.  It does not clear fifo_count: the FIFO is sound afterwards
        exactly if nothing was queued. */
    method Reset()
      requires Valid()
      modifies this`wpt, this`rpt, this`sampleCount, this`fifoTrig, sampleFifo
      ensures Contents() == [] && sampleCount == 0
      ensures Valid() <==> old(fifoCount) == 0
    {
      sampleCount, wpt, rpt, fifoTrig := 0, 0, 0, false;
      forall i | 0 <= i < sampleFifo.Length {
        sampleFifo[i] := 0;
      }
    }

    function PackingOf(): Packing
      reads this`adcCtl
    {
      var mode := (adcCtl & 0xC0) >> 6;
      if mode == 1 then Bits8 else if mode == 2 then Bits12 else Bits16
    }

    function Select(): nat
      reads this`fifoControl
    {
      ((fifoControl & 0x78) >> 3) as nat
    }

    /** The set that the next sample makes: all three axes come from the first reading. */
    function SampleSet(): (batch: seq<sample>)
      requires accel.Length == 3
      reads this`adcCtl, this`fifoControl, this`temp, accel
    {
      SetOf(PackingOf(), Select(), accel[0], accel[0], accel[0], temp)
    }

    /** The set that the channel selection asks for. */
    function SelectedSet(): (batch: seq<sample>)
      requires accel.Length == 3
      reads this`adcCtl, this`fifoControl, this`temp, accel
    {
      SetOf(PackingOf(), Select(), accel[0], accel[1], accel[2], temp)
    }

    lemma SampledIff()
      requires Valid()
      ensures SampleSet() == SelectedSet() <==>
              (SelectsY(Select()) ==> Agree(PackingOf(), TAG_Y, accel[1], accel[0])) &&
              (SelectsZ(Select()) ==> Agree(PackingOf(), TAG_Z, accel[2], accel[0]))
    {
      hide SetOf, Agree, PackingOf, Select;
      FirstAxisIff(PackingOf(), Select(), accel[0], accel[1], accel[2], temp);
    }

    /** A state in which it is not. */
    lemma WrongAxes()
      requires Valid() && PackingOf() == Bits8 && Select() == 0 && accel[..] == [0x40, 0x80, 0xC0]
      ensures SampleSet() == [1, 1, 1] && SelectedSet() == [1, 2, 3]
    {
      hide PackingOf, Select;
      assert accel[0] == 0x40 && accel[1] == 0x80 && accel[2] == 0xC0;
    }

    /** The watermark level. */
    function Level(): nat
      reads this`fifoControl, this`fifoSamples
    {
      (if fifoControl & 4 != 0 then 0x100 else 0) + fifoSamples as nat
    }

    /** The mode refuses the sample before its size is looked at. */
    predicate Refused()
      reads this`fifoControl, this`fifoTrig, this`sampleCount, this`fifoSamples, this`wpt, this`rpt
    {
      var full := (wpt - rpt) % WRAP == FIFO_SIZE;
      (fifoControl & 3 == 1 && full) ||
      (fifoControl & 3 == 3 && (sampleCount == Level() || !fifoTrig || full))
    }

    method Put(v: sample)
      requires sampleFifo.Length == FIFO_SIZE && |Contents()| < FIFO_SIZE
      modifies this`wpt, sampleFifo
      ensures Contents() == old(Contents()) + [v] && (wpt - rpt) % WRAP == old((wpt - rpt) % WRAP) + 1
    {
      SlotsPut(sampleFifo[..], rpt, wpt, v);
      ghost var ring := sampleFifo[..];
      sampleFifo[wpt % FIFO_SIZE] := v;
      assert sampleFifo[..] == ring[wpt % FIFO_SIZE := v];
      wpt := (wpt + 1) % WRAP;
    }

    /** adi_adxl36x_fifo_sample. */
    method FifoSample()
      requires Valid()
      modifies this`wpt, this`fifoCount, this`sampleCount, this`sampleSize, this`overrun, this`watermark, sampleFifo
      ensures Valid()
      ensures View() == if old(Refused()) then old(View()) else Store(old(View()), SampleSet())
      ensures overrun == (old(overrun) || (fifoControl & 3 == 1 && |old(Contents())| == FIFO_SIZE))
      ensures watermark ==
        (old(watermark) || (!old(Refused()) && |old(Contents())| + |SampleSet()| <= FIFO_SIZE &&
          sampleCount >= Level()))
    {
      hide Slots, Layout, SetOf, Level, Select, PackingOf;
      var wsize := FIFO_SIZE - (wpt - rpt) % WRAP;
      if fifoControl & 3 == 1 && wsize == 0 {
        overrun := true;
        return;
      }
      if fifoControl & 3 == 3 && (sampleCount == Level() || !fifoTrig || wsize == 0) {
        return;
      }
      var batch := SampleSet();
      if wsize < |batch| {
        return;
      }
      if batch != [] {
        PutAll(batch);
        sampleSize := |batch|;
        sampleCount := (sampleCount + 1) % WRAP;
        fifoCount := (fifoCount + |batch|) % WRAP;
      }
      if sampleCount >= Level() {
        watermark := true;
      }
    }

    /** The stores of one set, which the source writes out one by one. */
    method PutAll(batch: seq<sample>)
      requires sampleFifo.Length == FIFO_SIZE && |Contents()| + |batch| <= FIFO_SIZE
      modifies this`wpt, sampleFifo
      ensures Contents() == old(Contents()) + batch && (wpt - rpt) % WRAP == old((wpt - rpt) % WRAP) + |batch|
    {
      for k := 0 to |batch|
        invariant Contents() == old(Contents()) + batch[..k] && (wpt - rpt) % WRAP == old((wpt - rpt) % WRAP) + k
      {
        Put(batch[k]);
        assert batch[..k + 1] == batch[..k] + [batch[k]];
      }
      assert batch[..|batch|] == batch;
    }

    /** The sample at the read position. */
    method Front() returns (s: sample)
      requires Valid()
      ensures s == sampleFifo[rpt % FIFO_SIZE] && (fifoCount > 0 ==> s == Contents()[0])
    {
      s := sampleFifo[rpt % FIFO_SIZE];
    }

    /** The byte and the pop of one turn, by packing. */
    method TakeByte() returns (b: bv8)
      requires Valid() && fifoCount > 0
      modifies this`rpt, this`fifoCount
      ensures Valid()
      ensures var (b', pop) := ByteOf(old(View()), PackingOf(), old(sampleFifo[(rpt + |Contents()|) % FIFO_SIZE]));
              b == b' && Contents() == if pop then old(Contents())[1..] else old(Contents())
    {
      hide Slots, Low, Middle, Shifted4, High, PackingOf;
      var s := Front();
      match PackingOf() {
        case Bits8 =>
          b := Low(s);
          Pop();
        case Bits12 =>
          if readCount % 3 == 0 {
            b := Shifted4(s);
          } else if readCount % 3 == 1 {
            Pop();
            Wrapped(old(rpt) + 1, 0);
            var next := Front();
            b := Middle(s, next);
          } else {
            b := Low(s);
            Pop();
          }
        case Bits16 =>
          if readCount % 2 == 0 {
            b := High(s);
          } else {
            b := Low(s);
            Pop();
          }
      }
    }

    /** One turn of adi_adxl36x_read at the FIFO register. */
    method ReadFifo(was: bv8) returns (b: bv8)
      requires Valid()
      modifies this`rpt, this`fifoCount, this`sampleCount, this`readCount
      ensures Valid()
      ensures (View(), b) == ReadByte(old(View()), PackingOf(), was, old(sampleFifo[(rpt + |Contents()|) % FIFO_SIZE]))
    {
      hide Slots, ByteOf, PackingOf;
      if fifoCount == 0 {
        return was;
      }
      b := TakeByte();
      if fifoCount % sampleSize == 0 {
        sampleCount := (sampleCount - 1) % WRAP;
      }
      readCount := (readCount + 1) % WRAP;
    }

    method Pop()
      requires Valid() && fifoCount > 0
      modifies this`rpt, this`fifoCount
      ensures Valid() && Contents() == old(Contents())[1..] && rpt == (old(rpt) + 1) % WRAP
    {
      CounterPop(rpt, wpt);
      SlotsPop(sampleFifo[..], rpt, fifoCount);
      rpt := (rpt + 1) % WRAP;
      fifoCount := fifoCount - 1;
    }
  }
}
