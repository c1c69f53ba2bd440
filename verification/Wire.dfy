/** Bytes, little-endian integers and the packets of the CoreModel byte stream. */
module Wire {

  type byte = x: int | 0 <= x < 0x100
  type u16 = x: int | 0 <= x < 0x1_0000
  type u32 = x: int | 0 <= x < 0x1_0000_0000

  const WRAP := 0x1_0000_0000

  const RX_BUF := 4096
  const MAX_PKT := 2048
  const CONN_QUERY: u16 := 0xFFFF

  /** A packet without its length field, which is always 8 + |data|. */
  datatype Packet = Packet(conn: u16, kind: byte, bflag: byte, hflag: u16, data: seq<byte>) {
    function Len(): nat {
      8 + |data|
    }

    /** The length field has 16 bits. */
    predicate Sendable() {
      Len() < 0x1_0000
    }
  }

  function Min(a: nat, b: nat): (m: nat)
    ensures m <= a && m <= b && (m == a || m == b)
  {
    if a < b then a else b
  }

  /** What a read or write of at most `most` bytes moves: at least one byte. */
  function Moved(choice: nat, most: nat): (n: nat)
    requires most > 0
    ensures 1 <= n <= most
  {
    1 + choice % most
  }

  function Pad4(n: nat): (r: nat)
    ensures n <= r < n + 4 && r % 4 == 0
  {
    (n + 3) / 4 * 4
  }

  function LE16(x: u16): (s: seq<byte>)
    ensures |s| == 2
  {
    [x % 0x100, x / 0x100]
  }

  function GetLE16(s: seq<byte>, i: nat): u16
    requires i + 2 <= |s|
  {
    s[i] as int + 0x100 * s[i + 1] as int
  }

  function Zeros(n: nat): (s: seq<byte>)
    ensures |s| == n
  {
    seq(n, _ => 0)
  }

  /** The bytes of a packet, as laid out by the packed header and the payload behind it. */
  function Encode(p: Packet): (s: seq<byte>)
    ensures |s| == p.Len()
  {
    LE16(p.Len() % 0x1_0000) + LE16(p.conn) + [p.kind, p.bflag] + LE16(p.hflag) + p.data
  }

  /** What is put on the stream: the packet padded with zeros to a multiple of 4. */
  function Frame(p: Packet): (s: seq<byte>)
    ensures |s| == Pad4(p.Len())
  {
    Encode(p) + Zeros(Pad4(p.Len()) - p.Len())
  }

  /** Reads the packet whose header starts s. */
  function Decode(s: seq<byte>): Packet
    requires |s| >= 8 && 8 <= GetLE16(s, 0) <= |s|
  {
    Packet(GetLE16(s, 2), s[4], s[5], GetLE16(s, 6), s[8..GetLE16(s, 0)])
  }

  lemma DecodeFrame(p: Packet, rest: seq<byte>)
    requires p.Sendable()
    ensures var s := Frame(p) + rest;
            GetLE16(s, 0) == p.Len() && Decode(s) == p
  {
    var s := Frame(p) + rest;
    assert s[0] == p.Len() % 0x100 && s[1] == p.Len() / 0x100;
    assert s[2] == p.conn % 0x100 && s[3] == p.conn / 0x100;
    assert s[4] == p.kind && s[5] == p.bflag;
    assert s[6] == p.hflag % 0x100 && s[7] == p.hflag / 0x100;
    assert s[8..p.Len()] == p.data;
  }

  /** The layout of struct coremodel_packet: every field at its own place, little-endian, then the payload
      and the padding. */
  lemma HeaderBytes(p: Packet)
    requires p.Sendable()
    ensures var s := Frame(p);
            s[0] as int + 0x100 * s[1] as int == 8 + |p.data| && s[2] as int + 0x100 * s[3] as int == p.conn &&
            s[4] == p.kind && s[5] == p.bflag && s[6] as int + 0x100 * s[7] as int == p.hflag &&
            s[8..8 + |p.data|] == p.data && forall i :: 8 + |p.data| <= i < |s| ==> s[i] == 0
  {
    var s := Frame(p);
    assert s[0] == p.Len() % 0x100 && s[1] == p.Len() / 0x100;
    assert s[2] == p.conn % 0x100 && s[3] == p.conn / 0x100;
    assert s[6] == p.hflag % 0x100 && s[7] == p.hflag / 0x100;
  }

  function Frames(ps: seq<Packet>): seq<byte> {
    if ps == [] then [] else Frame(ps[0]) + Frames(ps[1..])
  }

  lemma Assoc<T>(a: seq<T>, b: seq<T>, c: seq<T>)
    ensures (a + b) + c == a + (b + c)
  {
  }

  lemma TakeDrop<T>(s: seq<T>, k: nat, m: nat)
    requires k + m <= |s|
    ensures s[..k + m] == s[..k] + s[k..][..m] && s[k..][m..] == s[k + m..]
  {
  }

  lemma {:induction false} FramesConcat(ps: seq<Packet>, qs: seq<Packet>)
    ensures Frames(ps + qs) == Frames(ps) + Frames(qs)
  {
    if ps == [] {
      assert ps + qs == qs;
    } else {
      assert (ps + qs)[1..] == ps[1..] + qs;
      FramesConcat(ps[1..], qs);
      Assoc(Frame(ps[0]), Frames(ps[1..]), Frames(qs));
    }
  }

  lemma FramesNone()
    ensures Frames([]) == []
  {
  }

  lemma FramesSnoc(ps: seq<Packet>, p: Packet)
    ensures Frames(ps + [p]) == Frames(ps) + Frame(p)
  {
    FramesConcat(ps, [p]);
    assert Frames([p]) == Frame(p) + Frames([]) == Frame(p);
  }
}
