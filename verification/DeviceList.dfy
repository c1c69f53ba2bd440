/**
 Listing the devices of the VM: the entries of a response packet, the array the client builds from them,
 and the conversation with a server that answers in pages.
 */
module DeviceList {
  import opened Wire

  datatype Entry = Entry(kind: u16, num: u32, name: seq<byte>) {
    predicate Fits() {
      |name| < 0x1_0000
    }

    /** The bytes an entry takes: 8 and the name, padded. */
    function Size(): nat {
      Pad4(8 + |name|)
    }
  }

  /** One element of the array; memory fresh from realloc is zeroed. */
  datatype Slot = Blank | Full(entry: Entry) | Invalid

  function LE32(x: u32): (s: seq<byte>)
    ensures |s| == 4
  {
    LE16(x % 0x1_0000) + LE16(x / 0x1_0000)
  }

  function GetLE32(s: seq<byte>, i: nat): u32
    requires i + 4 <= |s|
  {
    GetLE16(s, i) as int + 0x1_0000 * GetLE16(s, i + 2) as int
  }

  function Encode(e: Entry): (s: seq<byte>)
    ensures |s| == e.Size()
  {
    LE16(e.kind) + LE16(|e.name| % 0x1_0000) + LE32(e.num) + e.name + Zeros(e.Size() - 8 - |e.name|)
  }

  function EncodeAll(es: seq<Entry>): seq<byte> {
    if es == [] then [] else Encode(es[0]) + EncodeAll(es[1..])
  }

  /** The step to the entry behind the one at the front. */
  function EntryLen(data: seq<byte>): (n: nat)
    requires |data| >= 8
    ensures n >= 8
  {
    Pad4(8 + GetLE16(data, 2))
  }

  predicate WellFormed(data: seq<byte>)
    decreases |data|
  {
    data == [] || (|data| >= 8 && EntryLen(data) <= |data| && WellFormed(data[EntryLen(data)..]))
  }

  function Front(data: seq<byte>): Entry
    requires |data| >= 8 && EntryLen(data) <= |data|
  {
    Entry(GetLE16(data, 0), GetLE32(data, 4), data[8..8 + GetLE16(data, 2)])
  }

  function Parse(data: seq<byte>): seq<Entry>
    requires WellFormed(data)
    decreases |data|
  {
    if data == [] then [] else [Front(data)] + Parse(data[EntryLen(data)..])
  }

  lemma LE32RoundTrip(x: u32)
    ensures GetLE32(LE32(x), 0) == x
  {
    var lo, hi := x % 0x1_0000, x / 0x1_0000;
    assert LE32(x)[0] == lo % 0x100 && LE32(x)[1] == lo / 0x100 && LE32(x)[2] == hi % 0x100 && LE32(x)[3] == hi / 0x100;
  }

  lemma FrontEncoded(e: Entry, rest: seq<byte>)
    requires e.Fits()
    ensures var s := Encode(e) + rest;
            |s| >= 8 && EntryLen(s) == e.Size() && Front(s) == e && s[e.Size()..] == rest
  {
    var s := Encode(e) + rest;
    LE32RoundTrip(e.num);
    assert s[0] == LE16(e.kind)[0] && s[1] == LE16(e.kind)[1];
    assert s[2] == LE16(|e.name|)[0] && s[3] == LE16(|e.name|)[1];
    assert s[4] == LE32(e.num)[0] && s[5] == LE32(e.num)[1] && s[6] == LE32(e.num)[2] && s[7] == LE32(e.num)[3];
    assert GetLE32(s, 4) == GetLE32(LE32(e.num), 0);
    assert s[8..8 + |e.name|] == e.name;
  }

  /** Parsing inverts the encoding of a page. */
  lemma {:induction false} ParseEncoded(es: seq<Entry>)
    requires forall e <- es :: e.Fits()
    ensures WellFormed(EncodeAll(es)) && Parse(EncodeAll(es)) == es
  {
    if es != [] {
      hide Encode, Front;
      assert es[0] in es;
      FrontEncoded(es[0], EncodeAll(es[1..]));
      ParseEncoded(es[1..]);
    }
  }

  function Fulls(es: seq<Entry>): (s: seq<Slot>)
    ensures |s| == |es|
  {
    seq(|es|, i requires 0 <= i < |es| => Full(es[i]))
  }

  /** The array cut or grown to n slots. */
  function Resize(list: seq<Slot>, n: nat): (s: seq<Slot>)
    ensures |s| == n
  {
    if n <= |list| then list[..n] else list + seq(n - |list|, _ => Blank)
  }

  /** The array after a page of entries from index base, with its terminator. */
  function Place(list: seq<Slot>, base: nat, es: seq<Entry>): seq<Slot> {
    Resize(list, base) + Fulls(es) + [Invalid]
  }

  /** What the loops find at offset offs. */
  lemma Cursor(data: seq<byte>, offs: nat)
    requires offs < |data| && WellFormed(data[offs..])
    ensures offs + 8 <= |data|
    ensures var len: nat := GetLE16(data, offs + 2);
            var next := offs + Pad4(8 + len);
            next <= |data| && WellFormed(data[next..]) &&
            Parse(data[offs..]) ==
            [Entry(GetLE16(data, offs), GetLE32(data, offs + 4), data[offs + 8..offs + 8 + len])] + Parse(data[next..])
  {
    hide Parse, WellFormed, Front;
    ParseStep(data[offs..]);
    FrontAt(data, offs);
  }

  lemma ParseStep(rest: seq<byte>)
    requires rest != [] && WellFormed(rest)
    ensures |rest| >= 8 && EntryLen(rest) <= |rest| && WellFormed(rest[EntryLen(rest)..])
    ensures Parse(rest) == [Front(rest)] + Parse(rest[EntryLen(rest)..])
  {
  }

  lemma FrontAt(data: seq<byte>, offs: nat)
    requires offs + 8 <= |data| && offs + EntryLen(data[offs..]) <= |data|
    ensures var len: nat := GetLE16(data, offs + 2);
            EntryLen(data[offs..]) == Pad4(8 + len) &&
              data[offs..][EntryLen(data[offs..])..] == data[offs + Pad4(8 + len)..] &&
            Front(data[offs..]) == Entry(GetLE16(data, offs), GetLE32(data, offs + 4), data[offs + 8..offs + 8 + len])
  {
    var rest, len: nat := data[offs..], GetLE16(data, offs + 2);
    assert len == GetLE16(rest, 2) && rest[8..8 + len] == data[offs + 8..offs + 8 + len];
  }

  class Client {
    /** device_list with device_list_size; no array at all is the empty sequence. */
    var list: seq<Slot>
    var query: bool

    constructor ()
      ensures list == [] && query
    {
      list, query := [], true;
    }

    /** coremodel_process_list_response; `next` is the index asked for with the next request. */
    method ProcessListResponse(base: u16, data: seq<byte>) returns (next: nat)
      requires base < 0x8000 && WellFormed(data)
      modifies this
      ensures data == [] ==> !query && list == old(list)
      ensures data != [] ==>
        query == old(query) && list == Place(old(list), base, Parse(data)) && next == base + |Parse(data)|
    {
      hide Parse, WellFormed, Place, Fulls;
      next := base;
      if data == [] {
        query := false;
        return;
      }
      var count := CountEntries(data);
      next := base + count;
      list := Resize(list, next + 1);
      Fill(base, data);
      PlaceFilled(old(list), list, base, Parse(data));
      list := list[next := Invalid];
    }

    /** The loop that counts the entries. */
    method CountEntries(data: seq<byte>) returns (count: nat)
      requires WellFormed(data)
      ensures count == |Parse(data)|
    {
      hide Parse, WellFormed;
      var offs := 0;
      count := 0;
      assert data[0..] == data;
      while offs < |data|
        invariant offs <= |data| && WellFormed(data[offs..])
        invariant count + |Parse(data[offs..])| == |Parse(data)|
      {
        Cursor(data, offs);
        offs, count := offs + Pad4(8 + GetLE16(data, offs + 2)), count + 1;
      }
      ParseNone(data[offs..]);
    }

    /** The loop that copies the entries into the array. */
    method Fill(base: nat, data: seq<byte>)
      requires WellFormed(data) && base + |Parse(data)| < |list|
      modifies this`list
      ensures |list| == |old(list)|
      ensures list[..base] == old(list)[..base] && list[base..base + |Parse(data)|] == Fulls(Parse(data))
    {
      hide Parse, WellFormed;
      var offs, num := 0, base;
      ghost var es := Parse(data);
      assert data[0..] == data && es[0..] == es;
      while offs < |data|
        invariant offs <= |data| && WellFormed(data[offs..])
        invariant base <= num <= base + |es| && Parse(data[offs..]) == es[num - base..]
        invariant |list| == |old(list)| && list[..base] == old(list)[..base]
        invariant forall k :: base <= k < num ==> list[k] == Full(es[k - base])
        decreases |data| - offs
      {
        Cursor(data, offs);
        var len: nat := GetLE16(data, offs + 2);
        var e := Entry(GetLE16(data, offs), GetLE32(data, offs + 4), data[offs + 8..offs + 8 + len]);
        Tail(es, num - base, e, Parse(data[offs + Pad4(8 + len)..]));
        list := list[num := Full(e)];
        offs, num := offs + Pad4(8 + len), num + 1;
      }
      ParseNone(data[offs..]);
    }
  }

  lemma ParseNone(data: seq<byte>)
    requires data == []
    ensures WellFormed(data) && Parse(data) == []
  {
  }

  lemma Tail(es: seq<Entry>, k: nat, e: Entry, rest: seq<Entry>)
    requires k <= |es| && es[k..] == [e] + rest
    ensures k < |es| && es[k] == e && es[k + 1..] == rest
  {
    assert es[k] == es[k..][0] && es[k + 1..] == es[k..][1..];
  }

  lemma PlaceFilled(before: seq<Slot>, filled: seq<Slot>, base: nat, es: seq<Entry>)
    requires var n := base + |es|;
             |filled| == n + 1 && filled[..base] == Resize(before, n + 1)[..base] && filled[base..n] == Fulls(es)
    ensures filled[base + |es| := Invalid] == Place(before, base, es)
  {
    var n := base + |es|;
    assert filled[n := Invalid] == filled[..base] + filled[base..n] + [Invalid];
    assert Resize(before, n + 1)[..base] == Resize(before, base);
  }

  /** The hflag of a request: bit 15 tells a list of subdevices, the rest is the index. */
  function RequestFlag(n: nat, subdevices: bool): u16 {
    var low := n % 0x1_0000;
    if subdevices && low < 0x8000 then low + 0x8000 else low
  }

  /** A request says what it means exactly as long as the index has 15 bits. */
  lemma RequestMeaning(n: nat, subdevices: bool)
    ensures (RequestFlag(n, subdevices) % 0x8000 == n &&
            (RequestFlag(n, subdevices) >= 0x8000 <==> subdevices)) <==> n < 0x8000
  {
  }

  /** The first index that is lost: it asks for the subdevices from the start. */
  lemma RequestExample()
    ensures RequestFlag(0x8000, false) == RequestFlag(0, true)
  {
  }

  /** The array for the first entries, with its terminator; NULL when there are none. */
  function Terminated(es: seq<Entry>): seq<Slot> {
    if es == [] then [] else Fulls(es) + [Invalid]
  }

  /** A page that continues a terminated prefix makes a longer one. */
  lemma PageExtends(all: seq<Entry>, idx: nat, k: nat)
    requires 0 < k && idx + k <= |all|
    ensures Place(Terminated(all[..idx]), idx, all[idx..idx + k]) == Terminated(all[..idx + k])
  {
    assert all[..idx + k] == all[..idx] + all[idx..idx + k];
    assert Fulls(all[..idx + k]) == Fulls(all[..idx]) + Fulls(all[idx..idx + k]);
    assert Resize(Terminated(all[..idx]), idx) == Fulls(all[..idx]);
  }

  lemma PageFits(all: seq<Entry>, idx: nat, k: nat)
    requires 0 < k && idx + k <= |all| && forall e <- all :: e.Fits()
    ensures var page := all[idx..idx + k];
            WellFormed(EncodeAll(page)) && Parse(EncodeAll(page)) == page && EncodeAll(page) != []
  {
    var page := all[idx..idx + k];
    assert forall e <- page :: e in all;
    ParseEncoded(page);
    assert |Encode(page[0])| >= 8;
  }

  /** coremodel_list and coremodel_list_subdevices against a server with the entries `all` that answers
      request number r with any nonempty page, whose length pages(r) picks, or with an empty one at the
      end.  The result is exactly the server's list, after at most one response more than it has
      entries. */
  method ListDevices(all: seq<Entry>, pages: nat -> nat, subdevices: bool) returns (res: seq<Slot>, responses: nat)
    requires |all| < 0x8000 && forall e <- all :: e.Fits()
    ensures res == Terminated(all) && responses <= |all| + 1
  {
    hide Parse, WellFormed, Place, Terminated, EncodeAll;
    var client := new Client();
    var idx: nat := 0;
    responses := 0;
    TerminatedNone();
    assert all[..0] == [];
    while client.query
      invariant idx <= |all| && responses <= idx + if client.query then 0 else 1
      invariant client.list == Terminated(all[..idx]) && (!client.query ==> idx == |all|)
      invariant fresh(client)
      decreases client.query, |all| - idx
    {
      var request := RequestFlag(idx, subdevices);
      RequestMeaning(idx, subdevices);
      var from := request % 0x8000;
      var k := if from < |all| then Moved(pages(responses), |all| - from) else 0;
      if k > 0 {
        PageFits(all, from, k);
        PageExtends(all, from, k);
      }
      EmptyPage();
      var next := client.ProcessListResponse(from, EncodeAll(all[from..from + k]));
      responses := responses + 1;
      idx := from + k;
      assert client.query ==> next == idx;
    }
    assert all[..idx] == all;
    res := client.list;
  }

  lemma TerminatedNone()
    ensures Terminated([]) == []
  {
  }

  lemma EmptyPage()
    ensures EncodeAll([]) == [] && WellFormed([])
  {
  }
}
