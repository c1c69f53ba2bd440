/** The USB keyboard example: the device side of control transfers on endpoint 0. */
module UsbControl {
  import opened Wire

  const OUT := 0
  const IN := 1
  const SETUP := 2
  const NAK := -1
  const STALL := -2

  const EP0_BUF := 512

  /** `ptr` is how much of the data stage has gone by, `length` how long it is. */
  datatype Control = Control(
    addr: byte, inSetup: bool, reqType: byte, request: byte, value: u16, index: u16, length: u16,
    buf: seq<byte>, ptr: nat, report: seq<byte>, hasReport: bool)

  predicate Valid(s: Control) {
    |s.buf| == EP0_BUF && |s.report| == 8 && s.ptr <= s.length
  }

  predicate FromDevice(reqType: byte) {
    reqType >= 0x80
  }

  function Word(lo: byte, hi: byte): u16 {
    lo + 256 * hi
  }

  function DeviceDescriptor(): (d: seq<byte>)
    ensures |d| == 18
  {
    [18, 1, 0x00, 0x02, 0, 0, 0, 8, 0x6b, 0x1d, 0x04, 0x01, 0x01, 0x01, 1, 2, 0, 1]
  }

  /** Configuration, interface, HID and endpoint descriptor in a row; bytes 2 and 3 are filled in later. */
  function ConfigDescriptor(): (d: seq<byte>)
    ensures |d| == 34
  {
    [9, 2, 0, 0, 1, 1, 3, 0xa0, 0] +
    [9, 4, 0, 0, 1, 3, 1, 1, 4] +
    [9, 0x21, 0x11, 0x01, 0x21, 1, 0x22, 0x3f, 0x00] +
    [7, 5, 0x81, 3, 8, 0, 2]
  }

  function Letters(i: nat): (chars: seq<byte>)
    requires 1 <= i <= 4
    ensures |chars| <= 10
  {
    if i == 1 then [67, 111, 114, 101, 108, 108, 105, 117, 109]
    else if i == 4 then [72, 73, 68, 32, 68, 101, 118, 105, 99, 101]
    else [75, 101, 121, 98, 111, 97, 114, 100]
  }

  function Wide(chars: seq<byte>): (r: seq<byte>)
    ensures |r| == 2 * |chars|
  {
    if chars == [] then [] else [chars[0], 0] + Wide(chars[1..])
  }

  /** Byte 0 is filled in later. */
  function StringDescriptor(i: nat): (d: seq<byte>)
    requires i <= 4
    ensures 4 <= |d| <= 22
  {
    [0, 3] + if i == 0 then [0x09, 0x04] else Wide(Letters(i))
  }

  function ReportDescriptor(): (d: seq<byte>)
    ensures |d| == 63
  {
    [0x05, 0x01, 0x09, 0x06, 0xA1, 0x01, 0x05, 0x07, 0x19, 0xE0, 0x29, 0xE7, 0x15, 0x00, 0x25, 0x01] +
    [0x75, 0x01, 0x95, 0x08, 0x81, 0x02, 0x95, 0x01, 0x75, 0x08, 0x81, 0x01, 0x95, 0x05, 0x75, 0x01] +
    [0x05, 0x08, 0x19, 0x01, 0x29, 0x05, 0x91, 0x02, 0x95, 0x01, 0x75, 0x03, 0x91, 0x01, 0x95, 0x06] +
    [0x75, 0x08, 0x15, 0x00, 0x25, 0x65, 0x05, 0x07, 0x19, 0x00, 0x29, 0x65, 0x81, 0x00, 0xC0]
  }

  datatype Kind = Device | Config | Str(i: nat) | Report | Unsupported

  function Asked(reqType: byte, request: byte, value: u16): (k: Kind)
    ensures k.Str? ==> k.i <= 4
  {
    if request != 6 then Unsupported
    else if reqType == 0x80 && value / 256 == 1 then Device
    else if reqType == 0x80 && value / 256 == 2 then Config
    else if reqType == 0x80 && value / 256 == 3 && value % 256 <= 4 then Str(value % 256)
    else if reqType == 0x81 && value / 256 == 0x22 then Report
    else Unsupported
  }

  predicate Known(k: Kind) {
    match k
    case Unsupported => false
    case Str(i) => i <= 4
    case _ => true
  }

  function Descriptor(k: Kind): (d: seq<byte>)
    requires Known(k)
    ensures 4 <= |d| <= 63
  {
    match k
    case Device => DeviceDescriptor()
    case Config => ConfigDescriptor()
    case Str(i) => StringDescriptor(i)
    case Report => ReportDescriptor()
  }

  /** What a host that asked for at most `most` bytes of a descriptor is owed: its front, with the
      number of bytes it gets in the length fields (the total length of a configuration, the length of
      a string). */
  function Reply(k: Kind, most: nat): (r: seq<byte>)
    requires Known(k)
    ensures |r| == Min(|Descriptor(k)|, most)
  {
    var n := Min(|Descriptor(k)|, most);
    seq(n, j requires 0 <= j < n =>
      if (k.Config? && j == 2) || (k.Str? && j == 0) then n
      else if k.Config? && j == 3 then 0
      else Descriptor(k)[j])
  }

  /** `data` over the bytes of `buf` from `at`. */
  function Put(buf: seq<byte>, at: nat, data: seq<byte>): (r: seq<byte>)
    requires at + |data| <= |buf|
    ensures |r| == |buf|
  {
    buf[..at] + data + buf[at + |data|..]
  }

  /** What a SETUP leaves in the endpoint buffer. */
  function Prepared(buf: seq<byte>, k: Kind, length: nat): (r: seq<byte>)
    requires |buf| == EP0_BUF && Known(k) && length <= |Descriptor(k)|
    ensures |r| == EP0_BUF
  {
    var copied := Put(buf, 0, Descriptor(k)[..length]);
    match k
    case Config => copied[2 := length % 256][3 := length / 256]
    case Str(_) => copied[0 := length % 256]
    case _ => copied
  }

  /** The device afterwards, the result of the transfer, and the transfer's buffer. */
  datatype Done = Done(s: Control, res: int, data: seq<byte>)

  function DoSetup(s: Control, data: seq<byte>): (r: Done)
    requires Valid(s) && |data| >= 8
    ensures Valid(r.s)
  {
    var t := s.(reqType := data[0], request := data[1], value := Word(data[2], data[3]),
                index := Word(data[4], data[5]), length := Word(data[6], data[7]), inSetup := true, ptr := 0);
    var k := Asked(t.reqType, t.request, t.value);
    if !FromDevice(t.reqType) then Done(t, |data|, data)
    else if k.Unsupported? then Done(t, STALL, data)
    else
      var n := Min(|Descriptor(k)|, t.length);
      Done(t.(length := n, buf := Prepared(s.buf, k, n)), |data|, data)
  }

  function DoOut(s: Control, data: seq<byte>): (r: Done)
    requires Valid(s) && InBuffer(s, OUT, |data|)
    ensures Valid(r.s)
  {
    if !s.inSetup then Done(s, STALL, data)
    else if FromDevice(s.reqType) then Done(s.(inSetup := false), |data|, data)
    else
      var step := Min(s.length - s.ptr, |data|);
      Done(s.(buf := Put(s.buf, s.ptr, data[..step]), ptr := s.ptr + step), step, data)
  }

  function DoIn(s: Control, data: seq<byte>): (r: Done)
    requires Valid(s) && InBuffer(s, IN, |data|)
    ensures Valid(r.s)
  {
    if !s.inSetup then Done(s, STALL, data)
    else if !FromDevice(s.reqType) then DoStatus(s.(inSetup := false), data)
    else
      var step := Min(s.length - s.ptr, |data|);
      Done(s.(ptr := s.ptr + step), step, Put(data, 0, s.buf[s.ptr..s.ptr + step]))
  }

  /** The status stage of a request to the device, where the request takes effect. */
  function DoStatus(s: Control, data: seq<byte>): (r: Done)
    requires Valid(s)
    ensures Valid(r.s)
  {
    if s.reqType == 0 && s.request == 5 then Done(s.(addr := s.value % 256), |data|, data)
    else if s.reqType == 0 && s.request == 9 then Done(s, |data|, data)
    else if s.reqType == 2 && s.request == 1 then Done(s, |data|, data)
    else Done(s, STALL, data)
  }

  function DoInterrupt(s: Control, data: seq<byte>): (r: Done)
    requires Valid(s)
    ensures Valid(r.s)
  {
    if !s.hasReport then Done(s, NAK, data)
    else
      var step := Min(8, |data|);
      Done(s.(hasReport := false), step, Put(data, 0, s.report[..step]))
  }

  /** A data stage stays inside the endpoint buffer. */
  predicate InBuffer(s: Control, tkn: nat, size: nat)
    requires s.ptr <= s.length
  {
    s.inSetup && (tkn == IN <==> FromDevice(s.reqType)) ==> s.ptr + Min(s.length - s.ptr, size) <= EP0_BUF
  }

  predicate Legal(s: Control, ep: nat, tkn: nat, data: seq<byte>) {
    Valid(s) && ep < 16 &&
    (ep == 0 && tkn == SETUP ==> |data| >= 8) &&
    (ep == 0 && (tkn == IN || tkn == OUT) ==> InBuffer(s, tkn, |data|))
  }

  /** One transfer.  `data` holds what came from the host or, for IN, what the buffer held. */
  function Xfr(s: Control, ep: nat, tkn: nat, data: seq<byte>): (r: Done)
    requires Legal(s, ep, tkn, data)
    ensures Valid(r.s)
  {
    if ep == 0 && tkn == SETUP then DoSetup(s, data)
    else if ep == 0 && tkn == OUT then DoOut(s, data)
    else if ep == 0 && tkn == IN then DoIn(s, data)
    else if ep == 1 && tkn == IN then DoInterrupt(s, data)
    else Done(s, NAK, data)
  }

  class Keyboard {
    var bAddr: byte
    var inSetup: bool
    var bmReqType: byte
    var bRequest: byte
    var wValue: u16
    var wIndex: u16
    var wLength: u16
    const ep0buf: array<byte>
    var ep0ptr: u32
    const lastReport: array<byte>
    var hasReport: bool

    ghost predicate Ready()
      reads this
    {
      ep0buf.Length == EP0_BUF && lastReport.Length == 8 && ep0buf != lastReport && ep0ptr <= wLength
    }

    ghost function State(): (s: Control)
      requires Ready()
      reads this, ep0buf, lastReport
      ensures Valid(s)
    {
      Control(bAddr, inSetup, bmReqType, bRequest, wValue, wIndex, wLength, ep0buf[..], ep0ptr, lastReport[..],
              hasReport)
    }

    constructor ()
      ensures Ready() && fresh(ep0buf) && fresh(lastReport)
      ensures State() == Control(0, false, 0, 0, 0, 0, 0, seq(EP0_BUF, _ => 0), 0, seq(8, _ => 0), false)
    {
      bAddr, inSetup, bmReqType, bRequest, wValue, wIndex, wLength := 0, false, 0, 0, 0, 0, 0;
      ep0ptr, hasReport := 0, false;
      ep0buf := new byte[EP0_BUF](_ => 0);
      lastReport := new byte[8](_ => 0);
    }

    method Transfer(ep: nat, tkn: nat, buf: array<byte>) returns (res: int)
      requires Ready() && buf != ep0buf && buf != lastReport && Legal(State(), ep, tkn, buf[..])
      modifies this, ep0buf, buf
      ensures Ready() && Done(State(), res, buf[..]) == Xfr(old(State()), ep, tkn, old(buf[..]))
    {
      hide DoSetup, DoOut, DoIn, DoInterrupt;
      if ep == 0 && tkn == SETUP {
        res := TakeSetup(buf);
      } else if ep == 0 && tkn == OUT {
        res := TakeOut(buf);
      } else if ep == 0 && tkn == IN {
        res := GiveIn(buf);
      } else if ep == 1 && tkn == IN {
        res := GiveReport(buf);
      } else {
        res := NAK;
      }
    }

    method TakeSetup(buf: array<byte>) returns (res: int)
      requires Ready() && buf != ep0buf && buf != lastReport && buf.Length >= 8
      modifies this, ep0buf
      ensures Ready() && Done(State(), res, buf[..]) == DoSetup(old(State()), buf[..])
    {
      bmReqType := buf[0];
      bRequest := buf[1];
      wValue := Word(buf[2], buf[3]);
      wIndex := Word(buf[4], buf[5]);
      wLength := Word(buf[6], buf[7]);
      inSetup := true;
      ep0ptr := 0;
      if bmReqType < 0x80 {
        return buf.Length;
      }
      res := Offer(buf.Length);
    }

    /** Requests that read from the device are prepared here. */
    method Offer(size: nat) returns (res: int)
      requires Ready() && ep0ptr == 0 && FromDevice(bmReqType)
      modifies this`wLength, ep0buf
      ensures Ready()
      ensures var s, k := old(State()), Asked(bmReqType, bRequest, wValue);
              if k.Unsupported? then res == STALL && State() == s
              else
                var n := Min(|Descriptor(k)|, s.length);
                res == size && State() == s.(length := n, buf := Prepared(s.buf, k, n))
    {
      hide DeviceDescriptor, ConfigDescriptor, StringDescriptor, ReportDescriptor, Put;
      if bmReqType == 0x80 && bRequest == 6 {
        if wValue / 256 == 1 {
          Load(DeviceDescriptor());
          return size;
        }
        if wValue / 256 == 2 {
          Load(ConfigDescriptor());
          ep0buf[2] := wLength % 256;
          ep0buf[3] := wLength / 256;
          return size;
        }
        if wValue / 256 == 3 && wValue % 256 <= 4 {
          Load(StringDescriptor(wValue % 256));
          ep0buf[0] := wLength % 256;
          return size;
        }
      }
      if bmReqType == 0x81 && bRequest == 6 && wValue / 256 == 0x22 {
        Load(ReportDescriptor());
        return size;
      }
      return STALL;
    }

    method Load(d: seq<byte>)
      requires Ready() && |d| <= 63 && ep0ptr == 0
      modifies this`wLength, ep0buf
      ensures Ready() && wLength == Min(|d|, old(wLength)) && ep0buf[..] == Put(old(ep0buf[..]), 0, d[..wLength])
    {
      wLength := Min(|d|, wLength);
      forall i | 0 <= i < wLength {
        ep0buf[i] := d[i];
      }
    }

    method TakeOut(buf: array<byte>) returns (res: int)
      requires Ready() && buf != ep0buf && buf != lastReport && InBuffer(State(), OUT, buf.Length)
      modifies this, ep0buf
      ensures Ready() && Done(State(), res, buf[..]) == DoOut(old(State()), buf[..])
    {
      if !inSetup {
        return STALL;
      }
      if bmReqType >= 0x80 {
        inSetup := false;
        return buf.Length;
      }
      var step := Min(wLength - ep0ptr, buf.Length);
      forall i | 0 <= i < step {
        ep0buf[ep0ptr + i] := buf[i];
      }
      ep0ptr := ep0ptr + step;
      res := step;
    }

    method GiveIn(buf: array<byte>) returns (res: int)
      requires Ready() && buf != ep0buf && buf != lastReport && InBuffer(State(), IN, buf.Length)
      modifies this, buf
      ensures Ready() && Done(State(), res, buf[..]) == DoIn(old(State()), old(buf[..]))
    {
      if !inSetup {
        return STALL;
      }
      if bmReqType < 0x80 {
        inSetup := false;
        if bmReqType == 0 && bRequest == 5 {
          bAddr := wValue % 256;
          return buf.Length;
        }
        if bmReqType == 0 && bRequest == 9 {
          return buf.Length;
        }
        if bmReqType == 2 && bRequest == 1 {
          return buf.Length;
        }
        return STALL;
      }
      var step := Min(wLength - ep0ptr, buf.Length);
      forall i | 0 <= i < step {
        buf[i] := ep0buf[ep0ptr + i];
      }
      assert buf[..] == Put(old(buf[..]), 0, ep0buf[ep0ptr..ep0ptr + step]);
      assert ep0buf[ep0ptr..ep0ptr + step] == ep0buf[..][ep0ptr..ep0ptr + step];
      ep0ptr := ep0ptr + step;
      res := step;
    }

    method GiveReport(buf: array<byte>) returns (res: int)
      requires Ready() && buf != ep0buf && buf != lastReport
      modifies this, buf
      ensures Ready() && Done(State(), res, buf[..]) == DoInterrupt(old(State()), old(buf[..]))
    {
      if !hasReport {
        return NAK;
      }
      hasReport := false;
      var step := Min(8, buf.Length);
      forall i | 0 <= i < step {
        buf[i] := lastReport[i];
      }
      res := step;
    }
  }
}
