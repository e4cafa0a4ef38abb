/** The bytes of a CBA file as its header file numbers them: packet types, widths of lengths, and what a code adds. */
module CbaWire {
  import opened Bytes
  import opened CbaFormat

  /** A type number, and the code behind it when there is one. */
  function Lead(order: Order, number: byte, code: uint32): seq<byte>
    requires number < 128
  {
    if code == 0 then [number] else [number + 128] + Enc(order, 4, code)
  }

  /** The file begins with L or B, and of a thread's packets heads are type 0 with a one-byte length, strings and files
      types 1 and 2 with a two-byte length, data type 3, numbers types 4 and 5 with four and eight bytes, flags type 6;
      chunks have no type, only a two-byte length. `s` is a name, text, path or data. */
  lemma WireFormat(order: Order, tid: byte, code: uint32, s: seq<byte>, num: int32, wide: int64)
    ensures Marker(Little) == 76 && Marker(Big) == 66
    ensures |s| < 256 ==> Frame(order, tid, Head(code, s)) == [tid] + Lead(order, 0, code) + ([|s|] + s)
    ensures Frame(order, tid, Str(code, s)) == [tid] + Lead(order, 1, code) + (Enc(order, 2, |s|) + s)
    ensures Frame(order, tid, File(code, s)) == [tid] + Lead(order, 2, code) + (Enc(order, 2, |s|) + s)
    ensures Frame(order, tid, Data(code)) == [tid] + Lead(order, 3, code)
    ensures Unsigned(4, num) >= 0
      && Frame(order, tid, Int32(code, num)) == [tid] + Lead(order, 4, code) + Enc(order, 4, Unsigned(4, num))
    ensures Unsigned(8, wide) >= 0
      && Frame(order, tid, Int64(code, wide)) == [tid] + Lead(order, 5, code) + Enc(order, 8, Unsigned(8, wide))
    ensures Frame(order, tid, Bit(code)) == [tid] + Lead(order, 6, code)
    ensures Frame(order, tid, Chunk(s)) == [tid] + (Enc(order, 2, |s|) + s)
  {
    Pow256Values();
    hide Enc, Pow256, Frame, Lead;
    HeadWire(order, tid, code, s);
    TextWire(order, tid, code, s);
    NumberWire(order, tid, code, num, wide);
    PlainWire(order, tid, code);
    ChunkWire(order, tid, s);
  }

  /** The type number of an event packet, and what follows it. */
  lemma EventWire(order: Order, tid: byte, p: Packet)
    requires !p.Chunk?
    ensures Frame(order, tid, p) == [tid] + Lead(order, Kind(p), p.code) + Body(order, p)
  {
    FrameEvent(order, tid, p);
    hide Frame, Body, Enc, Kind;
  }

  lemma HeadWire(order: Order, tid: byte, code: uint32, s: seq<byte>)
    ensures |s| < 256 ==> Frame(order, tid, Head(code, s)) == [tid] + Lead(order, 0, code) + ([|s|] + s)
  {
    hide Frame, Lead;
    EventWire(order, tid, Head(code, s));
  }

  lemma TextWire(order: Order, tid: byte, code: uint32, s: seq<byte>)
    ensures Frame(order, tid, Str(code, s)) == [tid] + Lead(order, 1, code) + (Enc(order, 2, |s|) + s)
    ensures Frame(order, tid, File(code, s)) == [tid] + Lead(order, 2, code) + (Enc(order, 2, |s|) + s)
  {
    hide Frame, Lead, Enc;
    EventWire(order, tid, Str(code, s));
    EventWire(order, tid, File(code, s));
  }

  lemma NumberWire(order: Order, tid: byte, code: uint32, num: int32, wide: int64)
    ensures Unsigned(4, num) >= 0
      && Frame(order, tid, Int32(code, num)) == [tid] + Lead(order, 4, code) + Enc(order, 4, Unsigned(4, num))
    ensures Unsigned(8, wide) >= 0
      && Frame(order, tid, Int64(code, wide)) == [tid] + Lead(order, 5, code) + Enc(order, 8, Unsigned(8, wide))
  {
    Pow256Values();
    hide Frame, Lead, Enc, Pow256;
    EventWire(order, tid, Int32(code, num));
    EventWire(order, tid, Int64(code, wide));
  }

  lemma PlainWire(order: Order, tid: byte, code: uint32)
    ensures Frame(order, tid, Data(code)) == [tid] + Lead(order, 3, code)
    ensures Frame(order, tid, Bit(code)) == [tid] + Lead(order, 6, code)
  {
    hide Frame, Lead;
    EventWire(order, tid, Data(code));
    EventWire(order, tid, Bit(code));
    assert [tid] + Lead(order, 3, code) + [] == [tid] + Lead(order, 3, code);
    assert [tid] + Lead(order, 6, code) + [] == [tid] + Lead(order, 6, code);
  }

  lemma ChunkWire(order: Order, tid: byte, s: seq<byte>)
    ensures Frame(order, tid, Chunk(s)) == [tid] + (Enc(order, 2, |s|) + s)
  {
  }
}
