/** The packets of a CBA file. A file is a byte-order marker followed by packets, each led by the id
    of the thread that wrote it; packets of different threads may alternate freely. */
module CbaFormat {
  import opened Sequences
  import opened Bytes

  const CBA_HEAD: byte := 0
  const CBA_STR: byte := 1
  const CBA_FILE: byte := 2
  const CBA_DATA: byte := 3
  const CBA_INT32: byte := 4
  const CBA_INT64: byte := 5
  const CBA_BIT: byte := 6

  const LETTER_L: byte := 76
  const LETTER_B: byte := 66

  /** The first byte of every file. */
  function Marker(order: Order): byte { if order == Little then LETTER_L else LETTER_B }

  /** Largest chunk the writer sends, and the size of its deferral buffer. */
  const CBA_MAXBUFF := 32768
  const CBA_DEFERBUFF := 2048

  /** One packet, without the thread id in front. `File` and `Data` open a stream; `Chunk`s feed it and
      an empty chunk ends it. Code 0 stands for "no code". */
  datatype Packet =
    | Head(code: uint32, name: seq<byte>)
    | Str(code: uint32, text: seq<byte>)
    | File(code: uint32, path: seq<byte>)
    | Data(code: uint32)
    | Int32(code: uint32, num: int32)
    | Int64(code: uint32, wide: int64)
    | Bit(code: uint32)
    | Chunk(data: seq<byte>)

  function Kind(p: Packet): byte
    requires !p.Chunk?
  {
    match p
    case Head(_, _) => CBA_HEAD
    case Str(_, _) => CBA_STR
    case File(_, _) => CBA_FILE
    case Data(_) => CBA_DATA
    case Int32(_, _) => CBA_INT32
    case Int64(_, _) => CBA_INT64
    case Bit(_) => CBA_BIT
  }

  /** The type byte, with bit 7 set when four code bytes follow. */
  function Header(order: Order, kind: byte, code: uint32): seq<byte>
    requires kind < 0x80
  {
    if code == 0 then [kind] else [(kind + 0x80) as byte] + Enc(order, 4, code)
  }

  function HeaderLen(code: uint32): nat { if code == 0 then 1 else 5 }

  /** Lengths fit their fields. */
  predicate Sized(p: Packet) {
    match p
    case Head(_, name) => |name| < 0x100
    case Str(_, text) => |text| < 0x1_0000
    case File(_, path) => |path| < 0x1_0000
    case Chunk(data) => |data| < 0x1_0000
    case _ => true
  }

  function Body(order: Order, p: Packet): seq<byte>
  {
    match p
    case Head(_, name) => [(|name| % 0x100) as byte] + name
    case Str(_, text) => Enc(order, 2, |text|) + text
    case File(_, path) => Enc(order, 2, |path|) + path
    case Data(_) => []
    case Int32(_, num) => Pow256Values(); Enc(order, 4, Unsigned(4, num))
    case Int64(_, wide) => Pow256Values(); Enc(order, 8, Unsigned(8, wide))
    case Bit(_) => []
    case Chunk(data) => Enc(order, 2, |data|) + data
  }

  /** The bytes of a packet after its thread id. */
  function Encode(order: Order, p: Packet): seq<byte>
  {
    if p.Chunk? then Body(order, p) else Header(order, Kind(p), p.code) + Body(order, p)
  }

  /** A packet as it stands in the file: thread id first. */
  function Frame(order: Order, tid: byte, p: Packet): seq<byte>
  {
    [tid] + Encode(order, p)
  }

  /** The bytes of a sequence of items, each written by `spell`. */
  function Spell<T>(spell: T -> seq<byte>, xs: seq<T>): seq<byte> {
    if xs == [] then [] else spell(xs[0]) + Spell(spell, xs[1..])
  }

  lemma {:induction false} SpellConcat<T>(spell: T -> seq<byte>, xs: seq<T>, ys: seq<T>)
    ensures Spell(spell, xs + ys) == Spell(spell, xs) + Spell(spell, ys)
  {
    if xs == [] {
      assert xs + ys == ys;
    } else {
      SpellConcat(spell, xs[1..], ys);
      FirstOfConcat(xs, ys);
      Assoc(spell(xs[0]), Spell(spell, xs[1..]), Spell(spell, ys));
    }
  }

  // ----- packets of several threads in one file

  type Tagged = (byte, Packet)

  /** The file bytes, after the marker, of packets written in this order. */
  function EncodeTagged(order: Order, tps: seq<Tagged>): seq<byte> {
    Spell((tp: Tagged) => Frame(order, tp.0, tp.1), tps)
  }

  function Tag<T>(tid: byte, xs: seq<T>): (r: seq<(byte, T)>)
    ensures |r| == |xs|
    ensures forall i :: 0 <= i < |xs| ==> r[i] == (tid, xs[i])
  {
    seq(|xs|, i requires 0 <= i < |xs| => (tid, xs[i]))
  }

  /** What belongs to thread `tid`, in order. */
  function Project<T>(xs: seq<(byte, T)>, tid: byte): seq<T> {
    if xs == [] then []
    else (if xs[0].0 == tid then [xs[0].1] else []) + Project(xs[1..], tid)
  }

  lemma {:induction false} ProjectConcat<T>(xs: seq<(byte, T)>, ys: seq<(byte, T)>, tid: byte)
    ensures Project(xs + ys, tid) == Project(xs, tid) + Project(ys, tid)
  {
    if xs == [] {
      assert xs + ys == ys;
    } else {
      ProjectConcat(xs[1..], ys, tid);
      FirstOfConcat(xs, ys);
      Assoc(if xs[0].0 == tid then [xs[0].1] else [], Project(xs[1..], tid), Project(ys, tid));
    }
  }

  lemma {:induction false} ProjectTag<T>(xs: seq<T>, tid: byte, other: byte)
    ensures Project(Tag(tid, xs), other) == if other == tid then xs else []
  {
    if xs != [] {
      ProjectTag(xs[1..], tid, other);
      assert Tag(tid, xs)[1..] == Tag(tid, xs[1..]);
    }
  }

  lemma EncodeTaggedConcat(order: Order, ps: seq<Tagged>, qs: seq<Tagged>)
    ensures EncodeTagged(order, ps + qs) == EncodeTagged(order, ps) + EncodeTagged(order, qs)
  {
    SpellConcat((tp: Tagged) => Frame(order, tp.0, tp.1), ps, qs);
  }

  lemma EncodeTaggedFirst(order: Order, tps: seq<Tagged>)
    requires tps != []
    ensures EncodeTagged(order, tps) == [tps[0].0] + Encode(order, tps[0].1) + EncodeTagged(order, tps[1..])
  {
  }

  lemma FrameEvent(order: Order, tid: byte, p: Packet)
    requires !p.Chunk?
    ensures Frame(order, tid, p) == [tid] + Header(order, Kind(p), p.code) + Body(order, p)
  {
    Assoc([tid], Header(order, Kind(p), p.code), Body(order, p));
  }

  /** The bytes of one thread's packets in a row. */
  function Image(order: Order, tid: byte, ps: seq<Packet>): seq<byte> {
    EncodeTagged(order, Tag(tid, ps))
  }

  lemma ImageConcat(order: Order, tid: byte, ps: seq<Packet>, qs: seq<Packet>)
    ensures Image(order, tid, ps + qs) == Image(order, tid, ps) + Image(order, tid, qs)
  {
    assert Tag(tid, ps + qs) == Tag(tid, ps) + Tag(tid, qs);
    EncodeTaggedConcat(order, Tag(tid, ps), Tag(tid, qs));
  }

  lemma ImageOne(order: Order, tid: byte, p: Packet)
    ensures Image(order, tid, [p]) == Frame(order, tid, p)
  {
    EncodeTaggedFirst(order, Tag(tid, [p]));
    assert Tag(tid, [p])[1..] == [];
  }

  lemma ImageNone(order: Order, tid: byte)
    ensures Image(order, tid, []) == []
  {
  }
}
