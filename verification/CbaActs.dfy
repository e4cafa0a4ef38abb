/** What a call does to the shared file, act by act: it takes the lock, writes piece by piece and releases it; what
    was held back is flushed in one piece before that, without the lock. */
module CbaActs {
  import opened Sequences
  import opened Bytes
  import opened CbaFormat
  import opened CbaCalls

  /** A write `starts` a packet when it begins with the thread id in front of it. */
  datatype Act = Acquire | Write(data: seq<byte>, starts: bool) | Release | Flush(data: seq<byte>)

  /** A packet and the writes it is sent with. */
  datatype Piece = Piece(p: Packet, writes: seq<seq<byte>>)

  /** Packets sent one after the other under the lock, or packets flushed in one write. */
  datatype Unit = Section(pieces: seq<Piece>) | Loose(held: seq<Packet>)

  function Joined(writes: seq<seq<byte>>): seq<byte> {
    if writes == [] then [] else writes[0] + Joined(writes[1..])
  }

  lemma {:induction false} JoinedConcat(a: seq<seq<byte>>, b: seq<seq<byte>>)
    ensures Joined(a + b) == Joined(a) + Joined(b)
  {
    if a == [] {
      assert a + b == b;
    } else {
      FirstOfConcat(a, b);
      JoinedConcat(a[1..], b);
      Assoc(a[0], Joined(a[1..]), Joined(b));
    }
  }

  // ----- the pieces of a packet

  /** A chunk: thread id, length, and the data if there is any. */
  function ChunkWrites(tid: byte, len: seq<byte>, data: seq<byte>): seq<seq<byte>> {
    [[tid], len] + if data == [] then [] else [data]
  }

  function BodyWrites(order: Order, p: Packet): seq<seq<byte>>
    requires !p.Chunk?
  {
    match p
    case Str(_, text) => [Enc(order, 2, |text|), text]
    case File(_, path) => [Enc(order, 2, |path|), path]
    case Data(_) => []
    case Bit(_) => []
    case _ => [Body(order, p)]
  }

  function PacketWrites(order: Order, tid: byte, p: Packet): seq<seq<byte>> {
    if p.Chunk? then ChunkWrites(tid, Enc(order, 2, |p.data|), p.data)
    else [[tid] + Header(order, Kind(p), p.code)] + BodyWrites(order, p)
  }

  function Pieces(order: Order, tid: byte, ps: seq<Packet>): (r: seq<Piece>)
    ensures |r| == |ps| && forall i :: 0 <= i < |r| ==> r[i] == Piece(ps[i], PacketWrites(order, tid, ps[i]))
  {
    seq(|ps|, i requires 0 <= i < |ps| => Piece(ps[i], PacketWrites(order, tid, ps[i])))
  }

  /** The pieces of data in memory; the length of a chunk is the first two bytes of an `int`. */
  function DataPieces(order: Order, tid: byte, data: seq<byte>): seq<Piece> {
    if data == [] then [Piece(Chunk([]), ChunkWrites(tid, Enc(order, 4, 0)[..2], []))]
    else
      var n := if |data| > CBA_MAXBUFF then CBA_MAXBUFF else |data|;
      [Piece(Chunk(data[..n]), ChunkWrites(tid, Enc(order, 4, n)[..2], data[..n]))] + DataPieces(order, tid, data[n..])
  }

  lemma PacketJoined(order: Order, tid: byte, p: Packet)
    ensures Joined(PacketWrites(order, tid, p)) == Frame(order, tid, p)
  {
    hide Enc, Header, Pow256;
    if p.Chunk? {
      ChunkJoined(tid, Enc(order, 2, |p.data|), p.data);
      Assoc([tid], Enc(order, 2, |p.data|), p.data);
    } else {
      FrameEvent(order, tid, p);
      var body := BodyWrites(order, p);
      assert ([[tid] + Header(order, Kind(p), p.code)] + body)[1..] == body;
      assert Joined(body) == Body(order, p) by { BodyJoined(order, p); }
    }
  }

  lemma BodyJoined(order: Order, p: Packet)
    requires !p.Chunk?
    ensures Joined(BodyWrites(order, p)) == Body(order, p)
  {
    hide Enc, Pow256;
    if p.Str? {
      JoinedTwo(Enc(order, 2, |p.text|), p.text);
    } else if p.File? {
      JoinedTwo(Enc(order, 2, |p.path|), p.path);
    } else if !p.Data? && !p.Bit? {
      JoinedOne(Body(order, p));
    }
  }

  lemma JoinedOne(a: seq<byte>)
    ensures Joined([a]) == a
  {
    assert [a][1..] == [] && a + [] == a;
  }

  lemma JoinedTwo(a: seq<byte>, b: seq<byte>)
    ensures Joined([a, b]) == a + b
  {
    assert [a, b][1..] == [b];
    JoinedOne(b);
  }

  lemma ChunkJoined(tid: byte, len: seq<byte>, data: seq<byte>)
    ensures Joined(ChunkWrites(tid, len, data)) == [tid] + len + data
  {
    JoinedConcat([[tid], len], if data == [] then [] else [data]);
    JoinedTwo([tid], len);
    JoinedOne(data);
    assert [tid] + len + [] == [tid] + len;
  }

  /** On a little-endian machine, or without data, the pieces of the data are those of its chunks. */
  lemma {:induction false} DataInOrder(order: Order, tid: byte, data: seq<byte>)
    requires order == Little || data == []
    ensures DataPieces(order, tid, data) == Pieces(order, tid, Chunks(data))
    decreases |data|
  {
    if data == [] {
      FirstTwoOfFour(order, 0);
    } else {
      var n := if |data| > CBA_MAXBUFF then CBA_MAXBUFF else |data|;
      FirstTwoOfFour(order, n);
      DataInOrder(order, tid, data[n..]);
      assert |data| <= CBA_MAXBUFF ==> data[..n] == data && data[n..] == [];
      assert Chunks(data) == [Chunk(data[..n])] + Chunks(data[n..]);
    }
  }

  // ----- the acts of a call

  function Flushed(pen: Pen): seq<Unit> { if pen.deferred == [] then [] else [Loose(pen.deferred)] }

  function InSection(order: Order, tid: byte, ps: seq<Packet>): seq<Unit> { [Section(Pieces(order, tid, ps))] }

  function CallUnits(order: Order, tid: byte, pen: Pen, call: Call): seq<Unit> {
    match call
    case CallHead(_) => []
    case CallDeferStr(text) =>
      if pen.deferred == [] then InSection(order, tid, [Str(pen.code, Formatted(text))]) else []
    case CallFlush => Flushed(pen)
    case CallCode(_) => []
    case CallBit(c) => Flushed(pen) + InSection(order, tid, [Bit(CodeOf(c))])
    case CallStr(text) => Flushed(pen) + InSection(order, tid, [Str(pen.code, Formatted(text))])
    case CallData(data) =>
      Flushed(pen) + [Section(Pieces(order, tid, [Data(pen.code)]) + DataPieces(order, tid, data))]
    case CallFile(path, parts) =>
      Flushed(pen) + InSection(order, tid, [File(pen.code, FilePath(path))] + FileChunks(parts))
    case CallInt32(num) => Flushed(pen) + InSection(order, tid, [Int32(pen.code, num)])
    case CallInt64(wide) => Flushed(pen) + InSection(order, tid, [Int64(pen.code, wide)])
  }

  /** Writes, of which the first may start a packet. */
  function Writes(writes: seq<seq<byte>>, starts: bool): seq<Act> {
    if writes == [] then [] else [Write(writes[0], starts)] + Writes(writes[1..], false)
  }

  function PiecesActs(pieces: seq<Piece>): seq<Act> {
    if pieces == [] then [] else Writes(pieces[0].writes, true) + PiecesActs(pieces[1..])
  }

  function UnitActs(order: Order, tid: byte, u: Unit): seq<Act> {
    match u
    case Section(pieces) => [Acquire] + PiecesActs(pieces) + [Release]
    case Loose(held) => [Flush(Image(order, tid, held))]
  }

  function ActsOf(order: Order, tid: byte, units: seq<Unit>): seq<Act> {
    if units == [] then [] else UnitActs(order, tid, units[0]) + ActsOf(order, tid, units[1..])
  }

  function CallActs(order: Order, tid: byte, pen: Pen, call: Call): seq<Act> {
    ActsOf(order, tid, CallUnits(order, tid, pen, call))
  }

  function ThreadUnits(order: Order, tid: byte, pen: Pen, calls: seq<Call>): seq<Unit>
    decreases |calls|
  {
    if calls == [] then []
    else CallUnits(order, tid, pen, calls[0]) + ThreadUnits(order, tid, Step(pen, calls[0]).0, calls[1..])
  }

  /** Everything a thread does to the file in making these calls. */
  function ThreadActs(order: Order, tid: byte, pen: Pen, calls: seq<Call>): seq<Act>
    decreases |calls|
  {
    if calls == [] then []
    else CallActs(order, tid, pen, calls[0]) + ThreadActs(order, tid, Step(pen, calls[0]).0, calls[1..])
  }

  // ----- what the acts add up to

  function PacketsIn(pieces: seq<Piece>): (r: seq<Packet>)
    ensures |r| == |pieces| && forall i :: 0 <= i < |r| ==> r[i] == pieces[i].p
  {
    seq(|pieces|, i requires 0 <= i < |pieces| => pieces[i].p)
  }

  function SendsOf(u: Unit): seq<Packet> {
    match u
    case Section(pieces) => PacketsIn(pieces)
    case Loose(held) => held
  }

  function Sends(units: seq<Unit>): seq<Packet> {
    if units == [] then [] else SendsOf(units[0]) + Sends(units[1..])
  }

  /** The writes are the bytes of the packet, and the first is not empty. */
  predicate Proper(order: Order, tid: byte, piece: Piece) {
    piece.writes != [] && piece.writes[0] != [] && Joined(piece.writes) == Frame(order, tid, piece.p)
  }

  predicate PiecesProper(order: Order, tid: byte, pieces: seq<Piece>) {
    forall i :: 0 <= i < |pieces| ==> Proper(order, tid, pieces[i])
  }

  predicate AllProper(order: Order, tid: byte, units: seq<Unit>) {
    forall i :: 0 <= i < |units| ==> units[i].Section? ==> PiecesProper(order, tid, units[i].pieces)
  }

  lemma PiecesAreProper(order: Order, tid: byte, ps: seq<Packet>)
    ensures PiecesProper(order, tid, Pieces(order, tid, ps)) && PacketsIn(Pieces(order, tid, ps)) == ps
  {
    forall p: Packet ensures Proper(order, tid, Piece(p, PacketWrites(order, tid, p))) {
      PacketJoined(order, tid, p);
    }
  }

  lemma {:induction false} UnitsConcat(order: Order, tid: byte, us: seq<Unit>, vs: seq<Unit>)
    ensures Sends(us + vs) == Sends(us) + Sends(vs)
    ensures ActsOf(order, tid, us + vs) == ActsOf(order, tid, us) + ActsOf(order, tid, vs)
  {
    hide UnitActs, SendsOf;
    if us == [] {
      assert us + vs == vs;
    } else {
      FirstOfConcat(us, vs);
      UnitsConcat(order, tid, us[1..], vs);
      Assoc(SendsOf(us[0]), Sends(us[1..]), Sends(vs));
      Assoc(UnitActs(order, tid, us[0]), ActsOf(order, tid, us[1..]), ActsOf(order, tid, vs));
    }
  }

  lemma OneUnit(order: Order, tid: byte, u: Unit)
    ensures Sends([u]) == SendsOf(u) && ActsOf(order, tid, [u]) == UnitActs(order, tid, u)
  {
    assert [u][1..] == [];
    assert SendsOf(u) + [] == SendsOf(u) && UnitActs(order, tid, u) + [] == UnitActs(order, tid, u);
  }

  lemma SentUnits(order: Order, tid: byte, pen: Pen, ps: seq<Packet>)
    ensures var us := Flushed(pen) + InSection(order, tid, ps);
      Sends(us) == pen.deferred + ps && AllProper(order, tid, us)
    ensures Sends(InSection(order, tid, ps)) == ps && AllProper(order, tid, InSection(order, tid, ps))
    ensures Sends(Flushed(pen)) == pen.deferred && AllProper(order, tid, Flushed(pen))
  {
    hide Pieces, PacketsIn, PiecesProper, Image;
    var u := Section(Pieces(order, tid, ps));
    PiecesAreProper(order, tid, ps);
    OneUnit(order, tid, u);
    OneUnit(order, tid, Loose(pen.deferred));
    UnitsConcat(order, tid, Flushed(pen), [u]);
  }

  /** The units of a call carry the packets it sends, and their writes are those packets' bytes. */
  lemma CallUnitsSend(order: Order, tid: byte, pen: Pen, call: Call)
    requires Sound(order, pen, call)
    ensures var units := CallUnits(order, tid, pen, call);
      Sends(units) == Step(pen, call).1 && AllProper(order, tid, units)
  {
    hide Sends, AllProper, InSection, Flushed, Image, Pieces, DataPieces, Chunks, FileChunks, Formatted;
    match call
    case CallHead(_) => NoUnits(order, tid);
    case CallCode(_) => NoUnits(order, tid);
    case CallDeferStr(text) =>
      NoUnits(order, tid);
      SentUnits(order, tid, pen, [Str(pen.code, Formatted(text))]);
    case CallFlush => SentUnits(order, tid, pen, []);
    case CallBit(c) => SentUnits(order, tid, pen, [Bit(CodeOf(c))]);
    case CallStr(text) => SentUnits(order, tid, pen, [Str(pen.code, Formatted(text))]);
    case CallData(data) =>
      DataUnits(order, tid, pen, data);
      SentUnits(order, tid, pen, [Data(pen.code)] + Chunks(data));
    case CallFile(path, parts) => SentUnits(order, tid, pen, [File(pen.code, FilePath(path))] + FileChunks(parts));
    case CallInt32(num) => SentUnits(order, tid, pen, [Int32(pen.code, num)]);
    case CallInt64(wide) => SentUnits(order, tid, pen, [Int64(pen.code, wide)]);
  }

  lemma NoUnits(order: Order, tid: byte)
    ensures Sends([]) == [] && AllProper(order, tid, [])
  {
  }

  lemma DataUnits(order: Order, tid: byte, pen: Pen, data: seq<byte>)
    requires order == Little || data == []
    ensures CallUnits(order, tid, pen, CallData(data))
      == Flushed(pen) + InSection(order, tid, [Data(pen.code)] + Chunks(data))
  {
    DataInOrder(order, tid, data);
    var ps, qs := [Data(pen.code)], Chunks(data);
    assert Pieces(order, tid, ps + qs) == Pieces(order, tid, ps) + Pieces(order, tid, qs);
  }

  /** A thread's acts are those of its units, which carry its packets. */
  lemma {:induction false} ThreadUnitsSend(order: Order, tid: byte, pen: Pen, calls: seq<Call>)
    requires AllSound(order, pen, calls)
    ensures var units := ThreadUnits(order, tid, pen, calls);
      && Sends(units) == Packets(pen, calls)
      && AllProper(order, tid, units)
      && ActsOf(order, tid, units) == ThreadActs(order, tid, pen, calls)
    decreases |calls|
  {
    hide Step, Sound, CallUnits, PiecesProper;
    if calls == [] {
      NoUnits(order, tid);
    } else {
      var (pen', ps) := Step(pen, calls[0]);
      CallUnitsSend(order, tid, pen, calls[0]);
      ThreadUnitsSend(order, tid, pen', calls[1..]);
      UnitsConcat(order, tid, CallUnits(order, tid, pen, calls[0]), ThreadUnits(order, tid, pen', calls[1..]));
    }
  }

  // ----- the acts of each kind of call

  function FlushActs(order: Order, tid: byte, pen: Pen): seq<Act> {
    if pen.deferred == [] then [] else [Flush(Image(order, tid, pen.deferred))]
  }

  function SectionActs(pieces: seq<Piece>): seq<Act> { [Acquire] + PiecesActs(pieces) + [Release] }

  lemma FlushedActs(order: Order, tid: byte, pen: Pen, pieces: seq<Piece>)
    ensures ActsOf(order, tid, Flushed(pen)) == FlushActs(order, tid, pen)
    ensures ActsOf(order, tid, [Section(pieces)]) == SectionActs(pieces)
    ensures ActsOf(order, tid, Flushed(pen) + [Section(pieces)]) == FlushActs(order, tid, pen) + SectionActs(pieces)
  {
    hide Image, PiecesActs;
    OneUnit(order, tid, Loose(pen.deferred));
    OneUnit(order, tid, Section(pieces));
    UnitsConcat(order, tid, Flushed(pen), [Section(pieces)]);
  }

  lemma {:induction false} PiecesActsConcat(a: seq<Piece>, b: seq<Piece>)
    ensures PiecesActs(a + b) == PiecesActs(a) + PiecesActs(b)
  {
    hide Writes;
    if a == [] {
      assert a + b == b;
    } else {
      FirstOfConcat(a, b);
      PiecesActsConcat(a[1..], b);
      Assoc(Writes(a[0].writes, true), PiecesActs(a[1..]), PiecesActs(b));
    }
  }

  lemma OnePiece(piece: Piece)
    ensures PiecesActs([piece]) == Writes(piece.writes, true)
  {
    hide Writes;
    assert [piece][1..] == [] && Writes(piece.writes, true) + [] == Writes(piece.writes, true);
  }

  lemma WritesOne(a: seq<byte>, starts: bool)
    ensures Writes([a], starts) == [Write(a, starts)]
  {
    assert [a][1..] == [];
  }

  lemma WritesTwo(a: seq<byte>, b: seq<byte>, starts: bool)
    ensures Writes([a, b], starts) == [Write(a, starts), Write(b, false)]
  {
    assert [a, b][1..] == [b];
    WritesOne(b, false);
  }

  lemma WritesThree(a: seq<byte>, b: seq<byte>, c: seq<byte>, starts: bool)
    ensures Writes([a, b, c], starts) == [Write(a, starts), Write(b, false), Write(c, false)]
  {
    assert [a, b, c][1..] == [b, c];
    WritesTwo(b, c, false);
  }

  lemma ChunkActs(tid: byte, len: seq<byte>, data: seq<byte>)
    ensures Writes(ChunkWrites(tid, len, data), true)
      == [Write([tid], true), Write(len, false)] + if data == [] then [] else [Write(data, false)]
  {
    assert [[tid], len] + [] == [[tid], len];
    WritesTwo([tid], len, true);
    WritesThree([tid], len, data, true);
  }

  /** The acts of sending one event packet. */
  lemma EventActs(order: Order, tid: byte, p: Packet)
    requires !p.Chunk?
    ensures var h := [tid] + Header(order, Kind(p), p.code);
      PiecesActs(Pieces(order, tid, [p])) == [Write(h, true)] + Writes(BodyWrites(order, p), false)
  {
    hide BodyWrites, Header;
    var h := [tid] + Header(order, Kind(p), p.code);
    assert Pieces(order, tid, [p]) == [Piece(p, PacketWrites(order, tid, p))];
    OnePiece(Piece(p, PacketWrites(order, tid, p)));
    assert ([h] + BodyWrites(order, p))[1..] == BodyWrites(order, p);
  }
}
