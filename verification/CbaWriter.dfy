/** The CBA writer: each thread's private state and deferral buffer, and the file all threads append to. */
module CbaWriter {
  import opened Sequences
  import opened Bytes
  import opened CbaFormat
  import opened CbaCalls
  import opened CbaDeferral
  import opened CbaActs

  class LogFile {
    const order: Order
    var bytes: seq<byte>

    /** Opens a file for appending; only a new file gets the byte-order marker. */
    constructor (existing: seq<byte>, order: Order)
      ensures this.order == order
      ensures bytes == if existing == [] then [Marker(order)] else existing
    {
      this.order := order;
      bytes := if existing == [] then [Marker(order)] else existing;
    }

    method Write(s: seq<byte>)
      modifies this
      ensures bytes == old(bytes) + s
    {
      bytes := bytes + s;
    }
  }

  lemma {:induction false} ImageLength(order: Order, tid: byte, ps: seq<Packet>)
    ensures |Image(order, tid, ps)| == BufferLen(ps)
    ensures BufferLen(ps) >= |ps|
  {
    if ps != [] {
      var init, last := ps[..|ps| - 1], ps[|ps| - 1];
      ImageLength(order, tid, init);
      ImageConcat(order, tid, init, [last]);
      ImageOne(order, tid, last);
      assert init + [last] == ps;
      FrameLength(order, last);
    }
  }

  lemma FrameLength(order: Order, p: Packet)
    ensures |Encode(order, p)| == |Encode(Little, p)|
  {
  }

  // ----- what two of the calls really put in the buffer and in the file

  /** A deferred string as it lands in the buffer. Terminating the text in place happens before the length and the
      text are copied in, so for an empty text it hits the last byte of the header. */
  function DeferImage(order: Order, tid: byte, code: uint32, text: seq<byte>): seq<byte> {
    var h := [tid] + Header(order, CBA_STR, code);
    (if text == [] then h[..|h| - 1] + [0] else h) + Enc(order, 2, |text|) + text
  }

  /** Deferring leaves a proper string packet exactly when there is text, or the byte it hits was 0 already. */
  lemma DeferExactly(order: Order, tid: byte, code: uint32, text: seq<byte>)
    ensures DeferImage(order, tid, code, text) == Frame(order, tid, Str(code, text))
      <==> text != [] || ZeroTail(order, code)
  {
    hide Enc, Frame, Encode;
    var h := [tid] + Header(order, CBA_STR, code);
    var hit := if text == [] then h[..|h| - 1] + [0] else h;
    FrameEvent(order, tid, Str(code, text));
    Assoc(hit, Enc(order, 2, |text|), text);
    SameTail(hit, h, Enc(order, 2, |text|) + text);
    assert text == [] ==> hit[|h| - 1] == 0;
    assert h == h[..|h| - 1] + [h[|h| - 1]];
  }

  /** Without a code, the empty string turns into an empty head followed by a stray byte. */
  lemma EmptyDeferIsAHead(order: Order, tid: byte)
    ensures DeferImage(order, tid, 0, []) == Frame(order, tid, Head(0, [])) + [0]
  {
    assert Enc(order, 2, 0) == [0, 0] by {
      assert Enc(order, 1, 0) == [0];
    }
  }

  /** A chunk as `cba_data` frames it: the first two bytes of a four-byte length. */
  function RawChunk(order: Order, tid: byte, data: seq<byte>): seq<byte> {
    [tid] + Enc(order, 4, |data|)[..2] + data
  }

  function RawChunks(order: Order, tid: byte, data: seq<byte>): seq<byte> {
    if data == [] then RawChunk(order, tid, [])
    else if |data| > CBA_MAXBUFF
    then RawChunk(order, tid, data[..CBA_MAXBUFF]) + RawChunks(order, tid, data[CBA_MAXBUFF..])
    else RawChunk(order, tid, data) + RawChunk(order, tid, [])
  }

  lemma RawChunkExactly(order: Order, tid: byte, data: seq<byte>)
    requires |data| <= CBA_MAXBUFF
    ensures order == Little || data == [] ==> RawChunk(order, tid, data) == Frame(order, tid, Chunk(data))
    ensures order == Big && data != [] ==>
      forall rest, rest' :: RawChunk(order, tid, data) + rest != Frame(order, tid, Chunk(data)) + rest'
  {
    FirstTwoOfFour(order, |data|);
    var f := Enc(order, 2, |data|);
    assert Frame(order, tid, Chunk(data)) == [tid] + f + data;
    if order == Big && data != [] {
      var a, b := RawChunk(order, tid, data), Frame(order, tid, Chunk(data));
      assert a[1] == Enc(order, 4, |data|)[..2][0] && a[2] == Enc(order, 4, |data|)[..2][1];
      assert b[1] == f[0] && b[2] == f[1];
      forall rest, rest' ensures a + rest != b + rest' {
        assert (a + rest)[1] == a[1] && (a + rest)[2] == a[2] && (b + rest')[1] == b[1] && (b + rest')[2] == b[2];
      }
    }
  }

  /** `cba_data` frames its chunks as the reader expects exactly on little-endian machines, or when there is
      nothing to send. */
  lemma {:induction false} DataExactly(order: Order, tid: byte, data: seq<byte>)
    ensures RawChunks(order, tid, data) == Image(order, tid, Chunks(data)) <==> order == Little || data == []
    decreases |data|
  {
    if data == [] {
      RawChunkExactly(order, tid, []);
      ImageOne(order, tid, Chunk([]));
    } else {
      var n := if |data| > CBA_MAXBUFF then CBA_MAXBUFF else |data|;
      var first, rest := data[..n], data[n..];
      assert |data| <= CBA_MAXBUFF ==> first == data && rest == [];
      assert Chunks(data) == [Chunk(first)] + Chunks(rest);
      ImageConcat(order, tid, [Chunk(first)], Chunks(rest));
      ImageOne(order, tid, Chunk(first));
      RawChunkExactly(order, tid, first);
      DataExactly(order, tid, rest);
      assert RawChunks(order, tid, data) == RawChunk(order, tid, first) + RawChunks(order, tid, rest);
    }
  }

  /** For instance, on a big-endian machine one byte of data goes out as an empty chunk, which ends the stream. */
  lemma BigEndianLosesData(tid: byte, b: byte)
    ensures RawChunks(Big, tid, [b]) == Frame(Big, tid, Chunk([])) + [b] + Frame(Big, tid, Chunk([]))
  {
    assert Enc(Big, 2, 0) == [0, 0] by { assert Enc(Big, 1, 0) == [0]; }
    FirstTwoOfFour(Big, 1);
    FirstTwoOfFour(Big, 0);
    hide Enc;
    var none := Frame(Big, tid, Chunk([]));
    assert none == [tid] + ([0, 0] + []) == [tid] + [0, 0];
    assert RawChunk(Big, tid, [b]) == [tid] + [0, 0] + [b] == none + [b];
    assert RawChunk(Big, tid, []) == [tid] + [0, 0] + [] == none;
  }

  class Writer {
    const threadId: byte
    const file: LogFile
    const deferredBuffer: array<byte>
    var nextCode: uint32
    var deferredBytes: nat
    ghost var pen: Pen
    ghost var acts: seq<Act>  // what it has done to the file

    ghost predicate Shape()
      reads this
    {
      deferredBuffer.Length == CBA_DEFERBUFF && deferredBytes <= CBA_DEFERBUFF
    }

    function Buffered(): seq<byte>
      requires Shape()
      reads this, deferredBuffer
    {
      deferredBuffer[..deferredBytes]
    }

    /** The buffer holds the packets of `pen`. */
    ghost predicate Valid()
      reads this, deferredBuffer
    {
      && Shape()
      && pen.code == nextCode
      && Buffered() == Image(file.order, threadId, pen.deferred)
    }

    constructor (tid: byte, file: LogFile)
      ensures Valid() && threadId == tid && this.file == file && pen == NEWPEN && acts == [] && fresh(deferredBuffer)
    {
      threadId, this.file := tid, file;
      deferredBuffer := new byte[CBA_DEFERBUFF];
      nextCode, deferredBytes, pen, acts := 0, 0, NEWPEN, [];
    }

    /** The call has been made: the state moved and the file grew as `Step` says, act by act as `CallActs` says. */
    twostate predicate Did(call: Call)
      reads this, deferredBuffer, file
    {
      && Valid()
      && pen == Step(old(pen), call).0
      && file.bytes == old(file.bytes) + Image(file.order, threadId, Step(old(pen), call).1)
      && acts == old(acts) + CallActs(file.order, threadId, old(pen), call)
    }

    /** `pthread_mutex_lock`. */
    method Lock()
      modifies this`acts
      ensures acts == old(acts) + [Acquire]
    {
      acts := acts + [Acquire];
    }

    /** `pthread_mutex_unlock`. */
    method Unlock()
      modifies this`acts
      ensures acts == old(acts) + [Release]
    {
      acts := acts + [Release];
    }

    /** `do_write`, under the lock. */
    method DoWrite(s: seq<byte>, ghost starts: bool)
      modifies this`acts, file
      ensures file.bytes == old(file.bytes) + s && acts == old(acts) + [Write(s, starts)]
    {
      file.Write(s);
      acts := acts + [Write(s, starts)];
    }

    method WriteHeader(kind: byte) returns (h: seq<byte>)
      requires kind < 0x80
      modifies this`nextCode
      ensures h == [threadId] + Header(file.order, kind, old(nextCode)) && nextCode == 0
      ensures |h| == 1 + HeaderLen(old(nextCode))
    {
      h := [threadId, if nextCode != 0 then kind + 0x80 else kind];
      if nextCode != 0 {
        h := h + Enc(file.order, 4, nextCode);
        nextCode := 0;
      }
    }

    /** `memcpy` into the deferral buffer. */
    method Copy(at: nat, s: seq<byte>)
      requires at + |s| <= deferredBuffer.Length
      modifies deferredBuffer
      ensures deferredBuffer[..at] == old(deferredBuffer[..at])
      ensures deferredBuffer[at..at + |s|] == s
      ensures deferredBuffer[..at + |s|] == old(deferredBuffer[..at]) + s
    {
      forall i | 0 <= i < |s| {
        deferredBuffer[at + i] := s[i];
      }
    }

    /** A head at the start of the deferral buffer, over whatever was there. */
    method BufferHead(name: seq<byte>)
      requires Shape() && |name| < 0x100
      modifies this`nextCode, this`deferredBytes, deferredBuffer
      ensures Shape() && nextCode == 0
      ensures Buffered() == [threadId] + Header(file.order, CBA_HEAD, old(nextCode)) + ([|name|] + name)
    {
      hide Header;
      var h := WriteHeader(CBA_HEAD);
      Copy(0, h);
      Copy(|h|, [|name|]);
      Copy(|h| + 1, name);
      deferredBytes := |h| + 1 + |name|;
      Assoc(h, [|name|], name);
    }

    method Head(name: seq<byte>)
      requires Valid()
      modifies this, deferredBuffer
      ensures Did(CallHead(name))
    {
      hide Image, Frame, Header, BufferLen;
      ghost var p := Packet.Head(nextCode, HeadName(name));
      BufferHead(name[..|name| % 0x100]);
      FrameEvent(file.order, threadId, p);
      ImageOne(file.order, threadId, p);
      ImageNone(file.order, threadId);
      pen := Pen(0, [p]);
    }

    method Code(c: int32)
      requires Valid()
      modifies this`nextCode, this`pen
      ensures Did(CallCode(c))
    {
      nextCode := CodeOf(c);
      pen := pen.(code := nextCode);
      assert Image(file.order, threadId, []) == [];
    }

    method Flush()
      requires Valid()
      modifies this`deferredBytes, this`pen, this`acts, file
      ensures Did(CallFlush) && deferredBytes == 0
      ensures acts == old(acts) + FlushActs(file.order, threadId, old(pen))
    {
      ImageLength(file.order, threadId, pen.deferred);
      ImageNone(file.order, threadId);
      FlushedActs(file.order, threadId, pen, []);
      hide Image, ActsOf;
      if deferredBytes > 0 {
        file.Write(deferredBuffer[..deferredBytes]);
        acts := acts + [Act.Flush(deferredBuffer[..deferredBytes])];
      }
      deferredBytes := 0;
      pen := pen.(deferred := []);
    }

    /** A header, the end of the text marked, its length and the text, one after the other into the buffer. */
    method Place(h: seq<byte>, text: seq<byte>)
      requires Shape() && h != [] && deferredBytes + |h| + 2 + |text| <= CBA_DEFERBUFF && |text| < 0x1_0000
      modifies this`deferredBytes, deferredBuffer
      ensures Shape()
      ensures Buffered() == old(Buffered()) + (if text == [] then h[..|h| - 1] + [0] else h)
        + Enc(file.order, 2, |text|) + text
    {
      hide Enc;
      var at := deferredBytes;
      ghost var was := Buffered();
      Copy(at, h);
      deferredBuffer[at + |h| + |text| - 1] := 0;
      ghost var head := if text == [] then h[..|h| - 1] + [0] else h;
      assert deferredBuffer[..at + |h|] == was + head;
      Copy(at + |h|, Enc(file.order, 2, |text|));
      Copy(at + |h| + 2, text);
      deferredBytes := at + |h| + 2 + |text|;
    }

    /** `write_str_buff` into the deferral buffer. Not `inside` means that it would write outside the buffer; what
        becomes of the program then C does not say, and nothing is done here. */
    method BufferStr(t: seq<byte>) returns (inside: bool)
      requires Shape() && |t| < CBA_MAXBUFF
      modifies this`nextCode, this`deferredBytes, deferredBuffer
      ensures Shape() && nextCode == 0
      ensures inside <==> StaysInside(old(deferredBytes), old(nextCode), |t|)
      ensures inside ==>
        var room := Room(old(deferredBytes), old(nextCode));
        room >= 0
        && Buffered() == old(Buffered())
             + DeferImage(file.order, threadId, old(nextCode), if |t| <= room then t else t[..room])
    {
      hide Enc, Header, StaysInside;
      ghost var was, code := Buffered(), nextCode;
      InsideExactly(deferredBytes, nextCode, |t|);
      var at := deferredBytes;
      var h := WriteHeader(CBA_STR);
      var limit := CBA_DEFERBUFF - at - |h| - 6;
      var length := if |t| >= limit then (limit - 1) % 0x1_0000 else |t|;
      if at + |h| + 2 + length > CBA_DEFERBUFF {
        return false;
      }
      Place(h, t[..length]);
      Deferred(file.order, threadId, code, t[..length], was, if length == 0 then h[..|h| - 1] + [0] else h, Buffered());
      assert length == |t| ==> t[..length] == t;
      return true;
    }

    /** A string behind a waiting head, if there is one; `inside` is as for `BufferStr`. */
    method DeferStr(text: seq<byte>) returns (inside: bool)
      requires Valid()
      modifies this, deferredBuffer, file
      ensures Shape()
      ensures inside <==> old(deferredBytes) == 0 || Room(old(deferredBytes), old(nextCode)) >= 0
      ensures old(deferredBytes) == 0 ==> Did(CallDeferStr(text))
      ensures inside && old(deferredBytes) > 0 ==>
        && file.bytes == old(file.bytes) && nextCode == 0
        && Buffered() == old(Buffered())
           + DeferImage(file.order, threadId, old(nextCode), DeferredText(old(deferredBytes), old(nextCode), text))
      ensures Sound(file.order, old(pen), CallDeferStr(text)) ==> inside && Did(CallDeferStr(text))
    {
      hide Image, Enc, Encode, BufferLen, DeferImage, Frame, ZeroTail, SectionActs, Pieces, Formatted, StaysInside;
      ImageLength(file.order, threadId, pen.deferred);
      ImageNone(file.order, threadId);
      if deferredBytes == 0 {
        ghost var p := Packet.Str(nextCode, Formatted(text));
        FlushedActs(file.order, threadId, pen, Pieces(file.order, threadId, [p]));
        SendStr(text);
        inside := true;
      } else {
        InsideExactly(deferredBytes, nextCode, |Formatted(text)|);
        ghost var kept := DeferredText(deferredBytes, nextCode, text);
        ghost var p := Packet.Str(nextCode, kept);
        inside := BufferStr(Formatted(text));
        if inside {
          ImageConcat(file.order, threadId, pen.deferred, [p]);
          ImageOne(file.order, threadId, p);
          DeferExactly(file.order, threadId, p.code, kept);
        }
        pen := Pen(0, pen.deferred + [p]);
      }
    }

    /** A string sent at once, without flushing. */
    method SendStr(text: seq<byte>)
      requires Shape() && pen.code == nextCode
      modifies this`nextCode, this`pen, this`acts, file
      ensures nextCode == 0 && pen == Pen(0, old(pen).deferred)
      ensures var p := Packet.Str(old(nextCode), Formatted(text));
        && file.bytes == old(file.bytes) + Image(file.order, threadId, [p])
        && acts == old(acts) + SectionActs(Pieces(file.order, threadId, [p]))
    {
      hide Image, Enc, Encode, Header, SectionActs, Pieces, PiecesActs, Formatted, Writes;
      var t := Formatted(text);
      ghost var p := Packet.Str(nextCode, t);
      var h := WriteHeader(CBA_STR);
      Lock();
      DoWrite(h, true);
      DoWrite(Enc(file.order, 2, |t|), false);
      DoWrite(t, false);
      Unlock();
      StrImage(file.order, threadId, p, old(file.bytes), h, file.bytes);
      StrActs(file.order, threadId, p, old(acts), h, acts);
      pen := Pen(0, pen.deferred);
    }

    method Str(text: seq<byte>)
      requires Valid()
      modifies this, file
      ensures Did(CallStr(text))
    {
      hide Image, SectionActs, Pieces, FlushActs, Formatted;
      ghost var held, p := pen, Packet.Str(nextCode, Formatted(text));
      Flush();
      SendStr(text);
      ImageGrows(file.order, threadId, old(file.bytes), held.deferred, [p], file.bytes);
      ImageNone(file.order, threadId);
      FlushedActs(file.order, threadId, held, Pieces(file.order, threadId, [p]));
      Assoc(old(acts), FlushActs(file.order, threadId, held), SectionActs(Pieces(file.order, threadId, [p])));
    }

    /** Flushes, takes the lock and writes the header of the packet `p`. */
    method Begin(kind: byte, ghost p: Packet)
      requires Valid() && kind < 0x80 && !p.Chunk? && Kind(p) == kind && p.code == nextCode
      modifies this, file
      ensures Valid() && pen == NEWPEN
      ensures var h := [threadId] + Header(file.order, kind, p.code);
        && file.bytes == old(file.bytes) + Image(file.order, threadId, old(pen).deferred) + h
        && acts == old(acts) + FlushActs(file.order, threadId, old(pen)) + [Acquire, Write(h, true)]
    {
      hide Image, Header, FlushActs;
      ghost var held := pen;
      Flush();
      var h := WriteHeader(kind);
      Lock();
      DoWrite(h, true);
      ImageNone(file.order, threadId);
      pen := NEWPEN;
      AppendTwice(old(acts) + FlushActs(file.order, threadId, held), Acquire, Write(h, true));
    }

    /** The header of a packet and what is behind it, after flushing; the section stays open for chunks. */
    method BeginValue(kind: byte, values: seq<seq<byte>>, ghost p: Packet)
      requires Valid() && kind < 0x80 && !p.Chunk? && Kind(p) == kind && p.code == nextCode
      requires BodyWrites(file.order, p) == values && |values| <= 2
      modifies this, file
      ensures Valid() && pen == NEWPEN
      ensures file.bytes == old(file.bytes) + Image(file.order, threadId, old(pen).deferred + [p])
      ensures acts == old(acts) + FlushActs(file.order, threadId, old(pen))
        + ([Acquire] + PiecesActs(Pieces(file.order, threadId, [p])))
    {
      hide Image, Header, FlushActs, BodyWrites, Pieces, PiecesActs, Writes, Joined;
      ghost var h, held := [threadId] + Header(file.order, kind, p.code), pen;
      ghost var before, flushed := old(file.bytes), old(acts) + FlushActs(file.order, threadId, held);
      Begin(kind, p);
      ghost var begun, done := file.bytes, acts;
      if |values| > 0 { DoWrite(values[0], false); }
      if |values| > 1 { DoWrite(values[1], false); }
      ValuesAppended(begun, done, values, file.bytes, acts);
      ValueBytes(file.order, threadId, before, held.deferred, p, values, file.bytes);
      ValueActs(file.order, threadId, flushed, p, values, acts);
    }

    /** A header and the fixed-size value behind it. */
    method SendValue(kind: byte, values: seq<seq<byte>>, ghost p: Packet)
      requires Valid() && kind < 0x80 && !p.Chunk? && Kind(p) == kind && p.code == nextCode
      requires BodyWrites(file.order, p) == values && |values| <= 2
      modifies this, file
      ensures Valid() && pen == NEWPEN
      ensures file.bytes == old(file.bytes) + Image(file.order, threadId, old(pen).deferred + [p])
      ensures acts == old(acts) + ActsOf(file.order, threadId, Flushed(old(pen)) + InSection(file.order, threadId, [p]))
    {
      hide Image, FlushActs, BodyWrites, Pieces, PiecesActs, ActsOf;
      ghost var held := pen;
      BeginValue(kind, values, p);
      Unlock();
      ghost var pieces := Pieces(file.order, threadId, [p]);
      FlushedActs(file.order, threadId, held, pieces);
      ClosedActs(old(acts), FlushActs(file.order, threadId, held), [Acquire] + PiecesActs(pieces));
    }

    method Bit(c: int32)
      requires Valid()
      modifies this, file
      ensures Did(CallBit(c))
    {
      hide Image, ActsOf, InSection, Flushed;
      nextCode := CodeOf(c);
      pen := pen.(code := nextCode);
      SendValue(CBA_BIT, [], Packet.Bit(nextCode));
      SameFlushed(old(pen), CodeOf(c));
    }

    method Int32(num: int32)
      requires Valid()
      modifies this, file
      ensures Did(CallInt32(num))
    {
      hide Image, Enc, ActsOf, InSection, Flushed;
      Pow256Values();
      SendValue(CBA_INT32, [Enc(file.order, 4, Unsigned(4, num))], Packet.Int32(nextCode, num));
    }

    method Int64(wide: int64)
      requires Valid()
      modifies this, file
      ensures Did(CallInt64(wide))
    {
      hide Image, Enc, ActsOf, InSection, Flushed;
      Pow256Values();
      SendValue(CBA_INT64, [Enc(file.order, 8, Unsigned(8, wide))], Packet.Int64(nextCode, wide));
    }

    /** Data in memory, cut into chunks. On a big-endian machine the chunk lengths come out wrong. */
    method Data(data: seq<byte>)
      requires Valid()
      modifies this, file
      ensures Valid() && pen == NEWPEN
      ensures file.bytes == old(file.bytes)
        + Image(file.order, threadId, old(pen).deferred + [Packet.Data(old(nextCode))])
        + RawChunks(file.order, threadId, data)
      ensures acts == old(acts) + CallActs(file.order, threadId, old(pen), CallData(data))
      ensures Sound(file.order, old(pen), CallData(data)) ==> Did(CallData(data))
    {
      hide Image, Enc, RawChunks, FlushActs, Pieces, PiecesActs, DataPieces, ActsOf, Flushed;
      ghost var p, held := Packet.Data(nextCode), pen;
      BeginValue(CBA_DATA, [], p);
      SendChunks(data);
      Unlock();
      DataExactly(file.order, threadId, data);
      assert held.deferred + [p] + Chunks(data) == held.deferred + ([p] + Chunks(data));
      if file.order == Little || data == [] {
        ImageGrows(file.order, threadId, old(file.bytes), held.deferred + [p], Chunks(data), file.bytes);
      }
      SectionEnds(file.order, threadId, held, old(acts), Pieces(file.order, threadId, [p]),
                  DataPieces(file.order, threadId, data), acts);
    }

    method SendChunks(data: seq<byte>)
      modifies this`acts, file
      ensures file.bytes == old(file.bytes) + RawChunks(file.order, threadId, data)
      ensures acts == old(acts) + PiecesActs(DataPieces(file.order, threadId, data))
    {
      hide Enc, RawChunks, PiecesActs, DataPieces;
      ghost var order := file.order;
      var offset := 0;
      assert data[0..] == data;
      while true
        invariant 0 <= offset <= |data|
        invariant file.bytes + RawChunks(order, threadId, data[offset..])
          == old(file.bytes) + RawChunks(order, threadId, data)
        invariant acts + PiecesActs(DataPieces(order, threadId, data[offset..]))
          == old(acts) + PiecesActs(DataPieces(order, threadId, data))
        decreases |data| - offset
      {
        var more := |data| - offset > CBA_MAXBUFF;
        var chunkLen := if more then CBA_MAXBUFF else |data| - offset;
        var chunk := data[offset..offset + chunkLen];
        NextChunk(data, offset, chunk);
        RawStep(order, threadId, data[offset..], chunk, file.bytes, acts);
        var len := Enc(file.order, 4, chunkLen)[..2];
        DoWrite([threadId], true);
        DoWrite(len, false);
        if chunkLen == 0 {
          break;
        }
        DoWrite(chunk, false);
        offset := offset + chunkLen;
      }
    }

    /** A file, chunk by chunk as it is read. */
    method File(path: seq<byte>, parts: seq<seq<byte>>)
      requires Valid() && forall i :: 0 <= i < |parts| ==> |parts[i]| <= CBA_MAXBUFF
      modifies this, file
      ensures Did(CallFile(path, parts))
    {
      hide Image, Enc, FlushActs, Pieces, PiecesActs, FileChunks, ActsOf, Flushed;
      var name := FilePath(path);
      ghost var p, held := Packet.File(nextCode, name), pen;
      BeginValue(CBA_FILE, [Enc(file.order, 2, |name|), name], p);
      SendFile(parts);
      Unlock();
      assert held.deferred + [p] + FileChunks(parts) == held.deferred + ([p] + FileChunks(parts));
      ImageGrows(file.order, threadId, old(file.bytes), held.deferred + [p], FileChunks(parts), file.bytes);
      PiecesConcat(file.order, threadId, [p], FileChunks(parts));
      SectionEnds(file.order, threadId, held, old(acts), Pieces(file.order, threadId, [p]),
                  Pieces(file.order, threadId, FileChunks(parts)), acts);
    }

    /** Any call, by name. */
    method Perform(call: Call)
      requires Valid() && Sound(file.order, pen, call)
      modifies this, deferredBuffer, file
      ensures Did(call)
    {
      hide Image, Step;
      ImageLength(file.order, threadId, pen.deferred);
      match call
      case CallHead(name) => Head(name);
      case CallDeferStr(text) => var _ := DeferStr(text);
      case CallFlush => Flush();
      case CallCode(c) => Code(c);
      case CallBit(c) => Bit(c);
      case CallStr(text) => Str(text);
      case CallData(data) => Data(data);
      case CallFile(path, parts) => File(path, parts);
      case CallInt32(num) => Int32(num);
      case CallInt64(wide) => Int64(wide);
    }

    method SendFile(parts: seq<seq<byte>>)
      requires forall i :: 0 <= i < |parts| ==> |parts[i]| <= CBA_MAXBUFF
      modifies this`acts, file
      ensures file.bytes == old(file.bytes) + Image(file.order, threadId, FileChunks(parts))
      ensures acts == old(acts) + PiecesActs(Pieces(file.order, threadId, FileChunks(parts)))
    {
      hide Image, Enc, Pieces, PiecesActs;
      ghost var order := file.order;
      var i := 0;
      assert parts[0..] == parts;
      while true
        invariant 0 <= i <= |parts|
        invariant file.bytes + Image(order, threadId, FileChunks(parts[i..]))
          == old(file.bytes) + Image(order, threadId, FileChunks(parts))
        invariant acts + PiecesActs(Pieces(order, threadId, FileChunks(parts[i..])))
          == old(acts) + PiecesActs(Pieces(order, threadId, FileChunks(parts)))
        decreases |parts| - i
      {
        ghost var here, before := file.bytes, acts;
        DoWrite([threadId], true);
        var chunk: seq<byte> := if i < |parts| then parts[i] else [];
        ghost var len := Enc(order, 2, |chunk|);
        DoWrite(Enc(file.order, 2, |chunk|), false);
        assert file.bytes == here + ([threadId] + len);
        AppendTwice(before, Write([threadId], true), Write(len, false));
        FileChunksFirst(order, threadId, parts[i..], chunk);
        FilePiecesFirst(order, threadId, parts[i..], chunk);
        if chunk == [] {
          break;
        }
        DoWrite(chunk, false);
        assert parts[i..][1..] == parts[i + 1..];
        Assoc3(before, [Write([threadId], true), Write(len, false)], [Write(chunk, false)],
               PiecesActs(Pieces(order, threadId, FileChunks(parts[i + 1..]))));
        i := i + 1;
      }
    }
  }

  lemma StrImage(order: Order, tid: byte, p: Packet, before: seq<byte>, h: seq<byte>, now: seq<byte>)
    requires p.Str? && h == [tid] + Header(order, CBA_STR, p.code)
    requires now == before + h + Enc(order, 2, |p.text|) + p.text
    ensures now == before + Image(order, tid, [p])
  {
    hide Image, Enc, Header, Frame;
    FrameEvent(order, tid, p);
    ImageOne(order, tid, p);
    Assoc3(before, h, Enc(order, 2, |p.text|), p.text);
    Assoc(h, Enc(order, 2, |p.text|), p.text);
  }

  lemma StrActs(order: Order, tid: byte, p: Packet, before: seq<Act>, h: seq<byte>, now: seq<Act>)
    requires p.Str? && h == [tid] + Header(order, CBA_STR, p.code)
    requires now == before + [Acquire] + [Write(h, true)] + [Write(Enc(order, 2, |p.text|), false)]
                    + [Write(p.text, false)] + [Release]
    ensures now == before + SectionActs(Pieces(order, tid, [p]))
  {
    hide Enc, Header, Pieces, PiecesActs, Writes;
    EventActs(order, tid, p);
    WritesTwo(Enc(order, 2, |p.text|), p.text, false);
    FiveActs(before, Acquire, Write(h, true), Write(Enc(order, 2, |p.text|), false), Write(p.text, false), Release);
  }

  lemma FiveActs(before: seq<Act>, a: Act, b: Act, c: Act, d: Act, e: Act)
    ensures before + [a] + [b] + [c] + [d] + [e] == before + ([a] + ([b] + [c, d]) + [e])
  {
  }

  lemma AppendTwice<T>(s: seq<T>, a: T, b: T)
    ensures s + [a] + [b] == s + [a, b]
  {
  }

  /** Two values written, or fewer. */
  lemma ValuesWritten(values: seq<seq<byte>>)
    requires |values| <= 2
    ensures Writes(values, false)
      == if |values| == 0 then [] else if |values| == 1 then [Write(values[0], false)]
         else [Write(values[0], false), Write(values[1], false)]
    ensures Joined(values)
      == if |values| == 0 then [] else if |values| == 1 then values[0] else values[0] + values[1]
  {
    hide Writes, Joined;
    if |values| == 0 {
      NoValues();
      assert values == [];
    } else if |values| == 1 {
      WritesOne(values[0], false);
      JoinedOne(values[0]);
      assert values == [values[0]];
    } else {
      WritesTwo(values[0], values[1], false);
      JoinedTwo(values[0], values[1]);
      assert values == [values[0], values[1]];
    }
  }

  lemma ValuesAppended(bytes: seq<byte>, acts: seq<Act>, values: seq<seq<byte>>, bytes': seq<byte>, acts': seq<Act>)
    requires |values| <= 2
    requires var one := bytes + if |values| > 0 then values[0] else [];
      bytes' == one + if |values| > 1 then values[1] else []
    requires var one := acts + if |values| > 0 then [Write(values[0], false)] else [];
      acts' == one + if |values| > 1 then [Write(values[1], false)] else []
    ensures bytes' == bytes + Joined(values) && acts' == acts + Writes(values, false)
  {
    hide Writes, Joined;
    ValuesWritten(values);
    if |values| > 1 {
      Assoc(bytes, values[0], values[1]);
      AppendTwice(acts, Write(values[0], false), Write(values[1], false));
    } else if |values| == 1 {
      assert bytes + values[0] + [] == bytes + values[0];
      assert acts + [Write(values[0], false)] + [] == acts + [Write(values[0], false)];
    } else {
      assert bytes + [] + [] == bytes + [] && acts + [] + [] == acts + [];
    }
  }

  /** The bytes of an event packet behind those flushed. */
  lemma ValueBytes(order: Order, tid: byte, before: seq<byte>, held: seq<Packet>, p: Packet, values: seq<seq<byte>>,
                   now: seq<byte>)
    requires !p.Chunk? && BodyWrites(order, p) == values
    requires now == before + Image(order, tid, held) + ([tid] + Header(order, Kind(p), p.code)) + Joined(values)
    ensures now == before + Image(order, tid, held + [p])
  {
    hide Image, Header, Body, BodyWrites, Frame, Joined;
    BodyJoined(order, p);
    Assoc(before + Image(order, tid, held), [tid] + Header(order, Kind(p), p.code), Joined(values));
    FrameEvent(order, tid, p);
    ImageOne(order, tid, p);
    ImageGrows(order, tid, before, held, [p], now);
  }

  lemma ValueActs(order: Order, tid: byte, flushed: seq<Act>, p: Packet, values: seq<seq<byte>>, now: seq<Act>)
    requires !p.Chunk? && BodyWrites(order, p) == values
    requires now == flushed + [Acquire, Write([tid] + Header(order, Kind(p), p.code), true)] + Writes(values, false)
    ensures now == flushed + ([Acquire] + PiecesActs(Pieces(order, tid, [p])))
  {
    hide Header, BodyWrites, Pieces, PiecesActs, Writes;
    EventActs(order, tid, p);
    OpenedActs(flushed, [tid] + Header(order, Kind(p), p.code), Writes(values, false));
  }

  lemma NoValues()
    ensures Writes([], false) == [] && Joined([]) == []
  {
  }

  lemma OpenedActs(before: seq<Act>, h: seq<byte>, values: seq<Act>)
    ensures before + [Acquire, Write(h, true)] + values == before + ([Acquire] + ([Write(h, true)] + values))
  {
  }

  lemma ClosedActs(before: seq<Act>, flush: seq<Act>, section: seq<Act>)
    ensures before + flush + section + [Release] == before + (flush + (section + [Release]))
  {
  }

  lemma SameFlushed(pen: Pen, code: uint32)
    ensures Flushed(pen.(code := code)) == Flushed(pen)
  {
  }

  lemma PiecesConcat(order: Order, tid: byte, ps: seq<Packet>, qs: seq<Packet>)
    ensures Pieces(order, tid, ps + qs) == Pieces(order, tid, ps) + Pieces(order, tid, qs)
  {
  }

  /** A section of an event packet and the chunks behind it, from its flush to its end. */
  lemma SectionEnds(order: Order, tid: byte, pen: Pen, before: seq<Act>, first: seq<Piece>, chunks: seq<Piece>,
                    now: seq<Act>)
    requires now
      == before + FlushActs(order, tid, pen) + ([Acquire] + PiecesActs(first)) + PiecesActs(chunks) + [Release]
    ensures now == before + ActsOf(order, tid, Flushed(pen) + [Section(first + chunks)])
  {
    hide FlushActs, PiecesActs, ActsOf, Flushed;
    PiecesActsConcat(first, chunks);
    FlushedActs(order, tid, pen, first + chunks);
    var flush, a, b := FlushActs(order, tid, pen), PiecesActs(first), PiecesActs(chunks);
    assert before + flush + ([Acquire] + a) + b + [Release] == before + (flush + ([Acquire] + (a + b) + [Release]));
  }

  lemma NextChunk(data: seq<byte>, offset: nat, chunk: seq<byte>)
    requires offset <= |data|
    requires var n := if |data| - offset > CBA_MAXBUFF then CBA_MAXBUFF else |data| - offset;
      chunk == data[offset..offset + n]
    ensures var rest := data[offset..];
      && chunk == (if |rest| > CBA_MAXBUFF then rest[..CBA_MAXBUFF] else rest)
      && rest[|chunk|..] == data[offset + |chunk|..]
  {
  }

  /** A chunk of data and what it leaves, in bytes and in acts. */
  lemma RawStep(order: Order, tid: byte, rest: seq<byte>, chunk: seq<byte>, here: seq<byte>, before: seq<Act>)
    requires chunk == if |rest| > CBA_MAXBUFF then rest[..CBA_MAXBUFF] else rest
    ensures var len, after := Enc(order, 4, |chunk|)[..2], rest[|chunk|..];
      var bytes, acts := here + [tid] + len, before + [Write([tid], true)] + [Write(len, false)];
      && here + RawChunks(order, tid, rest)
         == (if chunk == [] then bytes else bytes + chunk + RawChunks(order, tid, after))
      && before + PiecesActs(DataPieces(order, tid, rest))
         == if chunk == [] then acts else acts + [Write(chunk, false)] + PiecesActs(DataPieces(order, tid, after))
  {
    hide Enc, RawChunks, PiecesActs, DataPieces;
    var len, after := Enc(order, 4, |chunk|)[..2], rest[|chunk|..];
    RawChunksFirst(order, tid, rest, chunk);
    DataPiecesFirst(order, tid, rest, chunk);
    Assoc(here, [tid], len);
    AppendTwice(before, Write([tid], true), Write(len, false));
    if chunk == [] {
      assert [tid] + len + [] == [tid] + len;
      var two := [Write([tid], true), Write(len, false)];
      assert two + [] == two;
    } else {
      Assoc3(here, [tid] + len, chunk, RawChunks(order, tid, after));
      Assoc3(before, [Write([tid], true), Write(len, false)], [Write(chunk, false)],
             PiecesActs(DataPieces(order, tid, after)));
    }
  }

  lemma DataPiecesFirst(order: Order, tid: byte, data: seq<byte>, chunk: seq<byte>)
    requires chunk == if |data| > CBA_MAXBUFF then data[..CBA_MAXBUFF] else data
    ensures var first := [Write([tid], true), Write(Enc(order, 4, |chunk|)[..2], false)];
      PiecesActs(DataPieces(order, tid, data))
        == first + if chunk == [] then []
                   else [Write(chunk, false)] + PiecesActs(DataPieces(order, tid, data[|chunk|..]))
  {
    hide Enc, ChunkWrites, Writes;
    var len := Enc(order, 4, |chunk|)[..2];
    var piece := Piece(Chunk(chunk), ChunkWrites(tid, len, chunk));
    ChunkActs(tid, len, chunk);
    if chunk == [] {
      OnePiece(piece);
    } else {
      var rest := DataPieces(order, tid, data[|chunk|..]);
      assert |data| <= CBA_MAXBUFF ==> data[..|data|] == data;
      assert DataPieces(order, tid, data) == [piece] + rest;
      assert ([piece] + rest)[1..] == rest;
      Assoc([Write([tid], true), Write(len, false)], [Write(chunk, false)], PiecesActs(rest));
    }
  }

  lemma FilePiecesFirst(order: Order, tid: byte, parts: seq<seq<byte>>, chunk: seq<byte>)
    requires chunk == if parts == [] then [] else parts[0]
    ensures var first := [Write([tid], true), Write(Enc(order, 2, |chunk|), false)];
      PiecesActs(Pieces(order, tid, FileChunks(parts)))
        == first + if chunk == [] then []
                   else [Write(chunk, false)] + PiecesActs(Pieces(order, tid, FileChunks(parts[1..])))
  {
    hide Enc, ChunkWrites, Writes;
    var len := Enc(order, 2, |chunk|);
    var piece := Piece(Chunk(chunk), ChunkWrites(tid, len, chunk));
    ChunkActs(tid, len, chunk);
    if chunk == [] {
      assert Pieces(order, tid, [Chunk([])]) == [piece];
      OnePiece(piece);
    } else {
      var rest := FileChunks(parts[1..]);
      PiecesConcat(order, tid, [Chunk(chunk)], rest);
      assert Pieces(order, tid, [Chunk(chunk)]) == [piece];
      assert ([piece] + Pieces(order, tid, rest))[1..] == Pieces(order, tid, rest);
      Assoc([Write([tid], true), Write(len, false)], [Write(chunk, false)], PiecesActs(Pieces(order, tid, rest)));
    }
  }

  lemma RawChunksFirst(order: Order, tid: byte, data: seq<byte>, chunk: seq<byte>)
    requires chunk == if |data| > CBA_MAXBUFF then data[..CBA_MAXBUFF] else data
    ensures var first := [tid] + Enc(order, 4, |chunk|)[..2];
      RawChunks(order, tid, data)
        == first + if chunk == [] then [] else chunk + RawChunks(order, tid, data[|chunk|..])
  {
    hide Enc;
    assert |data| <= CBA_MAXBUFF ==> data[|chunk|..] == [];
    Assoc([tid] + Enc(order, 4, |chunk|)[..2], chunk, RawChunks(order, tid, data[|chunk|..]));
  }

  lemma FileChunksFirst(order: Order, tid: byte, parts: seq<seq<byte>>, chunk: seq<byte>)
    requires chunk == if parts == [] then [] else parts[0]
    ensures var first := [tid] + Enc(order, 2, |chunk|);
      Image(order, tid, FileChunks(parts))
        == first + if chunk == [] then [] else chunk + Image(order, tid, FileChunks(parts[1..]))
  {
    hide Enc, Image;
    ImageOne(order, tid, Chunk(chunk));
    var first := [tid] + Enc(order, 2, |chunk|);
    Assoc([tid], Enc(order, 2, |chunk|), chunk);
    if chunk != [] {
      ImageConcat(order, tid, [Chunk(chunk)], FileChunks(parts[1..]));
      Assoc(first, chunk, Image(order, tid, FileChunks(parts[1..])));
    } else {
      assert first + [] == first;
    }
  }

  lemma ImageGrows(order: Order, tid: byte, before: seq<byte>, held: seq<Packet>, qs: seq<Packet>, now: seq<byte>)
    requires now == before + Image(order, tid, held) + Image(order, tid, qs)
    ensures now == before + Image(order, tid, held + qs)
  {
    ImageConcat(order, tid, held, qs);
    Assoc(before, Image(order, tid, held), Image(order, tid, qs));
  }

  lemma Assoc3<T>(a: seq<T>, b: seq<T>, c: seq<T>, d: seq<T>)
    ensures a + b + c + d == a + (b + (c + d))
  {
    Assoc(b, c, d);
  }

  lemma Deferred(order: Order, tid: byte, code: uint32, text: seq<byte>, was: seq<byte>,
                 head: seq<byte>, now: seq<byte>)
    requires var h := [tid] + Header(order, CBA_STR, code); head == if text == [] then h[..|h| - 1] + [0] else h
    requires now == was + head + Enc(order, 2, |text|) + text
    ensures now == was + DeferImage(order, tid, code, text)
  {
  }
}
