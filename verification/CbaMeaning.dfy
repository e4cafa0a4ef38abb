/** From calls to entries: the packets a thread's calls send decode to exactly what the calls mean, and so does
    any file in which the packets of several threads alternate. */
module CbaMeaning {
  import opened Sequences
  import opened Bytes
  import opened CbaFormat
  import opened CbaDecode
  import opened CbaFiles
  import opened CbaInterleave
  import opened CbaDisk
  import opened CbaCalls

  /** The writer holds back the packets of the head the log has pending. */
  ghost predicate Holds(pen: Pen, pending: Option<Pending>) {
    match pending
    case None => pen.deferred == []
    case Some(p) =>
      && pen.deferred != [] && pen.deferred[0].Head? && pen.deferred[0].name == p.name && |p.name| < 0x100
      && Ascii(p.name)
      && Spells(pen.deferred[1..], p.events)
      && BufferLen(pen.deferred) == p.used
  }

  /** These string packets record these events. */
  ghost predicate Spells(ps: seq<Packet>, events: seq<Event>) {
    && |ps| == |events|
    && forall i :: 0 <= i < |ps| ==>
        ps[i].Str? && |ps[i].text| < 0x1_0000 && events[i] == Event(CBA_STR, ps[i].code, Text(ps[i].text))
  }

  /** The reader is where the log says the thread is. */
  ghost predicate Tracks(ts: State, log: Log) {
    ts.stream == Closed && ts.name == log.name && ts.events == log.events && ts.dict == Dict(log.events)
  }

  ghost predicate Matches(log: Log, pen: Pen, ts: State) {
    pen.code == log.code && Holds(pen, log.pending) && Tracks(ts, log)
  }

  /** Packets read in state `ts` produce `out` and bring the reader to where `log` is. */
  ghost predicate Yields(cfg: Config, ts: State, ps: seq<Packet>, out: seq<Output>, log: Log) {
    Legible(cfg, ts, ps) && Tracks(Play(cfg, ts, ps).0, log) && Play(cfg, ts, ps).1 == out
  }

  lemma DictAdd(events: seq<Event>, e: Event)
    ensures Dict(events + [e]) == Dict(events)[e.code := e.val]
  {
    assert (events + [e])[..|events|] == events;
  }

  lemma PlayOne(cfg: Config, ts: State, p: Packet)
    ensures Play(cfg, ts, [p]) == Apply(cfg, true, ts, p)
    ensures Legible(cfg, ts, [p]) <==> Fits(cfg, ts, p)
  {
    var (ts', out) := Apply(cfg, true, ts, p);
    assert [p][1..] == [];
    assert Play(cfg, ts', []) == (ts', []);
    assert out + [] == out;
  }

  lemma PlayFirst(cfg: Config, ts: State, ps: seq<Packet>, ts': State)
    requires ps != [] && Apply(cfg, true, ts, ps[0]) == (ts', [])
    ensures Play(cfg, ts, ps) == Play(cfg, ts', ps[1..])
  {
    var out := Play(cfg, ts', ps[1..]).1;
    assert [] + out == out;
  }

  /** One stretch of packets after another. */
  lemma YieldsConcat(cfg: Config, ts: State, ps: seq<Packet>, out: seq<Output>, log: Log,
                     qs: seq<Packet>, out': seq<Output>, log': Log)
    requires Yields(cfg, ts, ps, out, log)
    requires Yields(cfg, Play(cfg, ts, ps).0, qs, out', log')
    ensures Yields(cfg, ts, ps + qs, out + out', log')
  {
    PlayConcat(cfg, ts, ps, qs);
    LegibleConcat(cfg, ts, ps, qs);
  }

  /** A single packet that records a single event. */
  lemma RecordOne(cfg: Config, ts: State, log: Log, p: Packet, kind: byte, val: Value)
    requires Tracks(ts, log) && !p.Chunk? && Fits(cfg, ts, p)
    requires Apply(cfg, true, ts, p) == (AddEvent(ts.(curCode := p.code, curKind := kind), kind, p.code, val), [])
    requires p.code == log.code
    ensures Yields(cfg, ts, [p], [], Add(log, kind, val))
  {
    DictAdd(log.events, Event(kind, log.code, val));
    PlayOne(cfg, ts, p);
  }

  lemma {:induction false} RecordStrings(cfg: Config, ts: State, log: Log, ps: seq<Packet>, events: seq<Event>)
    requires Tracks(ts, log) && Spells(ps, events)
    ensures Yields(cfg, ts, ps, [], log.(events := log.events + events))
    decreases |ps|
  {
    if ps == [] {
      assert log.events + events == log.events;
    } else {
      var log1 := log.(code := ps[0].code);
      RecordOne(cfg, ts, log1, ps[0], CBA_STR, Text(ps[0].text));
      var log2 := Add(log1, CBA_STR, Text(ps[0].text));
      var ts2 := Play(cfg, ts, [ps[0]]).0;
      assert Spells(ps[1..], events[1..]);
      RecordStrings(cfg, ts2, log2, ps[1..], events[1..]);
      assert log2.events + events[1..] == log.events + events;
      YieldsConcat(cfg, ts, [ps[0]], [], log2, ps[1..], [], log2.(events := log2.events + events[1..]));
      assert [ps[0]] + ps[1..] == ps;
    }
  }

  /** A head and the strings behind it close the old entry and begin the new one. */
  lemma BeginEntry(cfg: Config, ts: State, log: Log, head: Packet, texts: seq<Packet>, events: seq<Event>)
    requires Tracks(ts, log) && head.Head? && Fits(cfg, ts, head) && Spells(texts, events)
    ensures Yields(cfg, ts, [head] + texts, Result(cfg, ts), log.(name := head.name, events := events))
  {
    var ts1 := FRESH.(name := head.name);
    var begun := log.(name := head.name, events := []);
    PlayOne(cfg, ts, head);
    assert Yields(cfg, ts, [head], Result(cfg, ts), begun);
    RecordStrings(cfg, ts1, begun, texts, events);
    assert begun.events + events == events;
    assert Result(cfg, ts) + [] == Result(cfg, ts);
    YieldsConcat(cfg, ts, [head], Result(cfg, ts), begun, texts, [], begun.(events := events));
  }

  /** What committing the waiting head sends out of the reader. */
  ghost function Committed(cfg: Config, log: Log): seq<Output> {
    if log.pending.None? then [] else EntryOf(cfg, log.name, log.events)
  }

  /** Flushing: the packets held back bring the reader from the old entry to the new one. */
  lemma FlushCommits(cfg: Config, ts: State, log: Log, pen: Pen)
    requires Matches(log, pen, ts)
    ensures Yields(cfg, ts, pen.deferred, Committed(cfg, log), Commit(cfg, log))
    ensures Commit(cfg, log).out == log.out + Committed(cfg, log)
  {
    match log.pending
    case None =>
      assert log.out + [] == log.out;
    case Some(p) =>
      BeginEntry(cfg, ts, log, pen.deferred[0], pen.deferred[1..], p.events);
      assert [pen.deferred[0]] + pen.deferred[1..] == pen.deferred;
      assert Result(cfg, ts) == EntryOf(cfg, log.name, log.events);
  }

  /** However data is cut into chunks, the stream in memory ends up holding all of it. */
  lemma {:induction false} PlayChunks(cfg: Config, ts: State, data: seq<byte>)
    requires ts.stream.Memory?
    ensures Legible(cfg, ts, Chunks(data))
    ensures Play(cfg, ts, Chunks(data))
      == (AddEvent(ts, CBA_DATA, ts.curCode, Blob(ts.stream.buf + data)).(stream := Closed), [])
    decreases |data|
  {
    if data == [] {
      PlayOne(cfg, ts, Chunk([]));
      assert ts.stream.buf + data == ts.stream.buf;
    } else {
      var n := if |data| > CBA_MAXBUFF then CBA_MAXBUFF else |data|;
      var ts1 := ts.(stream := Memory(ts.stream.buf + data[..n]));
      assert |data| <= CBA_MAXBUFF ==> data[..n] == data;
      assert Chunks(data)[0] == Chunk(data[..n]);
      PlayFirst(cfg, ts, Chunks(data), ts1);
      assert data[..n] + data[n..] == data;
      if |data| > CBA_MAXBUFF {
        PlayChunks(cfg, ts1, data[n..]);
        Assoc(ts.stream.buf, data[..n], data[n..]);
        assert Chunks(data)[1..] == Chunks(data[n..]);
      } else {
        assert data[..n] == data;
        PlayOne(cfg, ts1, Chunk([]));
        assert Chunks(data)[1..] == [Chunk([])];
      }
    }
  }

  /** However a file is delivered in parts, the file on disk ends up holding all of it; a stream that is
      ignored stays ignored. */
  lemma {:induction false} PlayFile(cfg: Config, ts: State, parts: seq<seq<byte>>)
    requires ts.stream.Disk? || ts.stream.Ignore?
    requires forall i :: 0 <= i < |parts| ==> |parts[i]| <= CBA_MAXBUFF
    ensures Legible(cfg, ts, FileChunks(parts))
    ensures Play(cfg, ts, FileChunks(parts))
      == (ts.(stream := Closed),
          if ts.stream.Disk? then [Saved(ts.stream.path, ts.stream.buf + Whole(parts))] else [])
    decreases |parts|
  {
    if parts == [] || parts[0] == [] {
      PlayOne(cfg, ts, Chunk([]));
      assert ts.stream.Disk? ==> ts.stream.buf + [] == ts.stream.buf;
    } else {
      var ts1 := ts.(stream := Feed(ts.stream, parts[0]));
      PlayFirst(cfg, ts, FileChunks(parts), ts1);
      PlayFile(cfg, ts1, parts[1..]);
      if ts.stream.Disk? {
        Assoc(ts.stream.buf, parts[0], Whole(parts[1..]));
      }
      assert FileChunks(parts)[1..] == FileChunks(parts[1..]);
    }
  }

  // ----- one call

  /** A call's packets, read after everything before them, say what the call means. */
  ghost predicate Delivers(cfg: Config, ts: State, log: Log, pen: Pen, call: Call) {
    var (pen', ps) := Step(pen, call);
    var log' := Interpret(cfg, log, call);
    && log.out <= log'.out
    && Yields(cfg, ts, ps, log'.out[|log.out|..], log')
    && Holds(pen', log'.pending) && pen'.code == log'.code
  }

  /** Flush what is held back, then send `qs`. */
  lemma FlushThen(cfg: Config, ts: State, log: Log, pen: Pen, qs: seq<Packet>, out: seq<Output>, log': Log)
    requires Matches(log, pen, ts)
    requires Yields(cfg, Play(cfg, ts, pen.deferred).0, qs, out, log')
    requires log'.out == Commit(cfg, log).out + out
    ensures log.out <= log'.out
    ensures Yields(cfg, ts, pen.deferred + qs, log'.out[|log.out|..], log')
  {
    FlushCommits(cfg, ts, log, pen);
    YieldsConcat(cfg, ts, pen.deferred, Committed(cfg, log), Commit(cfg, log), qs, out, log');
    Assoc(log.out, Committed(cfg, log), out);
    assert (log.out + (Committed(cfg, log) + out))[|log.out|..] == Committed(cfg, log) + out;
  }

  /** Flush, then one packet that records one event. */
  lemma FlushThenRecord(cfg: Config, ts: State, log: Log, pen: Pen, p: Packet, kind: byte, val: Value)
    requires Matches(log, pen, ts) && !p.Chunk? && p.code == log.code
    requires (p.Str? && val == Text(p.text) && kind == CBA_STR && |p.text| < 0x1_0000)
      || (p.Bit? && kind == CBA_BIT && val == Flag)
      || (p.Int32? && kind == CBA_INT32 && val == Num(p.num))
      || (p.Int64? && kind == CBA_INT64 && val == Num(p.wide))
    ensures var log' := Add(Commit(cfg, log), kind, val);
      log.out <= log'.out && Yields(cfg, ts, pen.deferred + [p], log'.out[|log.out|..], log')
  {
    FlushCommits(cfg, ts, log, pen);
    var ts1 := Play(cfg, ts, pen.deferred).0;
    RecordOne(cfg, ts1, Commit(cfg, log), p, kind, val);
    var log' := Add(Commit(cfg, log), kind, val);
    assert log'.out == Commit(cfg, log).out + [];
    FlushThen(cfg, ts, log, pen, [p], [], log');
  }

  lemma HeadDelivers(cfg: Config, ts: State, log: Log, pen: Pen, call: Call)
    requires call.CallHead? && Matches(log, pen, ts) && Clear(cfg, log, call)
    ensures Delivers(cfg, ts, log, pen, call)
  {
    var p := Head(pen.code, HeadName(call.name));
    assert [p][..0] == [] && [p][1..] == [];
    assert BufferLen([p]) == BufferLen([]) + FrameLen(p);
    assert FrameLen(p) == 1 + HeaderLen(pen.code) + 1 + |p.name|;
  }

  lemma DeferDelivers(cfg: Config, ts: State, log: Log, pen: Pen, call: Call)
    requires call.CallDeferStr? && Matches(log, pen, ts)
    ensures Delivers(cfg, ts, log, pen, call)
  {
    hide Play, Legible, Formatted, DeferredText, FrameLen;
    if pen.deferred == [] {
      var p := Str(pen.code, Formatted(call.text));
      FlushThenRecord(cfg, ts, log, pen, p, CBA_STR, Text(p.text));
      assert pen.deferred + [p] == [p];
    } else {
      HoldsOneMore(pen, log.pending, Str(pen.code, DeferredText(BufferLen(pen.deferred), pen.code, call.text)));
      NothingPlayed(cfg, ts, log, pen);
      hide Matches, Holds;
      assert log.out[|log.out|..] == [];
    }
  }

  /** One more string behind the waiting head. */
  lemma HoldsOneMore(pen: Pen, pending: Option<Pending>, p: Packet)
    requires Holds(pen, pending) && pending.Some? && p.Str? && |p.text| < 0x1_0000
    ensures var was := pending.value;
      was.used == BufferLen(pen.deferred)
      && Holds(Pen(0, pen.deferred + [p]),
               Some(Pending(was.name, was.events + [Event(CBA_STR, p.code, Text(p.text))],
                            was.used + 1 + HeaderLen(p.code) + 2 + |p.text|)))
  {
    hide Ascii;
    var held := pen.deferred + [p];
    assert held[..|held| - 1] == pen.deferred;
    assert held[1..] == pen.deferred[1..] + [p];
    assert FrameLen(p) == 1 + HeaderLen(p.code) + 2 + |p.text|;
  }

  lemma DataDelivers(cfg: Config, ts: State, log: Log, pen: Pen, call: Call)
    requires call.CallData? && Matches(log, pen, ts)
    ensures Delivers(cfg, ts, log, pen, call)
  {
    FlushCommits(cfg, ts, log, pen);
    var ts1, log1 := Play(cfg, ts, pen.deferred).0, Commit(cfg, log);
    var p, chunks := Data(pen.code), Chunks(call.data);
    var ts2 := Apply(cfg, true, ts1, p).0;
    PlayChunks(cfg, ts2, call.data);
    PlayFirst(cfg, ts1, [p] + chunks, ts2);
    assert ([p] + chunks)[1..] == chunks;
    assert [] + call.data == call.data;
    DictAdd(log1.events, Event(CBA_DATA, log.code, Blob(call.data)));
    var log' := Add(log1, CBA_DATA, Blob(call.data));
    assert log'.out == log1.out + [];
    assert Yields(cfg, ts1, [p] + chunks, [], log');
    FlushThen(cfg, ts, log, pen, [p] + chunks, [], log');
  }

  /** The file stored by a FILE packet and the reads behind it, in an entry of module `name`. */
  ghost function Stored(cfg: Config, name: seq<byte>, path: seq<byte>, parts: seq<seq<byte>>): seq<Output> {
    var target := TargetPath(cfg, name, path);
    if target == [] then [] else [Saved(target, Whole(parts))]
  }

  ghost function WithFile(cfg: Config, log: Log, path: seq<byte>, parts: seq<seq<byte>>): Log {
    var target := TargetPath(cfg, log.name, path);
    var log' := if target == [] then log.(code := 0) else Add(log, CBA_FILE, Path(target));
    log'.(out := log.out + Stored(cfg, log.name, path, parts))
  }

  lemma FileRecorded(cfg: Config, ts: State, log: Log, p: Packet, parts: seq<seq<byte>>)
    requires Tracks(ts, log) && p.File? && p.code == log.code && Fits(cfg, ts, p)
    requires forall i :: 0 <= i < |parts| ==> |parts[i]| <= CBA_MAXBUFF
    ensures Yields(cfg, ts, [p] + FileChunks(parts), Stored(cfg, log.name, p.path, parts),
                   WithFile(cfg, log, p.path, parts))
  {
    hide Sanitize, Whole, FileChunks;
    var chunks := FileChunks(parts);
    var ts' := Apply(cfg, true, ts, p).0;
    PlayFile(cfg, ts', parts);
    PlayFirst(cfg, ts, [p] + chunks, ts');
    assert ([p] + chunks)[1..] == chunks;
    assert [] + Whole(parts) == Whole(parts);
    DictAdd(log.events, Event(CBA_FILE, log.code, Path(TargetPath(cfg, log.name, p.path))));
  }

  lemma FileDelivers(cfg: Config, ts: State, log: Log, pen: Pen, call: Call)
    requires call.CallFile? && Matches(log, pen, ts) && Clear(cfg, log, call) && Framed(call)
    ensures Delivers(cfg, ts, log, pen, call)
  {
    hide Play, Legible, EntryOf, Sanitize, Whole, FileChunks;
    FlushCommits(cfg, ts, log, pen);
    var log1 := Commit(cfg, log);
    var p := File(pen.code, FilePath(call.path));
    FileRecorded(cfg, Play(cfg, ts, pen.deferred).0, log1, p, call.parts);
    assert log1.out + [] == log1.out;
    assert Interpret(cfg, log, call) == WithFile(cfg, log1, p.path, call.parts);
    FlushThen(cfg, ts, log, pen, [p] + FileChunks(call.parts), Stored(cfg, log1.name, p.path, call.parts),
              WithFile(cfg, log1, p.path, call.parts));
  }

  lemma CallDelivers(cfg: Config, ts: State, log: Log, pen: Pen, call: Call)
    requires Matches(log, pen, ts) && Framed(call) && Clear(cfg, log, call)
    ensures Delivers(cfg, ts, log, pen, call)
  {
    match call
    case CallHead(_) => HeadDelivers(cfg, ts, log, pen, call);
    case CallDeferStr(_) => DeferDelivers(cfg, ts, log, pen, call);
    case CallFlush =>
      FlushCommits(cfg, ts, log, pen);
    case CallCode(_) =>
    case CallBit(c) =>
      FlushThenRecord(cfg, ts, log.(code := CodeOf(c)), pen.(code := CodeOf(c)), Bit(CodeOf(c)), CBA_BIT, Flag);
    case CallStr(text) =>
      FlushThenRecord(cfg, ts, log, pen, Str(pen.code, Formatted(text)), CBA_STR, Text(Formatted(text)));
    case CallData(_) => DataDelivers(cfg, ts, log, pen, call);
    case CallFile(_, _) => FileDelivers(cfg, ts, log, pen, call);
    case CallInt32(num) => FlushThenRecord(cfg, ts, log, pen, Int32(pen.code, num), CBA_INT32, Num(num));
    case CallInt64(wide) => FlushThenRecord(cfg, ts, log, pen, Int64(pen.code, wide), CBA_INT64, Num(wide));
  }

  // ----- a thread's whole run

  /** After a delivered call the reader has kept up with the writer. */
  lemma KeepsUp(cfg: Config, ts: State, log: Log, pen: Pen, call: Call)
    requires Matches(log, pen, ts) && Framed(call) && Clear(cfg, log, call)
    ensures var (pen', ps) := Step(pen, call);
      var log' := Interpret(cfg, log, call);
      var (ts', out) := Play(cfg, ts, ps);
      Legible(cfg, ts, ps) && Matches(log', pen', ts') && log'.out == log.out + out
  {
    CallDelivers(cfg, ts, log, pen, call);
  }

  /** After all of its calls the reader is where the log says the thread is, with no stream open. */
  lemma {:induction false} RunDelivers(cfg: Config, ts: State, log: Log, pen: Pen, calls: seq<Call>)
    requires Matches(log, pen, ts) && AllFramed(calls) && AllClear(cfg, log, calls)
    ensures var ps, log' := Packets(pen, calls), InterpretAll(cfg, log, calls);
      && Legible(cfg, ts, ps)
      && log.out + Play(cfg, ts, ps).1 == log'.out
      && Tracks(Play(cfg, ts, ps).0, log')
    decreases |calls|
  {
    hide Step, Interpret, Framed, Clear, Play, Legible, Matches, Tracks;
    if calls == [] {
      NothingPlayed(cfg, ts, log, pen);
    } else {
      assert Framed(calls[0]) && AllFramed(calls[1..]);
      KeepsUp(cfg, ts, log, pen, calls[0]);
      var (pen', ps) := Step(pen, calls[0]);
      var log' := Interpret(cfg, log, calls[0]);
      var (ts', out) := Play(cfg, ts, ps);
      var rest := Packets(pen', calls[1..]);
      RunDelivers(cfg, ts', log', pen', calls[1..]);
      LegibleConcat(cfg, ts, ps, rest);
      PlayConcat(cfg, ts, ps, rest);
      Assoc(log.out, out, Play(cfg, ts', rest).1);
    }
  }

  lemma NothingPlayed(cfg: Config, ts: State, log: Log, pen: Pen)
    requires Matches(log, pen, ts)
    ensures Legible(cfg, ts, []) && Play(cfg, ts, []) == (ts, []) && Tracks(ts, log)
    ensures log.out + [] == log.out
  {
  }

  lemma RunEnds(cfg: Config, ts: State, log: Log, out: seq<Output>)
    requires Tracks(ts, log)
    ensures out + Result(cfg, ts) == Finish(cfg, log.(out := out))
    ensures ts.stream == Closed
  {
  }

  /** A thread's calls decode to what they mean. */
  lemma CallsRead(cfg: Config, calls: seq<Call>)
    requires AllFramed(calls) && AllClear(cfg, NEWLOG, calls)
    ensures var ps := Packets(NEWPEN, calls);
      && Legible(cfg, FRESH, ps) && Play(cfg, FRESH, ps).0.stream == Closed
      && Reading(cfg, FRESH, ps) == Written(cfg, calls)
  {
    RunDelivers(cfg, FRESH, NEWLOG, NEWPEN, calls);
    var (ts, out) := Play(cfg, FRESH, Packets(NEWPEN, calls));
    assert [] + out == out;
    RunEnds(cfg, ts, InterpretAll(cfg, NEWLOG, calls), out);
  }

  // ----- files one after the other

  /** Nothing of a file: what is held back behind a head. */
  predicate NoFiles(ps: seq<Packet>) {
    forall i :: 0 <= i < |ps| ==> !ps[i].File? && !ps[i].Chunk?
  }

  lemma {:induction false} NoFilesTurn(t: byte, ps: seq<Packet>)
    requires NoFiles(ps)
    ensures OneFileAtATime(None, Tag(t, ps))
    decreases |ps|
  {
    if ps != [] {
      assert Tag(t, ps)[1..] == Tag(t, ps[1..]);
      NoFilesTurn(t, ps[1..]);
    }
  }

  lemma OneFileFirst(writer: Option<byte>, t: byte, p: Packet, rest: seq<Packet>)
    ensures OneFileAtATime(writer, Tag(t, [p] + rest))
      <==> (p.File? ==> writer == None) && OneFileAtATime(WriterAfter(writer, t, p), Tag(t, rest))
  {
    assert Tag(t, [p] + rest)[0] == (t, p) && Tag(t, [p] + rest)[1..] == Tag(t, rest);
  }

  lemma {:induction false} FileChunksTurn(t: byte, parts: seq<seq<byte>>)
    ensures OneFileAtATime(Some(t), Tag(t, FileChunks(parts)))
    decreases |parts|
  {
    if parts == [] || parts[0] == [] {
      OneFileFirst(Some(t), t, Chunk([]), []);
      assert [Chunk([])] + [] == [Chunk([])];
    } else {
      FileChunksTurn(t, parts[1..]);
      OneFileFirst(Some(t), t, Chunk(parts[0]), FileChunks(parts[1..]));
    }
  }

  lemma {:induction false} ChunksTurn(t: byte, data: seq<byte>)
    ensures OneFileAtATime(None, Tag(t, Chunks(data)))
    decreases |data|
  {
    OneFileFirst(None, t, Chunk([]), []);
    assert [Chunk([])] + [] == [Chunk([])];
    if |data| > CBA_MAXBUFF {
      ChunksTurn(t, data[CBA_MAXBUFF..]);
      OneFileFirst(None, t, Chunk(data[..CBA_MAXBUFF]), Chunks(data[CBA_MAXBUFF..]));
    } else if data != [] {
      OneFileFirst(None, t, Chunk(data), [Chunk([])]);
      assert [Chunk(data)] + [Chunk([])] == [Chunk(data), Chunk([])];
    }
  }

  lemma TurnAfterHeld(t: byte, held: seq<Packet>, ps: seq<Packet>)
    requires NoFiles(held) && OneFileAtATime(None, Tag(t, ps))
    ensures OneFileAtATime(None, Tag(t, held + ps))
  {
    hide OneFileAtATime, NoFiles;
    NoFilesTurn(t, held);
    OneFileConcat(None, Tag(t, held), Tag(t, ps));
    assert Tag(t, held + ps) == Tag(t, held) + Tag(t, ps);
  }

  /** A call begins and ends its file. */
  lemma CallTurn(t: byte, pen: Pen, call: Call)
    requires NoFiles(pen.deferred)
    ensures var (pen', ps) := Step(pen, call);
      NoFiles(pen'.deferred) && OneFileAtATime(None, Tag(t, ps))
  {
    hide OneFileAtATime, FileChunks, Chunks, Formatted, DeferredText, Tag;
    NoFilesTurn(t, []);
    match call
    case CallHead(_) =>
    case CallCode(_) =>
    case CallDeferStr(text) => NoFilesTurn(t, [Str(pen.code, Formatted(text))]);
    case CallFlush => NoFilesTurn(t, pen.deferred);
    case CallBit(c) => NoFilesTurn(t, [Bit(CodeOf(c))]); TurnAfterHeld(t, pen.deferred, [Bit(CodeOf(c))]);
    case CallStr(text) =>
      NoFilesTurn(t, [Str(pen.code, Formatted(text))]);
      TurnAfterHeld(t, pen.deferred, [Str(pen.code, Formatted(text))]);
    case CallData(data) =>
      ChunksTurn(t, data);
      OneFileFirst(None, t, Data(pen.code), Chunks(data));
      TurnAfterHeld(t, pen.deferred, [Data(pen.code)] + Chunks(data));
    case CallFile(path, parts) =>
      FileChunksTurn(t, parts);
      OneFileFirst(None, t, File(pen.code, FilePath(path)), FileChunks(parts));
      TurnAfterHeld(t, pen.deferred, [File(pen.code, FilePath(path))] + FileChunks(parts));
    case CallInt32(num) =>
      NoFilesTurn(t, [Int32(pen.code, num)]);
      TurnAfterHeld(t, pen.deferred, [Int32(pen.code, num)]);
    case CallInt64(wide) =>
      NoFilesTurn(t, [Int64(pen.code, wide)]);
      TurnAfterHeld(t, pen.deferred, [Int64(pen.code, wide)]);
  }

  lemma {:induction false} CallsTurn(t: byte, pen: Pen, calls: seq<Call>)
    requires NoFiles(pen.deferred)
    ensures OneFileAtATime(None, Tag(t, Packets(pen, calls)))
    decreases |calls|
  {
    hide OneFileAtATime, Step;
    if calls == [] {
      NoFilesTurn(t, []);
    } else {
      var (pen', ps) := Step(pen, calls[0]);
      var rest := Packets(pen', calls[1..]);
      CallTurn(t, pen, calls[0]);
      CallsTurn(t, pen', calls[1..]);
      OneFileConcat(None, Tag(t, ps), Tag(t, rest));
      assert Tag(t, ps + rest) == Tag(t, ps) + Tag(t, rest);
    }
  }

  // ----- heads that come to nothing

  /** Deferring these strings. */
  function Deferrals(texts: seq<seq<byte>>): seq<Call> {
    seq(|texts|, i requires 0 <= i < |texts| => CallDeferStr(texts[i]))
  }

  lemma {:induction false} DeferralsWait(cfg: Config, log: Log, texts: seq<seq<byte>>)
    requires log.pending.Some? && log.code == 0
    ensures exists p :: InterpretAll(cfg, log, Deferrals(texts)) == log.(pending := Some(p))
    decreases |texts|
  {
    if texts == [] {
      assert InterpretAll(cfg, log, Deferrals(texts)) == log.(pending := Some(log.pending.value));
    } else {
      var log' := Interpret(cfg, log, CallDeferStr(texts[0]));
      assert Deferrals(texts)[1..] == Deferrals(texts[1..]);
      DeferralsWait(cfg, log', texts[1..]);
      var p :| InterpretAll(cfg, log', Deferrals(texts[1..])) == log'.(pending := Some(p));
      assert InterpretAll(cfg, log, Deferrals(texts)) == log.(pending := Some(p));
    }
  }

  lemma {:induction false} InterpretConcat(cfg: Config, log: Log, calls: seq<Call>, more: seq<Call>)
    ensures InterpretAll(cfg, log, calls + more) == InterpretAll(cfg, InterpretAll(cfg, log, calls), more)
    decreases |calls|
  {
    if calls == [] {
      assert calls + more == more;
    } else {
      assert (calls + more)[1..] == calls[1..] + more;
      InterpretConcat(cfg, Interpret(cfg, log, calls[0]), calls[1..], more);
    }
  }

  /** A head, with whatever is deferred behind it, leaves no trace when another head replaces it or nothing comes
      after it; it only uses up a code that was set for it. */
  lemma AbandonedHead(cfg: Config, log: Log, name: seq<byte>, texts: seq<seq<byte>>, rest: seq<Call>)
    requires rest == [] || rest[0].CallHead?
    ensures Finish(cfg, InterpretAll(cfg, log, [CallHead(name)] + Deferrals(texts) + rest))
      == Finish(cfg, InterpretAll(cfg, log.(code := 0), rest))
  {
    var head := [CallHead(name)];
    var log1 := Interpret(cfg, log, head[0]);
    assert (head + Deferrals(texts))[1..] == Deferrals(texts);
    DeferralsWait(cfg, log1, texts);
    InterpretConcat(cfg, log, head + Deferrals(texts), rest);
    var log2 := InterpretAll(cfg, log1, Deferrals(texts));
    assert InterpretAll(cfg, log, head + Deferrals(texts)) == log2;
    var p :| log2 == log1.(pending := Some(p));
    if rest != [] {
      assert Interpret(cfg, log2, rest[0]) == Interpret(cfg, log.(code := 0), rest[0]);
    }
  }

  // ----- several threads, one file

  /** The calls of one thread, for a thread that may have made none. */
  ghost function CallsOf(threads: map<byte, seq<Call>>, t: byte): seq<Call> {
    if t in threads then threads[t] else []
  }

  /** `tps` is some interleaving of the packets the threads' calls send. */
  ghost predicate Interleaves(tps: seq<Tagged>, threads: map<byte, seq<Call>>) {
    forall t: byte :: Project(tps, t) == Packets(NEWPEN, CallsOf(threads, t))
  }

  ghost predicate Understood(cfg: Config, threads: map<byte, seq<Call>>) {
    forall u :: u in threads ==> AllFramed(threads[u]) && AllClear(cfg, NEWLOG, threads[u])
  }

  lemma ThreadsReadable(cfg: Config, threads: map<byte, seq<Call>>, tps: seq<Tagged>)
    requires Understood(cfg, threads) && Interleaves(tps, threads)
    ensures Readable(cfg, EMPTY, tps) && AllClosed(cfg, tps)
  {
    hide Legible, Play, Reading, Written;
    forall u: byte
      ensures Legible(cfg, EMPTY.Get(u), Project(tps, u)) && Play(cfg, FRESH, Project(tps, u)).0.stream == Closed
    {
      CallsRead(cfg, CallsOf(threads, u));
    }
  }

  /** The log file keeps every thread's record: whatever order the packets of the threads' calls reach the file
      in, one pass over it yields for each thread exactly the entries its calls mean, and those of its files that
      the file system grants. */
  lemma LogKeepsEveryThread(cfg: Config, disk: Files, threads: map<byte, seq<Call>>, tps: seq<Tagged>, t: byte)
    requires Understood(cfg, threads) && Interleaves(tps, threads)
    ensures var pass := Entries(cfg, disk, EMPTY, EncodeTagged(cfg.order, tps));
      var means := Written(cfg, CallsOf(threads, t));
      && pass.ok
      && Project(pass.out, t) == Survive(means, GrantedTo(cfg, disk.Keys, tps, t))
      && YieldsOf(Project(pass.out, t)) == YieldsOf(means)
  {
    hide Readable, Entries, EncodeTagged, Survive, Reading, Written, GrantedTo, YieldsOf, Packets;
    ThreadsReadable(cfg, threads, tps);
    FreshPass(cfg, disk, tps, t);
    CallsRead(cfg, CallsOf(threads, t));
    YieldsSurvive(Written(cfg, CallsOf(threads, t)), GrantedTo(cfg, disk.Keys, tps, t));
  }

  // ----- which files are kept

  /** Every file is stored, so that one pass gives back exactly what the calls mean, if and only if the files can be
      opened and, unless existing ones are overwritten, told apart; that does not depend on the order of the log. When
      no two files overlap in the log, every file moreover holds its data in the end if and only if those that share a
      place agree. */
  lemma FilesKeptExactly(cfg: Config, disk: Files, threads: map<byte, seq<Call>>, tps: seq<Tagged>)
    requires Understood(cfg, threads) && Interleaves(tps, threads)
    ensures var pass := Entries(cfg, disk, EMPTY, EncodeTagged(cfg.order, tps));
      var means := (t: byte) => Written(cfg, CallsOf(threads, t));
      && ((forall t: byte :: Project(pass.out, t) == means(t)) <==> Keepable(cfg, disk.Keys, means))
      && (OneFileAtATime(None, tps) ==> (AllKept(cfg, pass, means) <==> Lasting(cfg, disk.Keys, means)))
  {
    hide Readable, AllClosed, Entries, EncodeTagged, Written, Reading, Packets, Project, Keepable, AllKept, Lasting,
      OneFileAtATime;
    ThreadsReadable(cfg, threads, tps);
    var means := (t: byte) => Written(cfg, CallsOf(threads, t));
    forall t: byte ensures Reading(cfg, FRESH, Project(tps, t)) == means(t) {
      CallsRead(cfg, CallsOf(threads, t));
    }
    KeptExactly(cfg, disk, tps, means);
    if OneFileAtATime(None, tps) {
      LastingExactly(cfg, disk, tps, means);
    }
  }

  /** A thread that stores two files under one name. */
  function TwoFiles(name: seq<byte>, path: seq<byte>, one: seq<byte>, two: seq<byte>): seq<Call> {
    [CallHead(name), CallFile(path, [one]), CallFile(path, [two])]
  }

  lemma TwoFilesMean(cfg: Config, path: seq<byte>, one: seq<byte>, two: seq<byte>)
    requires STAR in cfg.extractFor && cfg.filter.None? && path != [] && |path| < 0x1_0000 && Ascii(path)
    requires Sanitize(path) == path && 0 < |one| <= CBA_MAXBUFF && 0 < |two| <= CBA_MAXBUFF
    ensures var calls := TwoFiles([], path, one, two);
      var event := Event(CBA_FILE, 0, Path(path));
      && AllFramed(calls) && AllClear(cfg, NEWLOG, calls)
      && Written(cfg, calls)
         == [Saved(path, one), Saved(path, two), Yield(Entry([], Dict([event, event]), [event, event]))]
  {
    hide Sanitize, Dict, Whole, Ascii, InterpretAll, AllClear, Interpret, Clear, AllFramed, Finish, EntryOf;
    var event := Event(CBA_FILE, 0, Path(path));
    var head, first, second := CallHead([]), CallFile(path, [one]), CallFile(path, [two]);
    var log1 := NEWLOG.(pending := Some(Pending([], [], 3)));
    var log2 := Log([Saved(path, one)], [], [event], None, 0);
    var log3 := Log([Saved(path, one), Saved(path, two)], [], [event, event], None, 0);
    OneHead(cfg);
    OneFile(cfg, log1, path, one);
    OneFile(cfg, log2, path, two);
    assert log3.out == log2.out + [Saved(path, two)] && log3.events == log2.events + [event];
    LastCall(cfg, log2, second, log3);
    FirstCall(cfg, log1, first, [second], log2);
    FirstCall(cfg, NEWLOG, head, [first, second], log1);
    assert [first] + [second] == [first, second];
    assert [head] + [first, second] == TwoFiles([], path, one, two);
    TwoOutputs(cfg, log3, event);
    TwoFramed(path, one, two);
  }

  lemma TwoOutputs(cfg: Config, log: Log, e: CbaDecode.Event)
    requires cfg.filter.None? && log.name == [] && log.events == [e, e] && |log.out| == 2
    ensures Finish(cfg, log) == [log.out[0], log.out[1], Yield(Entry([], Dict([e, e]), [e, e]))]
  {
    hide Dict;
  }

  lemma TwoFramed(path: seq<byte>, one: seq<byte>, two: seq<byte>)
    requires |one| <= CBA_MAXBUFF && |two| <= CBA_MAXBUFF
    ensures AllFramed(TwoFiles([], path, one, two))
  {
  }

  lemma OneHead(cfg: Config)
    ensures Interpret(cfg, NEWLOG, CallHead([])) == NEWLOG.(pending := Some(Pending([], [], 3)))
    ensures Clear(cfg, NEWLOG, CallHead([]))
  {
  }

  lemma NoCalls()
    ensures Packets(NEWPEN, []) == []
  {
  }

  /** A file stored behind a head that waits, or in an entry of its own, of the module without a name. */
  lemma OneFile(cfg: Config, log: Log, path: seq<byte>, data: seq<byte>)
    requires STAR in cfg.extractFor && path != [] && |path| < 0x1_0000 && Ascii(path) && Sanitize(path) == path
    requires log.code == 0 && log.name == []
    requires log.pending == None || (log.pending == Some(Pending([], [], 3)) && log.events == [])
    ensures Clear(cfg, log, CallFile(path, [data]))
    ensures Interpret(cfg, log, CallFile(path, [data]))
      == Log(log.out + [Saved(path, data)], [], log.events + [Event(CBA_FILE, 0, Path(path))], None, 0)
  {
    hide Sanitize, Dict, Ascii, Whole;
    assert path[..|path|] == path;
    WholeOfOne(data);
    assert log.out + [] == log.out;
  }

  lemma WholeOfOne(data: seq<byte>)
    ensures Whole([data]) == data
  {
    assert [data][1..] == [] && data + [] == data;
  }

  lemma FirstCall(cfg: Config, log: Log, call: Call, rest: seq<Call>, log': Log)
    requires Interpret(cfg, log, call) == log'
    ensures InterpretAll(cfg, log, [call] + rest) == InterpretAll(cfg, log', rest)
    ensures AllClear(cfg, log, [call] + rest) <==> Clear(cfg, log, call) && AllClear(cfg, log', rest)
  {
    assert ([call] + rest)[1..] == rest;
  }

  lemma LastCall(cfg: Config, log: Log, call: Call, log': Log)
    requires Interpret(cfg, log, call) == log'
    ensures InterpretAll(cfg, log, [call]) == log'
    ensures AllClear(cfg, log, [call]) <==> Clear(cfg, log, call)
  {
    FirstCall(cfg, log, call, [], log');
    assert [call] + [] == [call];
  }

  lemma PathsFirst(x: Output, rest: seq<Output>)
    ensures PathsOf([x] + rest) == (if x.Saved? then [x.path] else []) + PathsOf(rest)
  {
    assert ([x] + rest)[1..] == rest;
  }

  lemma TwoPaths(path: Name, one: seq<byte>, two: seq<byte>, e: CbaDecode.Entry)
    ensures PathsOf([Saved(path, one), Saved(path, two), Yield(e)]) == [path, path]
  {
    PathsFirst(Saved(path, one), [Saved(path, two), Yield(e)]);
    PathsFirst(Saved(path, two), [Yield(e)]);
    PathsFirst(Yield(e), []);
    assert [Saved(path, one)] + [Saved(path, two), Yield(e)] == [Saved(path, one), Saved(path, two), Yield(e)];
    assert [Saved(path, two)] + [Yield(e)] == [Saved(path, two), Yield(e)];
    assert [Yield(e)] + [] == [Yield(e)];
  }

  lemma TwoSurvive(path: Name, one: seq<byte>, two: seq<byte>, e: CbaDecode.Entry)
    ensures Survive([Saved(path, one), Saved(path, two), Yield(e)], [true, false]) == [Saved(path, one), Yield(e)]
  {
    SurviveFirst(Saved(path, one), [Saved(path, two), Yield(e)], [true, false]);
    SurviveFirst(Saved(path, two), [Yield(e)], [false]);
    SurviveFirst(Yield(e), [], []);
    assert [Saved(path, one)] + [Saved(path, two), Yield(e)] == [Saved(path, one), Saved(path, two), Yield(e)];
    assert [Saved(path, two)] + [Yield(e)] == [Saved(path, two), Yield(e)];
    assert [Yield(e)] + [] == [Yield(e)];
  }

  lemma TwoGranted(cfg: Config, disk: set<Name>, path: Name, t: byte)
    requires !cfg.overwrite && path !in cfg.blocked && FileOf(cfg, path) !in disk
    ensures Project(Granted(cfg, disk, Tag(t, [path, path])), t) == [true, false]
  {
    var disk' := DiskWith(cfg, disk, path);
    var twice: seq<(byte, Name)> := [(t, path), (t, path)];
    assert Tag(t, [path, path]) == twice && twice[1..] == [(t, path)];
    assert Granted(cfg, disk', [(t, path)]) == [(t, false)];
    assert Granted(cfg, disk, twice) == [(t, true), (t, false)];
    assert Tag(t, [true, false]) == [(t, true), (t, false)];
    ProjectTag([true, false], t, t);
  }

  /** For instance, a reader that does not overwrite keeps the first of two files of one name and drops the second,
      whose event it records all the same. */
  lemma SecondFileLost(cfg: Config, disk: Files, path: seq<byte>, one: seq<byte>, two: seq<byte>, t: byte)
    requires !cfg.overwrite && STAR in cfg.extractFor && cfg.filter.None?
    requires path != [] && |path| < 0x1_0000 && Ascii(path) && NoDotDot(path) && path[0] != SLASH
    requires path !in cfg.blocked && FileOf(cfg, path) !in disk.Keys
    requires 0 < |one| <= CBA_MAXBUFF && 0 < |two| <= CBA_MAXBUFF
    ensures var calls := TwoFiles([], path, one, two);
      var pass := Entries(cfg, disk, EMPTY, EncodeTagged(cfg.order, Tag(t, Packets(NEWPEN, calls))));
      exists e: CbaDecode.Entry :: e.events == [Event(CBA_FILE, 0, Path(path)), Event(CBA_FILE, 0, Path(path))]
        && Written(cfg, calls) == [Saved(path, one), Saved(path, two), Yield(e)]
        && Project(pass.out, t) == [Saved(path, one), Yield(e)]
  {
    var calls := TwoFiles([], path, one, two);
    var tps := Tag(t, Packets(NEWPEN, calls));
    hide Packets, Written, Wanted, Granted, Asked, Survive, Entries, EncodeTagged, PathsOf, Reading, Sanitize;
    var threads := map[t := calls];
    var event := Event(CBA_FILE, 0, Path(path));
    var e := Entry([], Dict([event, event]), [event, event]);
    Sanitized(path);
    TwoFilesMean(cfg, path, one, two);
    forall u: byte ensures Project(tps, u) == Packets(NEWPEN, CallsOf(threads, u)) {
      ProjectTag(Packets(NEWPEN, calls), t, u);
      NoCalls();
    }
    LogKeepsEveryThread(cfg, disk, threads, tps, t);
    CallsRead(cfg, calls);
    AnswersMatch(cfg, disk.Keys, tps, t);
    WantedAlone(cfg, map[], Packets(NEWPEN, calls), t);
    ProjectTag(Asked(cfg, [], Packets(NEWPEN, calls)), t, t);
    TwoPaths(path, one, two, e);
    TwoGranted(cfg, disk.Keys, path, t);
    TwoSurvive(path, one, two, e);
  }

  lemma TwoOverwrite(cfg: Config, disk: set<Name>, path: Name, t: byte)
    requires cfg.overwrite && path !in cfg.blocked
    ensures Project(Granted(cfg, disk, Tag(t, [path, path])), t) == [true, true]
  {
    var disk' := DiskWith(cfg, disk, path);
    var twice: seq<(byte, Name)> := [(t, path), (t, path)];
    assert Tag(t, [path, path]) == twice && twice[1..] == [(t, path)];
    assert Granted(cfg, disk', [(t, path)]) == [(t, true)];
    assert Granted(cfg, disk, twice) == [(t, true), (t, true)];
    assert Tag(t, [true, true]) == [(t, true), (t, true)];
    ProjectTag([true, true], t, t);
  }

  lemma BothSurvive(path: Name, one: seq<byte>, two: seq<byte>, e: CbaDecode.Entry)
    ensures Survive([Saved(path, one), Saved(path, two), Yield(e)], [true, true])
      == [Saved(path, one), Saved(path, two), Yield(e)]
  {
    SurviveFirst(Saved(path, one), [Saved(path, two), Yield(e)], [true, true]);
    SurviveFirst(Saved(path, two), [Yield(e)], [true]);
    SurviveFirst(Yield(e), [], []);
    assert [Saved(path, one)] + [Saved(path, two), Yield(e)] == [Saved(path, one), Saved(path, two), Yield(e)];
    assert [Saved(path, two)] + [Yield(e)] == [Saved(path, two), Yield(e)];
    assert [Yield(e)] + [] == [Yield(e)];
  }

  lemma {:induction false} OneThread<T>(xs: seq<(byte, T)>, t: byte)
    requires forall u: byte :: u != t ==> Project(xs, u) == []
    ensures xs == Tag(t, Project(xs, t))
  {
    if xs != [] {
      var (u, x) := xs[0];
      assert Project(xs, u) == [x] + Project(xs[1..], u);
      forall v: byte | v != t ensures Project(xs[1..], v) == [] {
        assert Project(xs, v) == [];
      }
      OneThread(xs[1..], t);
      assert xs == [xs[0]] + xs[1..];
      assert Tag(t, [x] + Project(xs[1..], t)) == [(t, x)] + Tag(t, Project(xs[1..], t));
    }
  }

  lemma TwoStored(cfg: Config, disk: Files, path: Name, one: seq<byte>, two: seq<byte>, e: CbaDecode.Entry, t: byte)
    ensures var end := StoreAll(cfg, disk, Tag(t, [Saved(path, one), Saved(path, two), Yield(e)]));
      OnDisk(cfg, end, Saved(path, two))
  {
    var out: seq<(byte, Output)> := Tag(t, [Saved(path, one), Saved(path, two), Yield(e)]);
    assert out[1..] == [(t, Saved(path, two)), (t, Yield(e))] && out[1..][1..] == [(t, Yield(e))];
    var disk1 := Store(cfg, disk, Saved(path, one));
    var disk2 := Store(cfg, disk1, Saved(path, two));
    assert StoreAll(cfg, disk2, out[1..][1..]) == disk2 by { assert |out[1..][1..][1..]| == 0; }
    assert StoreAll(cfg, disk1, out[1..]) == disk2;
  }

  lemma OneThreadOnly(cfg: Config, t: byte, calls: seq<Call>, u: byte)
    ensures Project(Tag(t, Packets(NEWPEN, calls)), u) == Packets(NEWPEN, CallsOf(map[t := calls], u))
    ensures u != t ==> Written(cfg, CallsOf(map[t := calls], u)) == []
  {
    hide Packets;
    ProjectTag(Packets(NEWPEN, calls), t, u);
    NoCalls();
  }

  lemma NoneSurvive(oks: seq<bool>)
    ensures Survive([], oks) == []
  {
  }

  /** For instance, a reader that overwrites stores both, and in the end the file holds the second one's data: the
      first one's is gone. */
  lemma FirstFileReplaced(cfg: Config, disk: Files, path: seq<byte>, one: seq<byte>, two: seq<byte>, t: byte)
    requires cfg.overwrite && STAR in cfg.extractFor && cfg.filter.None?
    requires path != [] && |path| < 0x1_0000 && Ascii(path) && NoDotDot(path) && path[0] != SLASH
    requires path !in cfg.blocked
    requires 0 < |one| <= CBA_MAXBUFF && 0 < |two| <= CBA_MAXBUFF
    ensures var calls := TwoFiles([], path, one, two);
      var pass := Entries(cfg, disk, EMPTY, EncodeTagged(cfg.order, Tag(t, Packets(NEWPEN, calls))));
      && Project(pass.out, t) == Written(cfg, calls)
      && Saved(path, one) in Written(cfg, calls)
      && OnDisk(cfg, pass.disk, Saved(path, two))
  {
    var calls := TwoFiles([], path, one, two);
    var tps := Tag(t, Packets(NEWPEN, calls));
    hide Packets, Written, Wanted, Granted, Asked, Survive, Entries, EncodeTagged, PathsOf, Reading, Sanitize, StoreAll,
      OneFileAtATime;
    var threads := map[t := calls];
    var event := Event(CBA_FILE, 0, Path(path));
    var e := Entry([], Dict([event, event]), [event, event]);
    Sanitized(path);
    TwoFilesMean(cfg, path, one, two);
    forall u: byte ensures Project(tps, u) == Packets(NEWPEN, CallsOf(threads, u)) {
      OneThreadOnly(cfg, t, calls, u);
    }
    LogKeepsEveryThread(cfg, disk, threads, tps, t);
    WantedAlone(cfg, map[], Packets(NEWPEN, calls), t);
    CallsRead(cfg, calls);
    AnswersMatch(cfg, disk.Keys, tps, t);
    ProjectTag(Asked(cfg, [], Packets(NEWPEN, calls)), t, t);
    TwoPaths(path, one, two, e);
    TwoOverwrite(cfg, disk.Keys, path, t);
    BothSurvive(path, one, two, e);
    var pass := Entries(cfg, disk, EMPTY, EncodeTagged(cfg.order, tps));
    forall u: byte | u != t ensures Project(pass.out, u) == [] {
      LogKeepsEveryThread(cfg, disk, threads, tps, u);
      OneThreadOnly(cfg, t, calls, u);
      NoneSurvive(GrantedTo(cfg, disk.Keys, tps, u));
    }
    OneThread(pass.out, t);
    ThreadsReadable(cfg, threads, tps);
    CallsTurn(t, NEWPEN, calls);
    FilesStored(cfg, disk, tps);
    TwoStored(cfg, disk, path, one, two, e, t);
  }
}
