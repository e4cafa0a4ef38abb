/** What the lock on the log file is worth: every packet is written under it, but what was held back is flushed without
    it. Runs of any number of threads, act by act. */
module LogLock {
  import opened Sequences
  import opened Bytes
  import opened CbaFormat
  import opened CbaCalls
  import opened CbaMeaning
  import opened CbaActs

  /** What the threads do to the file, in the order it happens. */
  type Run = seq<(byte, Act)>

  datatype Holder = Free | Held(t: byte)

  /** Acquiring waits for the lock to be free; only its holder writes under it and releases it. A flush does not
      ask. */
  predicate Allowed(holder: Holder, t: byte, a: Act) {
    match a
    case Acquire => holder == Free
    case Write(_, _) => holder == Held(t)
    case Release => holder == Held(t)
    case Flush(_) => true
  }

  function After(holder: Holder, t: byte, a: Act): Holder {
    match a
    case Acquire => Held(t)
    case Release => Free
    case _ => holder
  }

  predicate Locked(holder: Holder, run: Run)
    decreases |run|
  {
    run == [] || (Allowed(holder, run[0].0, run[0].1) && Locked(After(holder, run[0].0, run[0].1), run[1..]))
  }

  function ActBytes(a: Act): seq<byte> { if a.Write? || a.Flush? then a.data else [] }

  /** The bytes that reach the file. */
  function FileBytes(run: Run): seq<byte> {
    if run == [] then [] else ActBytes(run[0].1) + FileBytes(run[1..])
  }

  // ----- which runs keep packets in one piece

  /** A piece of the file: the packet a thread begins as its n-th, or its n-th flush. */
  datatype Label = OfPacket(t: byte, n: nat) | OfFlush(t: byte, n: nat)

  /** How many packets and how many flushes each thread has begun. */
  datatype Tally = Tally(packets: map<byte, nat>, flushes: map<byte, nat>)

  const NONE_BEGUN := Tally(map[], map[])

  function Count(counts: map<byte, nat>, t: byte): nat { if t in counts then counts[t] else 0 }

  function Begins(tally: Tally, t: byte, a: Act): Tally {
    if a.Flush? then tally.(flushes := tally.flushes[t := Count(tally.flushes, t) + 1])
    else if a.Write? && a.starts then tally.(packets := tally.packets[t := Count(tally.packets, t) + 1])
    else tally
  }

  /** The piece an act writes to, which `tally` counts already. */
  function LabelOf(tally: Tally, t: byte, a: Act): Label {
    if a.Flush? then OfFlush(t, Count(tally.flushes, t)) else OfPacket(t, Count(tally.packets, t))
  }

  /** For every byte of the file, the piece it belongs to. */
  function Labels(tally: Tally, run: Run): seq<Label>
    decreases |run|
  {
    if run == [] then []
    else
      var (t, a) := run[0];
      var tally' := Begins(tally, t, a);
      Times(LabelOf(tally', t, a), |ActBytes(a)|) + Labels(tally', run[1..])
  }

  function Times<T>(x: T, n: nat): (r: seq<T>)
    ensures |r| == n && forall i :: 0 <= i < n ==> r[i] == x
  {
    seq(n, _ => x)
  }

  lemma {:induction false} EveryByteLabelled(tally: Tally, run: Run)
    ensures |Labels(tally, run)| == |FileBytes(run)|
    decreases |run|
  {
    if run != [] {
      EveryByteLabelled(Begins(tally, run[0].0, run[0].1), run[1..]);
    }
  }

  /** The bytes of every piece stand together. */
  ghost predicate Contiguous(labels: seq<Label>) {
    forall i, j, k :: 0 <= i < j < k < |labels| && labels[i] == labels[k] ==> labels[j] == labels[i]
  }

  /** No flush with bytes falls between two writes with bytes of one packet. The packet under way has bytes in the
      file when it is `dirty`, and has been flushed into since when it is `cut`. */
  predicate NoTear(dirty: bool, cut: bool, run: Run)
    decreases |run|
  {
    if run == [] then true
    else
      var a := run[0].1;
      !(a.Write? && !a.starts && a.data != [] && cut)
      && NoTear(DirtyAfter(dirty, a), CutAfter(dirty, cut, a), run[1..])
  }

  function DirtyAfter(dirty: bool, a: Act): bool {
    match a
    case Acquire => false
    case Release => false
    case Write(data, starts) => (dirty && !starts) || data != []
    case Flush(_) => dirty
  }

  function CutAfter(dirty: bool, cut: bool, a: Act): bool {
    match a
    case Acquire => false
    case Release => false
    case Write(_, starts) => cut && !starts
    case Flush(data) => cut || (dirty && data != [])
  }

  /** Where a thread is: outside the lock, inside with no packet under way, or in the middle of one. */
  datatype Mode = Outside | Opened | Midway

  function ModeAfter(m: Mode, a: Act): Mode {
    match a
    case Acquire => Opened
    case Release => Outside
    case Write(_, starts) => if starts then Midway else m
    case Flush(_) => m
  }

  /** It takes the lock outside, flushes outside, and inside begins a packet, with bytes, before it goes on with
      one. */
  predicate Orderly(m: Mode, a: Act) {
    match a
    case Acquire => m.Outside?
    case Release => !m.Outside?
    case Write(data, starts) => if starts then !m.Outside? && data != [] else m.Midway?
    case Flush(_) => m.Outside?
  }

  predicate Fluent(m: Mode, acts: seq<Act>)
    decreases |acts|
  {
    acts == [] || (Orderly(m, acts[0]) && Fluent(ModeAfter(m, acts[0]), acts[1..]))
  }

  function ModeOf(holder: Holder, dirty: bool, t: byte): Mode {
    if holder != Held(t) then Outside else if dirty then Midway else Opened
  }

  /** Every thread's part of the run is fluent, and the lock is kept. */
  ghost predicate Flows(holder: Holder, dirty: bool, run: Run) {
    Locked(holder, run) && forall t: byte :: Fluent(ModeOf(holder, dirty, t), Project(run, t))
  }

  lemma FlowsStep(holder: Holder, dirty: bool, run: Run)
    requires Flows(holder, dirty, run) && run != []
    ensures var (t, a) := run[0];
      && Allowed(holder, t, a) && Orderly(ModeOf(holder, dirty, t), a)
      && Flows(After(holder, t, a), DirtyAfter(dirty, a), run[1..])
  {
    var (t, a) := run[0];
    assert Project(run, t) == [a] + Project(run[1..], t);
    assert Fluent(ModeOf(holder, dirty, t), Project(run, t));
    forall u: byte
      ensures Fluent(ModeOf(After(holder, t, a), DirtyAfter(dirty, a), u), Project(run[1..], u))
    {
      assert Fluent(ModeOf(holder, dirty, u), Project(run, u));
      if u != t {
        assert Project(run, u) == Project(run[1..], u);
      }
    }
  }

  /** The piece the label names has been counted. */
  predicate Known(tally: Tally, x: Label) {
    match x
    case OfPacket(t, n) => n <= Count(tally.packets, t)
    case OfFlush(t, n) => n <= Count(tally.flushes, t)
  }

  /** The label of the packet the holder of the lock has begun last. */
  function Current(tally: Tally, holder: Holder): Label
    requires holder.Held?
  {
    OfPacket(holder.t, Count(tally.packets, holder.t))
  }

  /** What the labels so far say about the packet under way. */
  ghost predicate Accounted(done: seq<Label>, tally: Tally, holder: Holder, dirty: bool, cut: bool) {
    && Contiguous(done)
    && (forall i :: 0 <= i < |done| ==> Known(tally, done[i]))
    && (dirty ==> holder.Held? && Current(tally, holder) in done)
    && (cut <==> dirty && done[|done| - 1] != Current(tally, holder))
  }

  /** More bytes of the piece written last, or the first bytes of a new one. */
  lemma ContiguousMore(done: seq<Label>, x: Label, n: nat)
    requires Contiguous(done) && (x !in done || done[|done| - 1] == x)
    ensures Contiguous(done + Times(x, n))
  {
    var now := done + Times(x, n);
    forall i, j, k | 0 <= i < j < k < |now| && now[i] == now[k] ensures now[j] == now[i] {
      if |done| <= k && i < |done| {
        assert done[i] == x;
        var last := |done| - 1;
        assert j < last ==> done[j] == done[i];
      }
    }
  }

  lemma TornHere(done: seq<Label>, x: Label, rest: seq<Label>)
    requires x in done && done[|done| - 1] != x && rest != [] && rest[0] == x
    ensures !Contiguous(done + rest)
  {
    var all := done + rest;
    var i :| 0 <= i < |done| && done[i] == x;
    assert all[i] == x && all[|done| - 1] == done[|done| - 1] && all[|done|] == x;
  }

  /** An act that does not tear anything. */
  lemma AccountedStep(done: seq<Label>, tally: Tally, holder: Holder, dirty: bool, cut: bool, t: byte, a: Act)
    requires Accounted(done, tally, holder, dirty, cut)
    requires Allowed(holder, t, a) && Orderly(ModeOf(holder, dirty, t), a)
    requires !(a.Write? && !a.starts && a.data != [] && cut)
    ensures var tally' := Begins(tally, t, a);
      Accounted(done + Times(LabelOf(tally', t, a), |ActBytes(a)|), tally', After(holder, t, a), DirtyAfter(dirty, a),
             CutAfter(dirty, cut, a))
  {
    hide Contiguous;
    var tally' := Begins(tally, t, a);
    var x, n := LabelOf(tally', t, a), |ActBytes(a)|;
    var now := done + Times(x, n);
    if n == 0 {
      assert now == done;
    } else {
      assert now[|now| - 1] == x;
      assert dirty ==> Current(tally, holder) in now;
      ContiguousMore(done, x, n);
    }
  }

  lemma {:induction false} WholeFrom(done: seq<Label>, tally: Tally, holder: Holder, dirty: bool, cut: bool, run: Run)
    requires Accounted(done, tally, holder, dirty, cut) && Flows(holder, dirty, run)
    ensures Contiguous(done + Labels(tally, run)) <==> NoTear(dirty, cut, run)
    decreases |run|
  {
    hide Contiguous, Flows;
    if run == [] {
      assert done + [] == done;
    } else {
      var (t, a) := run[0];
      var tally' := Begins(tally, t, a);
      var here := Times(LabelOf(tally', t, a), |ActBytes(a)|);
      FlowsStep(holder, dirty, run);
      Assoc(done, here, Labels(tally', run[1..]));
      if a.Write? && !a.starts && a.data != [] && cut {
        TornHere(done, LabelOf(tally', t, a), here + Labels(tally', run[1..]));
      } else {
        AccountedStep(done, tally, holder, dirty, cut, t, a);
        WholeFrom(done + here, tally', After(holder, t, a), DirtyAfter(dirty, a), CutAfter(dirty, cut, a), run[1..]);
      }
    }
  }

  /** In a run of threads that keep the lock, every packet written under it and every flush stands in the file in one
      piece if and only if no flush with bytes falls between two writes with bytes of one packet. */
  lemma WholeExactly(run: Run)
    requires Flows(Free, false, run)
    ensures Contiguous(Labels(NONE_BEGUN, run)) <==> NoTear(false, false, run)
  {
    WholeFrom([], NONE_BEGUN, Free, false, false, run);
    assert [] + Labels(NONE_BEGUN, run) == Labels(NONE_BEGUN, run);
  }

  // ----- which calls keep packets in one piece

  /** Each thread does what its calls do, and the lock is kept. */
  ghost predicate RunOf(order: Order, threads: map<byte, seq<Call>>, run: Run) {
    && Locked(Free, run)
    && forall t: byte :: Project(run, t) == ThreadActs(order, t, NEWPEN, CallsOf(threads, t))
  }

  /** The calls are ones whose bytes are the packets `Step` says. */
  ghost predicate AllThreadsSound(order: Order, threads: map<byte, seq<Call>>) {
    forall t: byte :: AllSound(order, NEWPEN, CallsOf(threads, t))
  }

  function ModeAfterAll(m: Mode, acts: seq<Act>): Mode
    decreases |acts|
  {
    if acts == [] then m else ModeAfterAll(ModeAfter(m, acts[0]), acts[1..])
  }

  lemma {:induction false} FluentConcat(m: Mode, xs: seq<Act>, ys: seq<Act>)
    ensures Fluent(m, xs + ys) <==> Fluent(m, xs) && Fluent(ModeAfterAll(m, xs), ys)
    ensures ModeAfterAll(m, xs + ys) == ModeAfterAll(ModeAfterAll(m, xs), ys)
    decreases |xs|
  {
    if xs == [] {
      assert xs + ys == ys;
    } else {
      FirstOfConcat(xs, ys);
      FluentConcat(ModeAfter(m, xs[0]), xs[1..], ys);
    }
  }

  lemma {:induction false} MoreWritesFluent(writes: seq<seq<byte>>)
    ensures Fluent(Midway, Writes(writes, false)) && ModeAfterAll(Midway, Writes(writes, false)) == Midway
  {
    if writes != [] {
      MoreWritesFluent(writes[1..]);
    }
  }

  lemma {:induction false} PiecesFluent(order: Order, t: byte, m: Mode, pieces: seq<Piece>)
    requires PiecesProper(order, t, pieces) && !m.Outside?
    ensures Fluent(m, PiecesActs(pieces)) && !ModeAfterAll(m, PiecesActs(pieces)).Outside?
    decreases |pieces|
  {
    if pieces != [] {
      assert Proper(order, t, pieces[0]);
      var first := Writes(pieces[0].writes, true);
      MoreWritesFluent(pieces[0].writes[1..]);
      assert first[1..] == Writes(pieces[0].writes[1..], false);
      PiecesFluent(order, t, Midway, pieces[1..]);
      FluentConcat(m, first, PiecesActs(pieces[1..]));
    }
  }

  lemma UnitFluent(order: Order, t: byte, u: Unit)
    requires u.Section? ==> PiecesProper(order, t, u.pieces)
    ensures Fluent(Outside, UnitActs(order, t, u)) && ModeAfterAll(Outside, UnitActs(order, t, u)) == Outside
  {
    hide Image, PiecesActs, PiecesProper;
    if u.Section? {
      PiecesFluent(order, t, Opened, u.pieces);
      FluentConcat(Outside, [Acquire], PiecesActs(u.pieces));
      FluentConcat(Outside, [Acquire] + PiecesActs(u.pieces), [Release]);
    }
  }

  lemma {:induction false} UnitsFluent(order: Order, t: byte, units: seq<Unit>)
    requires AllProper(order, t, units)
    ensures Fluent(Outside, ActsOf(order, t, units)) && ModeAfterAll(Outside, ActsOf(order, t, units)) == Outside
    decreases |units|
  {
    hide UnitActs, PiecesProper;
    if units != [] {
      UnitFluent(order, t, units[0]);
      UnitsFluent(order, t, units[1..]);
      FluentConcat(Outside, UnitActs(order, t, units[0]), ActsOf(order, t, units[1..]));
    }
  }

  lemma ThreadFluent(order: Order, t: byte, calls: seq<Call>)
    requires AllSound(order, NEWPEN, calls)
    ensures var acts := ThreadActs(order, t, NEWPEN, calls);
      Fluent(Outside, acts) && ModeAfterAll(Outside, acts) == Outside
  {
    ThreadUnitsSend(order, t, NEWPEN, calls);
    UnitsFluent(order, t, ThreadUnits(order, t, NEWPEN, calls));
  }

  lemma RunFlows(order: Order, threads: map<byte, seq<Call>>, run: Run)
    requires RunOf(order, threads, run) && AllThreadsSound(order, threads)
    ensures Flows(Free, false, run)
  {
    hide ThreadActs, Fluent, AllSound, Locked;
    forall t: byte ensures Fluent(ModeOf(Free, false, t), Project(run, t)) {
      ThreadFluent(order, t, CallsOf(threads, t));
    }
  }

  // ----- flushes, and packets that go on after a first write

  predicate HasFlush(acts: seq<Act>) {
    acts != [] && ((acts[0].Flush? && acts[0].data != []) || HasFlush(acts[1..]))
  }

  predicate GoesOn(acts: seq<Act>) {
    acts != [] && ((acts[0].Write? && !acts[0].starts && acts[0].data != []) || GoesOn(acts[1..]))
  }

  lemma {:induction false} ActsConcat(xs: seq<Act>, ys: seq<Act>)
    ensures HasFlush(xs + ys) <==> HasFlush(xs) || HasFlush(ys)
    ensures GoesOn(xs + ys) <==> GoesOn(xs) || GoesOn(ys)
  {
    if xs == [] {
      assert xs + ys == ys;
    } else {
      FirstOfConcat(xs, ys);
      ActsConcat(xs[1..], ys);
    }
  }

  /** The call flushes a head that waits. */
  predicate FlushesHead(pen: Pen, call: Call) {
    pen.deferred != [] && !call.CallHead? && !call.CallDeferStr? && !call.CallCode?
  }

  /** The call writes more under the lock than a header: anything but a flag. */
  predicate SendsValue(pen: Pen, call: Call) {
    match call
    case CallDeferStr(_) => pen.deferred == []
    case CallStr(_) => true
    case CallData(_) => true
    case CallFile(_, _) => true
    case CallInt32(_) => true
    case CallInt64(_) => true
    case _ => false
  }

  predicate EverFlushesHead(pen: Pen, calls: seq<Call>)
    decreases |calls|
  {
    calls != [] && (FlushesHead(pen, calls[0]) || EverFlushesHead(Step(pen, calls[0]).0, calls[1..]))
  }

  predicate EverSendsValue(pen: Pen, calls: seq<Call>)
    decreases |calls|
  {
    calls != [] && (SendsValue(pen, calls[0]) || EverSendsValue(Step(pen, calls[0]).0, calls[1..]))
  }

  lemma {:induction false} WritesGoOn(writes: seq<seq<byte>>)
    ensures GoesOn(Writes(writes, false)) <==> Joined(writes) != []
    ensures !HasFlush(Writes(writes, false))
  {
    if writes != [] {
      WritesGoOn(writes[1..]);
    }
  }

  lemma {:induction false} PiecesFlushNothing(pieces: seq<Piece>)
    ensures !HasFlush(PiecesActs(pieces))
  {
    if pieces != [] {
      var w := pieces[0].writes;
      if w != [] {
        WritesGoOn(w[1..]);
        assert Writes(w, true)[1..] == Writes(w[1..], false);
      }
      PiecesFlushNothing(pieces[1..]);
      ActsConcat(Writes(w, true), PiecesActs(pieces[1..]));
    }
  }

  /** A first packet with more than one write that is not empty. */
  lemma FirstGoesOn(first: Piece, rest: seq<Piece>)
    requires first.writes != []
    ensures Joined(first.writes[1..]) != [] ==> GoesOn(PiecesActs([first] + rest))
    ensures rest == [] && Joined(first.writes[1..]) == [] ==> !GoesOn(PiecesActs([first] + rest))
  {
    var w := first.writes;
    assert ([first] + rest)[1..] == rest;
    WritesGoOn(w[1..]);
    assert Writes(w, true)[1..] == Writes(w[1..], false);
    ActsConcat(Writes(w, true), PiecesActs(rest));
  }

  lemma SectionHas(order: Order, t: byte, pen: Pen, pieces: seq<Piece>)
    ensures var acts := ActsOf(order, t, Flushed(pen) + [Section(pieces)]);
      (HasFlush(acts) <==> pen.deferred != []) && (GoesOn(acts) <==> GoesOn(PiecesActs(pieces)))
    ensures var acts := ActsOf(order, t, [Section(pieces)]);
      !HasFlush(acts) && (GoesOn(acts) <==> GoesOn(PiecesActs(pieces)))
    ensures var acts := ActsOf(order, t, Flushed(pen));
      (HasFlush(acts) <==> pen.deferred != []) && !GoesOn(acts)
  {
    hide PiecesActs, ActsOf, Image;
    FlushedActs(order, t, pen, pieces);
    PiecesFlushNothing(pieces);
    ImageBytes(order, t, pen.deferred);
    ActsConcat([Acquire], PiecesActs(pieces));
    ActsConcat([Acquire] + PiecesActs(pieces), [Release]);
    ActsConcat(FlushActs(order, t, pen), SectionActs(pieces));
  }

  lemma ImageBytes(order: Order, t: byte, ps: seq<Packet>)
    ensures Image(order, t, ps) == [] <==> ps == []
  {
    if ps != [] {
      EncodeTaggedFirst(order, Tag(t, ps));
    }
  }

  lemma EventGoesOn(order: Order, t: byte, p: Packet, rest: seq<Piece>)
    requires !p.Chunk?
    ensures var acts := PiecesActs(Pieces(order, t, [p]) + rest);
      && (Body(order, p) != [] ==> GoesOn(acts))
      && (rest == [] && Body(order, p) == [] ==> !GoesOn(acts))
  {
    hide Body, BodyWrites, Enc;
    var first := Piece(p, PacketWrites(order, t, p));
    assert Pieces(order, t, [p]) == [first];
    BodyJoined(order, p);
    assert first.writes[1..] == BodyWrites(order, p);
    FirstGoesOn(first, rest);
  }

  /** The chunks behind the header of data: the first one has its length at least. */
  lemma DataGoesOn(order: Order, t: byte, p: Packet, data: seq<byte>)
    requires p.Data?
    ensures GoesOn(PiecesActs(Pieces(order, t, [p]) + DataPieces(order, t, data)))
  {
    hide Enc, Writes;
    var n := if |data| > CBA_MAXBUFF then CBA_MAXBUFF else |data|;
    var first := Piece(p, PacketWrites(order, t, p));
    var len := Enc(order, 4, n)[..2];
    var chunk := Piece(Chunk(data[..n]), ChunkWrites(t, len, data[..n]));
    var pieces := DataPieces(order, t, data);
    assert data == [] ==> data[..n] == [];
    assert pieces[0] == chunk;
    assert chunk.writes[1..] == [len] + if data[..n] == [] then [] else [data[..n]];
    assert Joined(chunk.writes[1..]) != [];
    FirstGoesOn(chunk, pieces[1..]);
    assert [chunk] + pieces[1..] == pieces;
    assert Pieces(order, t, [p]) == [first];
    assert ([first] + pieces)[1..] == pieces;
    ActsConcat(Writes(first.writes, true), PiecesActs(pieces));
  }

  lemma PiecesSplit(order: Order, t: byte, p: Packet, qs: seq<Packet>)
    ensures Pieces(order, t, [p] + qs) == Pieces(order, t, [p]) + Pieces(order, t, qs)
  {
  }

  lemma BodyBytes(order: Order, p: Packet)
    requires !p.Chunk?
    ensures Body(order, p) == [] <==> p.Data? || p.Bit?
  {
    hide Enc, Pow256;
  }

  /** One event packet in a section of its own. */
  lemma EventHas(order: Order, t: byte, pen: Pen, p: Packet)
    requires !p.Chunk? && !p.Data?
    ensures var acts := ActsOf(order, t, Flushed(pen) + InSection(order, t, [p]));
      (HasFlush(acts) <==> pen.deferred != []) && (GoesOn(acts) <==> !p.Bit?)
    ensures var acts := ActsOf(order, t, InSection(order, t, [p]));
      !HasFlush(acts) && (GoesOn(acts) <==> !p.Bit?)
  {
    hide Body, ActsOf, PiecesActs, Pieces, Flushed;
    BodyBytes(order, p);
    EventGoesOn(order, t, p, []);
    var pieces := Pieces(order, t, [p]);
    assert pieces + [] == pieces;
    SectionHas(order, t, pen, pieces);
  }

  lemma CallHas(order: Order, t: byte, pen: Pen, call: Call)
    ensures var acts := CallActs(order, t, pen, call);
      (HasFlush(acts) <==> FlushesHead(pen, call)) && (GoesOn(acts) <==> SendsValue(pen, call))
  {
    hide Flushed, InSection, ActsOf, Pieces, DataPieces, PiecesActs, Chunks, FileChunks, Formatted, Body, HasFlush,
      GoesOn;
    NoActs(order, t);
    match call
    case CallHead(_) =>
    case CallCode(_) =>
    case CallDeferStr(text) => EventHas(order, t, pen, Str(pen.code, Formatted(text)));
    case CallFlush => SectionHas(order, t, pen, []);
    case CallBit(c) => EventHas(order, t, pen, Bit(CodeOf(c)));
    case CallStr(text) => EventHas(order, t, pen, Str(pen.code, Formatted(text)));
    case CallData(data) =>
      DataGoesOn(order, t, Data(pen.code), data);
      SectionHas(order, t, pen, Pieces(order, t, [Data(pen.code)]) + DataPieces(order, t, data));
    case CallFile(path, parts) => FileHas(order, t, pen, path, parts);
    case CallInt32(num) => EventHas(order, t, pen, Int32(pen.code, num));
    case CallInt64(wide) => EventHas(order, t, pen, Int64(pen.code, wide));
  }

  lemma FileHas(order: Order, t: byte, pen: Pen, path: seq<byte>, parts: seq<seq<byte>>)
    ensures var acts := CallActs(order, t, pen, CallFile(path, parts));
      (HasFlush(acts) <==> pen.deferred != []) && GoesOn(acts)
  {
    hide ActsOf, Pieces, PiecesActs, FileChunks, Body, HasFlush, GoesOn, Flushed;
    var p := File(pen.code, FilePath(path));
    BodyBytes(order, p);
    PiecesSplit(order, t, p, FileChunks(parts));
    EventGoesOn(order, t, p, Pieces(order, t, FileChunks(parts)));
    SectionHas(order, t, pen, Pieces(order, t, [p] + FileChunks(parts)));
  }

  lemma NoActs(order: Order, t: byte)
    ensures ActsOf(order, t, []) == [] && !HasFlush([]) && !GoesOn([])
  {
  }

  lemma {:induction false} ThreadHas(order: Order, t: byte, pen: Pen, calls: seq<Call>)
    ensures var acts := ThreadActs(order, t, pen, calls);
      && (HasFlush(acts) <==> EverFlushesHead(pen, calls))
      && (GoesOn(acts) <==> EverSendsValue(pen, calls))
    decreases |calls|
  {
    hide CallActs, FlushesHead, SendsValue, Step;
    if calls != [] {
      var pen' := Step(pen, calls[0]).0;
      CallHas(order, t, pen, calls[0]);
      ThreadHas(order, t, pen', calls[1..]);
      ActsConcat(CallActs(order, t, pen, calls[0]), ThreadActs(order, t, pen', calls[1..]));
    }
  }

  // ----- no such calls, no tear

  /** One thread flushes and another goes on with a packet. */
  ghost predicate Meet(run: Run) {
    exists t: byte, u: byte :: t != u && HasFlush(Project(run, t)) && GoesOn(Project(run, u))
  }

  lemma MeetLater(run: Run)
    requires run != [] && Meet(run[1..])
    ensures Meet(run)
  {
    var t: byte, u: byte :| t != u && HasFlush(Project(run[1..], t)) && GoesOn(Project(run[1..], u));
    var (v, a) := run[0];
    forall w: byte
      ensures Project(run, w) == if w == v then [a] + Project(run[1..], w) else Project(run[1..], w)
    {
    }
    ActsConcat([a], Project(run[1..], t));
    ActsConcat([a], Project(run[1..], u));
    assert HasFlush(Project(run, t)) && GoesOn(Project(run, u));
  }

  lemma FlushMeetsNone(run: Run, u: byte)
    requires run != [] && !Meet(run) && run[0].0 != u && run[0].1.Flush? && run[0].1.data != []
    ensures !GoesOn(Project(run[1..], u))
  {
    var (t, a) := run[0];
    assert Project(run, t) == [a] + Project(run[1..], t);
    ActsConcat([a], Project(run[1..], t));
    assert Project(run, u) == Project(run[1..], u);
    assert HasFlush(Project(run, t));
  }

  lemma {:induction false} NeverTorn(holder: Holder, dirty: bool, cut: bool, run: Run)
    requires Flows(holder, dirty, run) && !Meet(run)
    requires dirty ==> holder.Held?
    requires cut ==> holder.Held? && !GoesOn(Project(run, holder.t))
    ensures NoTear(dirty, cut, run)
    decreases |run|
  {
    hide Meet, Flows;
    if run != [] {
      var (t, a) := run[0];
      FlowsStep(holder, dirty, run);
      if Meet(run[1..]) {
        MeetLater(run);
      }
      assert Project(run, t) == [a] + Project(run[1..], t);
      ActsConcat([a], Project(run[1..], t));
      if holder.Held? && t != holder.t {
        assert Project(run, holder.t) == Project(run[1..], holder.t);
        if a.Flush? && a.data != [] {
          FlushMeetsNone(run, holder.t);
        }
      }
      NeverTorn(After(holder, t, a), DirtyAfter(dirty, a), CutAfter(dirty, cut, a), run[1..]);
    }
  }

  // ----- such calls, and a run that tears

  function HolderAfter(holder: Holder, run: Run): Holder
    decreases |run|
  {
    if run == [] then holder else HolderAfter(After(holder, run[0].0, run[0].1), run[1..])
  }

  lemma {:induction false} LockedConcat(holder: Holder, xs: Run, ys: Run)
    ensures Locked(holder, xs + ys) <==> Locked(holder, xs) && Locked(HolderAfter(holder, xs), ys)
    ensures HolderAfter(holder, xs + ys) == HolderAfter(HolderAfter(holder, xs), ys)
    decreases |xs|
  {
    if xs == [] {
      assert xs + ys == ys;
    } else {
      FirstOfConcat(xs, ys);
      LockedConcat(After(holder, xs[0].0, xs[0].1), xs[1..], ys);
    }
  }

  /** Who holds the lock when a thread alone is in this mode. */
  function HolderIn(m: Mode, t: byte): Holder { if m.Outside? then Free else Held(t) }

  lemma {:induction false} AloneLocked(m: Mode, t: byte, acts: seq<Act>)
    requires Fluent(m, acts)
    ensures Locked(HolderIn(m, t), Tag(t, acts))
    ensures HolderAfter(HolderIn(m, t), Tag(t, acts)) == HolderIn(ModeAfterAll(m, acts), t)
    decreases |acts|
  {
    if acts != [] {
      assert Tag(t, acts)[1..] == Tag(t, acts[1..]);
      AloneLocked(ModeAfter(m, acts[0]), t, acts[1..]);
    }
  }

  /** The acts of the threads from `n` on but two, thread after thread. */
  ghost function OtherThreads(order: Order, threads: map<byte, seq<Call>>, t: byte, u: byte, n: nat): Run
    requires n <= 256
    decreases 256 - n
  {
    if n == 256 then []
    else
      (if n == t || n == u then [] else Tag(n, ThreadActs(order, n, NEWPEN, CallsOf(threads, n))))
      + OtherThreads(order, threads, t, u, n + 1)
  }

  lemma OneMoreProjects(n: byte, acts: seq<Act>, rest: Run, v: byte)
    ensures Project(Tag(n, acts) + rest, v) == (if v == n then acts else []) + Project(rest, v)
  {
    hide Project, Tag;
    ProjectConcat(Tag(n, acts), rest, v);
    ProjectTag(acts, n, v);
  }

  lemma {:induction false} OtherThreadsRun(order: Order, threads: map<byte, seq<Call>>, t: byte, u: byte, n: nat,
                                           v: byte)
    requires n <= 256 && AllThreadsSound(order, threads)
    ensures var run := OtherThreads(order, threads, t, u, n);
      && Locked(Free, run)
      && Project(run, v)
         == if n <= v && v != t && v != u then ThreadActs(order, v, NEWPEN, CallsOf(threads, v)) else []
    decreases 256 - n
  {
    hide ThreadActs, AllSound, Fluent, Locked, Project, Tag, HolderAfter, ModeAfterAll;
    if n == 256 {
      NoRun(v);
    } else {
      var rest := OtherThreads(order, threads, t, u, n + 1);
      OtherThreadsRun(order, threads, t, u, n + 1, v);
      if n == t || n == u {
        assert [] + rest == rest;
      } else {
        var acts := ThreadActs(order, n, NEWPEN, CallsOf(threads, n));
        ThreadFluent(order, n, CallsOf(threads, n));
        AloneLocked(Outside, n, acts);
        LockedConcat(Free, Tag(n, acts), rest);
        OneMoreProjects(n, acts, rest, v);
      }
    }
  }

  lemma NoRun(v: byte)
    ensures Locked(Free, []) && Project<Act>([], v) == []
  {
  }

  lemma {:induction false} SplitAtFlush(acts: seq<Act>) returns (before: seq<Act>, a: Act, after: seq<Act>)
    requires HasFlush(acts)
    ensures acts == before + ([a] + after) && a.Flush? && a.data != []
  {
    if acts[0].Flush? && acts[0].data != [] {
      before, a, after := [], acts[0], acts[1..];
    } else {
      before, a, after := SplitAtFlush(acts[1..]);
      assert acts == [acts[0]] + acts[1..];
      before := [acts[0]] + before;
    }
  }

  lemma {:induction false} SplitAtWrite(acts: seq<Act>) returns (before: seq<Act>, a: Act, after: seq<Act>)
    requires GoesOn(acts)
    ensures acts == before + ([a] + after) && a.Write? && !a.starts && a.data != []
  {
    if acts[0].Write? && !acts[0].starts && acts[0].data != [] {
      before, a, after := [], acts[0], acts[1..];
    } else {
      before, a, after := SplitAtWrite(acts[1..]);
      assert acts == [acts[0]] + acts[1..];
      before := [acts[0]] + before;
    }
  }

  /** A tear anywhere in a run tears it. */
  lemma {:induction false} TearLater(dirty: bool, cut: bool, xs: Run, ys: Run)
    requires NoTear(dirty, cut, xs + ys)
    ensures NoTear(DirtyAll(dirty, xs), CutAll(dirty, cut, xs), ys)
    decreases |xs|
  {
    if xs == [] {
      assert xs + ys == ys;
    } else {
      FirstOfConcat(xs, ys);
      TearLater(DirtyAfter(dirty, xs[0].1), CutAfter(dirty, cut, xs[0].1), xs[1..], ys);
    }
  }

  function DirtyAll(dirty: bool, run: Run): bool
    decreases |run|
  {
    if run == [] then dirty else DirtyAll(DirtyAfter(dirty, run[0].1), run[1..])
  }

  function CutAll(dirty: bool, cut: bool, run: Run): bool
    decreases |run|
  {
    if run == [] then cut else CutAll(DirtyAfter(dirty, run[0].1), CutAfter(dirty, cut, run[0].1), run[1..])
  }

  lemma {:induction false} DirtyConcat(dirty: bool, xs: Run, ys: Run)
    ensures DirtyAll(dirty, xs + ys) == DirtyAll(DirtyAll(dirty, xs), ys)
    decreases |xs|
  {
    if xs == [] {
      assert xs + ys == ys;
    } else {
      FirstOfConcat(xs, ys);
      DirtyConcat(DirtyAfter(dirty, xs[0].1), xs[1..], ys);
    }
  }

  /** In the middle of a packet there are bytes of it in the file. */
  lemma {:induction false} MidwayDirty(m: Mode, dirty: bool, u: byte, acts: seq<Act>)
    requires Fluent(m, acts) && (m.Midway? ==> dirty) && ModeAfterAll(m, acts).Midway?
    ensures DirtyAll(dirty, Tag(u, acts))
    decreases |acts|
  {
    if acts != [] {
      assert Tag(u, acts)[1..] == Tag(u, acts[1..]);
      MidwayDirty(ModeAfter(m, acts[0]), DirtyAfter(dirty, acts[0]), u, acts[1..]);
    }
  }

  /** One thread up to its flush `f`, another into the middle of a packet, the flush, and then the rest. */
  function TornRun(t: byte, a1: seq<Act>, f: Act, a2: seq<Act>, u: byte, b1: seq<Act>, b2: seq<Act>, others: Run): Run {
    Tag(t, a1) + Tag(u, b1) + ([(t, f)] + (Tag(u, b2) + (Tag(t, a2) + others)))
  }

  lemma TornRunLocked(t: byte, a1: seq<Act>, f: Act, a2: seq<Act>, u: byte, b1: seq<Act>, b2: seq<Act>, others: Run)
    requires Fluent(Outside, a1 + ([f] + a2)) && ModeAfterAll(Outside, a1 + ([f] + a2)) == Outside && f.Flush?
    requires Fluent(Outside, b1 + b2) && ModeAfterAll(Outside, b1 + b2) == Outside
    requires Locked(Free, others)
    ensures Locked(Free, TornRun(t, a1, f, a2, u, b1, b2, others))
  {
    hide Locked, Fluent, HolderAfter, ModeAfterAll, Tag;
    var m := ModeAfterAll(Outside, b1);
    FluentConcat(Outside, a1, [f] + a2);
    var before := ModeAfterAll(Outside, a1);
    FluentConcat(before, [f], a2);
    OneAct(before, f);
    FluentConcat(Outside, b1, b2);
    AloneLocked(Outside, t, a1);
    AloneLocked(Outside, u, b1);
    AloneLocked(m, u, b2);
    AloneLocked(Outside, t, a2);
    var last := Tag(t, a2) + others;
    LockedConcat(Free, Tag(t, a2), others);
    LockedConcat(HolderIn(m, u), Tag(u, b2), last);
    OneFlush(HolderIn(m, u), t, f);
    LockedConcat(HolderIn(m, u), [(t, f)], Tag(u, b2) + last);
    LockedConcat(Free, Tag(t, a1), Tag(u, b1));
    LockedConcat(Free, Tag(t, a1) + Tag(u, b1), [(t, f)] + (Tag(u, b2) + last));
  }

  /** A flush is outside, and leaves the thread there. */
  lemma OneAct(m: Mode, f: Act)
    requires f.Flush?
    ensures Fluent(m, [f]) <==> m == Outside
    ensures ModeAfterAll(m, [f]) == m
  {
    assert [f][1..] == [];
  }

  lemma OneFlush(holder: Holder, t: byte, f: Act)
    requires f.Flush?
    ensures Locked(holder, [(t, f)]) && HolderAfter(holder, [(t, f)]) == holder
  {
    assert [(t, f)][1..] == [];
  }

  lemma TornRunProjects(t: byte, a1: seq<Act>, f: Act, a2: seq<Act>, u: byte, b1: seq<Act>, b2: seq<Act>, others: Run,
                        v: byte)
    requires t != u && Project(others, t) == [] && Project(others, u) == []
    ensures Project(TornRun(t, a1, f, a2, u, b1, b2, others), v)
      == if v == t then a1 + ([f] + a2) else if v == u then b1 + b2 else Project(others, v)
  {
    hide Project, Tag;
    var last := Tag(t, a2) + others;
    ProjectTag(a1, t, v);
    ProjectTag(b1, u, v);
    ProjectTag(b2, u, v);
    ProjectTag(a2, t, v);
    ProjectTag([f], t, v);
    assert Tag(t, [f]) == [(t, f)];
    ProjectConcat(Tag(t, a2), others, v);
    ProjectConcat(Tag(u, b2), last, v);
    ProjectConcat([(t, f)], Tag(u, b2) + last, v);
    ProjectConcat(Tag(t, a1), Tag(u, b1), v);
    ProjectConcat(Tag(t, a1) + Tag(u, b1), [(t, f)] + (Tag(u, b2) + last), v);
    hide TornRun;
    ThreePieces(a1, f, a2, b1, b2, Project(others, v));
  }

  lemma ThreePieces(a1: seq<Act>, f: Act, a2: seq<Act>, b1: seq<Act>, b2: seq<Act>, rest: seq<Act>)
    ensures a1 + [] + ([f] + ([] + (a2 + []))) == a1 + ([f] + a2)
    ensures [] + b1 + ([] + (b2 + ([] + []))) == b1 + b2
    ensures [] + [] + ([] + ([] + ([] + rest))) == rest
  {
  }

  lemma TornRunTears(t: byte, a1: seq<Act>, f: Act, a2: seq<Act>, u: byte, b1: seq<Act>, b2: seq<Act>, others: Run)
    requires Fluent(Outside, b1 + b2) && f.Flush? && f.data != []
    requires b2 != [] && b2[0].Write? && !b2[0].starts && b2[0].data != []
    ensures !NoTear(false, false, TornRun(t, a1, f, a2, u, b1, b2, others))
  {
    hide TornRun, Fluent, NoTear, ModeAfterAll, DirtyAll, CutAll;
    var xs, ys := Tag(t, a1) + Tag(u, b1), Tag(u, b2) + (Tag(t, a2) + others);
    FluentConcat(Outside, b1, b2);
    FirstOrderly(ModeAfterAll(Outside, b1), b2);
    MidwayDirty(Outside, DirtyAll(false, Tag(t, a1)), u, b1);
    DirtyConcat(false, Tag(t, a1), Tag(u, b1));
    CutTears(CutAll(false, false, xs), t, f, u, b2[0], ys);
    if NoTear(false, false, xs + ([(t, f)] + ys)) {
      TearLater(false, false, xs, [(t, f)] + ys);
    }
    TornRunIs(t, a1, f, a2, u, b1, b2, others);
  }

  lemma TornRunIs(t: byte, a1: seq<Act>, f: Act, a2: seq<Act>, u: byte, b1: seq<Act>, b2: seq<Act>, others: Run)
    ensures TornRun(t, a1, f, a2, u, b1, b2, others)
      == Tag(t, a1) + Tag(u, b1) + ([(t, f)] + (Tag(u, b2) + (Tag(t, a2) + others)))
  {
  }

  lemma FirstOrderly(m: Mode, acts: seq<Act>)
    requires acts != [] && Fluent(m, acts)
    ensures Orderly(m, acts[0])
  {
  }

  lemma CutTears(cut: bool, t: byte, f: Act, u: byte, w: Act, ys: Run)
    requires f.Flush? && f.data != [] && w.Write? && !w.starts && w.data != []
    requires ys != [] && ys[0] == (u, w)
    ensures !NoTear(true, cut, [(t, f)] + ys)
  {
    assert ([(t, f)] + ys)[1..] == ys;
    assert !NoTear(true, true, ys);
  }

  /** Some thread flushes a head that waits while another has more to write under the lock than a header. */
  ghost predicate MayTear(threads: map<byte, seq<Call>>) {
    exists t: byte, u: byte :: t != u && Flusher(threads, t) && Sender(threads, u)
  }

  ghost predicate Flusher(threads: map<byte, seq<Call>>, t: byte) { EverFlushesHead(NEWPEN, CallsOf(threads, t)) }

  ghost predicate Sender(threads: map<byte, seq<Call>>, u: byte) { EverSendsValue(NEWPEN, CallsOf(threads, u)) }

  lemma SomeRunTears(order: Order, threads: map<byte, seq<Call>>, t: byte, u: byte) returns (run: Run)
    requires AllThreadsSound(order, threads) && t != u && Flusher(threads, t) && Sender(threads, u)
    ensures RunOf(order, threads, run) && !NoTear(false, false, run)
  {
    hide ThreadActs, AllSound, Fluent, ModeAfterAll, HasFlush, GoesOn, NoTear, Locked, TornRun, OtherThreads, Project;
    var a, b := ThreadActs(order, t, NEWPEN, CallsOf(threads, t)), ThreadActs(order, u, NEWPEN, CallsOf(threads, u));
    ThreadHas(order, t, NEWPEN, CallsOf(threads, t));
    ThreadHas(order, u, NEWPEN, CallsOf(threads, u));
    ThreadFluent(order, t, CallsOf(threads, t));
    ThreadFluent(order, u, CallsOf(threads, u));
    var a1, f, a2 := SplitAtFlush(a);
    var b1, w, b2 := SplitAtWrite(b);
    var others := OtherThreads(order, threads, t, u, 0);
    OtherThreadsRun(order, threads, t, u, 0, t);
    OtherThreadsRun(order, threads, t, u, 0, u);
    run := TornRun(t, a1, f, a2, u, b1, [w] + b2, others);
    TornRunLocked(t, a1, f, a2, u, b1, [w] + b2, others);
    TornRunTears(t, a1, f, a2, u, b1, [w] + b2, others);
    forall v: byte ensures Project(run, v) == ThreadActs(order, v, NEWPEN, CallsOf(threads, v)) {
      OtherThreadsRun(order, threads, t, u, 0, v);
      TornRunProjects(t, a1, f, a2, u, b1, [w] + b2, others, v);
    }
  }

  lemma CalmRunsWhole(order: Order, threads: map<byte, seq<Call>>, run: Run)
    requires AllThreadsSound(order, threads) && !MayTear(threads) && RunOf(order, threads, run)
    ensures NoTear(false, false, run)
  {
    hide ThreadActs, AllSound, HasFlush, GoesOn, NoTear, Locked, Project, EverFlushesHead, EverSendsValue;
    RunFlows(order, threads, run);
    forall t: byte
      ensures HasFlush(Project(run, t)) <==> Flusher(threads, t)
      ensures GoesOn(Project(run, t)) <==> Sender(threads, t)
    {
      ThreadHas(order, t, NEWPEN, CallsOf(threads, t));
    }
    NeverTorn(Free, false, false, run);
  }

  /** Whatever the order in which the threads do what their calls do, every packet and every flush stands in the file
      in one piece, if and only if there are no two threads of which one flushes a head that waits and the other sends
      anything but flags. */
  lemma AlwaysWholeExactly(order: Order, threads: map<byte, seq<Call>>)
    requires AllThreadsSound(order, threads)
    ensures (forall run :: RunOf(order, threads, run) ==> Contiguous(Labels(NONE_BEGUN, run))) <==> !MayTear(threads)
  {
    hide RunOf, Contiguous, Labels, NoTear, AllThreadsSound, EverFlushesHead, EverSendsValue;
    forall run | RunOf(order, threads, run) ensures Contiguous(Labels(NONE_BEGUN, run)) <==> NoTear(false, false, run) {
      RunFlows(order, threads, run);
      WholeExactly(run);
    }
    if MayTear(threads) {
      var t: byte, u: byte :| t != u && Flusher(threads, t) && Sender(threads, u);
      var run := SomeRunTears(order, threads, t, u);
      assert !Contiguous(Labels(NONE_BEGUN, run));
    } else {
      forall run | RunOf(order, threads, run) ensures Contiguous(Labels(NONE_BEGUN, run)) {
        CalmRunsWhole(order, threads, run);
      }
    }
  }
}
