/** What the log file holds after a run of the threads' acts in which nothing was torn, and how it reads. */
module LogRuns {
  import opened Sequences
  import opened Bytes
  import opened CbaFormat
  import opened CbaDecode
  import opened CbaFiles
  import opened CbaInterleave
  import opened CbaDisk
  import opened CbaCalls
  import opened CbaMeaning
  import opened CbaActs
  import opened LogLock

  // ----- what the file then holds

  /** Where a run stands: who holds the lock, what of the packet under way and what further packets its section has
      still to write, and the units each thread has still to begin. */
  datatype Stand = Stand(holder: Holder, writes: seq<seq<byte>>, pieces: seq<Piece>, left: map<byte, seq<Unit>>)

  function LeftOf(left: map<byte, seq<Unit>>, t: byte): seq<Unit> { if t in left then left[t] else [] }

  /** The rest of a section. */
  function Rest(writes: seq<seq<byte>>, pieces: seq<Piece>): seq<Act> {
    Writes(writes, false) + (PiecesActs(pieces) + [Release])
  }

  /** What a thread still has to do: the rest of the section it is in, and its further units. */
  function Todo(order: Order, st: Stand, t: byte): seq<Act> {
    (if st.holder == Held(t) then Rest(st.writes, st.pieces) else []) + ActsOf(order, t, LeftOf(st.left, t))
  }

  /** The run does, thread by thread, what is left to do. */
  ghost predicate Follows(order: Order, st: Stand, run: Run) {
    Locked(st.holder, run) && forall t: byte :: Project(run, t) == Todo(order, st, t)
  }

  /** Every packet still to be written has writes that are its bytes. */
  ghost predicate Prepared(order: Order, st: Stand) {
    && (forall t: byte :: AllProper(order, t, LeftOf(st.left, t)))
    && (st.holder.Held? ==> PiecesProper(order, st.holder.t, st.pieces))
    && (st.holder == Free ==> st.writes == [] && st.pieces == [])
  }

  /** Where the run stands after an act. */
  function Move(st: Stand, t: byte, a: Act): Stand {
    var mine := LeftOf(st.left, t);
    match a
    case Acquire =>
      if mine != [] && mine[0].Section? then Stand(Held(t), [], mine[0].pieces, st.left[t := mine[1..]])
      else st.(holder := Held(t))
    case Release => Stand(Free, [], [], st.left)
    case Write(_, starts) =>
      if !starts then st.(writes := if st.writes == [] then [] else st.writes[1..])
      else if st.pieces != [] && st.pieces[0].writes != []
      then st.(writes := st.pieces[0].writes[1..], pieces := st.pieces[1..])
      else st
    case Flush(_) => if mine == [] then st else st.(left := st.left[t := mine[1..]])
  }

  /** The packets an act puts in the file: a packet takes its place with its first write. */
  function Placed(st: Stand, t: byte, a: Act): seq<Packet> {
    match a
    case Acquire => []
    case Release => []
    case Write(_, starts) => if starts && st.pieces != [] then [st.pieces[0].p] else []
    case Flush(_) => if LeftOf(st.left, t) == [] then [] else SendsOf(LeftOf(st.left, t)[0])
  }

  /** The packets in the order in which they begin in the file. */
  function Arrange(st: Stand, run: Run): seq<Tagged>
    decreases |run|
  {
    if run == [] then []
    else
      var (t, a) := run[0];
      Tag(t, Placed(st, t, a)) + Arrange(Move(st, t, a), run[1..])
  }

  /** The next act of the run is the next act of its thread. */
  ghost predicate Expected(order: Order, st: Stand, t: byte, a: Act) {
    var mine := LeftOf(st.left, t);
    match a
    case Acquire => st.holder == Free && mine != [] && mine[0].Section?
    case Write(data, starts) =>
      && st.holder == Held(t)
      && if starts
         then st.writes == [] && st.pieces != [] && st.pieces[0].writes != [] && data == st.pieces[0].writes[0]
         else st.writes != [] && data == st.writes[0]
    case Release => st.holder == Held(t) && st.writes == [] && st.pieces == []
    case Flush(data) => st.holder != Held(t) && mine != [] && mine[0].Loose? && data == Image(order, t, mine[0].held)
  }

  lemma RestFirst(writes: seq<seq<byte>>, pieces: seq<Piece>)
    requires writes != []
    ensures Rest(writes, pieces) == [Write(writes[0], false)] + Rest(writes[1..], pieces)
  {
    hide PiecesActs;
    Assoc([Write(writes[0], false)], Writes(writes[1..], false), PiecesActs(pieces) + [Release]);
  }

  lemma RestNextPiece(pieces: seq<Piece>)
    requires pieces != [] && pieces[0].writes != []
    ensures Rest([], pieces) == [Write(pieces[0].writes[0], true)] + Rest(pieces[0].writes[1..], pieces[1..])
  {
    var first := [Write(pieces[0].writes[0], true)];
    var more, rest := Writes(pieces[0].writes[1..], false), PiecesActs(pieces[1..]);
    assert PiecesActs(pieces) == first + more + rest;
    hide Writes, PiecesActs;
    Assoc(first, more, rest);
    Assoc(first, more + rest, [Release]);
    Assoc(more, rest, [Release]);
    NoWrites();
    assert [] + (PiecesActs(pieces) + [Release]) == PiecesActs(pieces) + [Release];
  }

  lemma NoWrites()
    ensures Writes([], false) == []
  {
  }

  lemma RestEnds()
    ensures Rest([], []) == [Release]
  {
    assert [] + ([] + [Release]) == [Release];
  }

  /** The acts of a thread that is not in a section. */
  lemma OutsideNext(order: Order, t: byte, units: seq<Unit>)
    requires units != []
    ensures units[0].Section? ==>
      ActsOf(order, t, units) == [Acquire] + (Rest([], units[0].pieces) + ActsOf(order, t, units[1..]))
    ensures units[0].Loose? ==>
      ActsOf(order, t, units) == [Flush(Image(order, t, units[0].held))] + ActsOf(order, t, units[1..])
  {
    hide Image, PiecesActs, Writes;
    if units[0].Section? {
      var acts, later := PiecesActs(units[0].pieces), ActsOf(order, t, units[1..]);
      NoWrites();
      assert [] + (acts + [Release]) == acts + [Release];
      Assoc([Acquire], acts, [Release]);
      Assoc([Acquire], acts + [Release], later);
    }
  }

  lemma HeadTail<T>(x: T, rest: seq<T>, later: seq<T>)
    ensures ([x] + rest + later)[0] == x && ([x] + rest + later)[1..] == rest + later
  {
  }

  /** The next act of the thread in the section. */
  lemma InsideStep(order: Order, st: Stand, t: byte, a: Act, rest: seq<Act>)
    requires Prepared(order, st) && st.holder == Held(t) && Todo(order, st, t) == [a] + rest
    ensures Expected(order, st, t, a) && rest == Todo(order, Move(st, t, a), t)
  {
    var later := ActsOf(order, t, LeftOf(st.left, t));
    if st.writes != [] {
      RestFirst(st.writes, st.pieces);
      hide Rest, ActsOf, Prepared;
      HeadTail(Write(st.writes[0], false), Rest(st.writes[1..], st.pieces), later);
    } else if st.pieces != [] {
      assert Proper(order, t, st.pieces[0]);
      RestNextPiece(st.pieces);
      hide Rest, ActsOf, Prepared;
      HeadTail(Write(st.pieces[0].writes[0], true), Rest(st.pieces[0].writes[1..], st.pieces[1..]), later);
    } else {
      RestEnds();
      hide Rest, ActsOf, Prepared;
      HeadTail(Release, [], later);
      assert [Release] + [] == [Release];
    }
    assert ([a] + rest)[0] == a && ([a] + rest)[1..] == rest;
  }

  /** The next act of a thread outside its sections, when the lock lets it. */
  lemma OutsideStep(order: Order, st: Stand, t: byte, a: Act, rest: seq<Act>)
    requires st.holder != Held(t) && Allowed(st.holder, t, a) && Todo(order, st, t) == [a] + rest
    ensures Expected(order, st, t, a) && rest == Todo(order, Move(st, t, a), t)
  {
    hide Image, Rest;
    var units := LeftOf(st.left, t);
    assert [] + ActsOf(order, t, units) == ActsOf(order, t, units);
    assert units != [];
    OutsideNext(order, t, units);
    assert [] + ActsOf(order, t, units[1..]) == ActsOf(order, t, units[1..]);
    hide ActsOf;
    assert ([a] + rest)[0] == a && ([a] + rest)[1..] == rest;
  }

  lemma OthersTodo(order: Order, st: Stand, t: byte, a: Act, u: byte)
    requires Expected(order, st, t, a) && u != t
    ensures Todo(order, Move(st, t, a), u) == Todo(order, st, u)
  {
    hide Rest, ActsOf, Image;
  }

  lemma FollowsStep(order: Order, st: Stand, run: Run)
    requires Prepared(order, st) && Follows(order, st, run) && run != []
    ensures var (t, a) := run[0];
      Expected(order, st, t, a) && Follows(order, Move(st, t, a), run[1..])
  {
    hide Todo, Prepared, Expected;
    var (t, a) := run[0];
    assert Project(run, t) == [a] + Project(run[1..], t) == Todo(order, st, t);
    if st.holder == Held(t) {
      InsideStep(order, st, t, a, Project(run[1..], t));
    } else {
      OutsideStep(order, st, t, a, Project(run[1..], t));
    }
    MoveHolder(order, st, t, a);
    hide Move;
    forall u: byte ensures Project(run[1..], u) == Todo(order, Move(st, t, a), u) {
      if u != t {
        assert Project(run, u) == Project(run[1..], u);
        OthersTodo(order, st, t, a, u);
      }
    }
  }

  lemma MoveHolder(order: Order, st: Stand, t: byte, a: Act)
    requires Expected(order, st, t, a)
    ensures Move(st, t, a).holder == After(st.holder, t, a)
  {
    hide Image;
  }

  lemma PreparedStep(order: Order, st: Stand, t: byte, a: Act)
    requires Prepared(order, st) && Expected(order, st, t, a)
    ensures Prepared(order, Move(st, t, a))
  {
    hide Image, Proper;
    var st' := Move(st, t, a);
    assert AllProper(order, t, LeftOf(st.left, t));
    forall u: byte ensures AllProper(order, u, LeftOf(st'.left, u)) {
      assert AllProper(order, u, LeftOf(st.left, u));
    }
  }

  /** Nothing is left of a packet that has been flushed into. */
  lemma {:induction false} CutWritesNoMore(order: Order, st: Stand, run: Run)
    requires Prepared(order, st) && Follows(order, st, run) && NoTear(true, true, run)
    ensures Joined(st.writes) == []
    decreases |run|
  {
    hide Todo, Image, Project, Prepared;
    if run == [] {
      NothingLeft(order, st);
    } else {
      var (t, a) := run[0];
      FollowsStep(order, st, run);
      PreparedStep(order, st, t, a);
      if a.Acquire? {
        FreeWritesNothing(order, st);
      } else if a.Flush? || (a.Write? && !a.starts) {
        CutWritesNoMore(order, Move(st, t, a), run[1..]);
      }
    }
  }

  lemma FreeWritesNothing(order: Order, st: Stand)
    requires Prepared(order, st) && st.holder == Free
    ensures st.writes == [] && st.pieces == []
  {
  }

  lemma NothingLeft(order: Order, st: Stand)
    requires Prepared(order, st) && Follows(order, st, [])
    ensures st.holder == Free && st.writes == [] && st.pieces == []
    ensures forall t: byte :: LeftOf(st.left, t) == []
  {
    forall t: byte ensures st.holder != Held(t) && LeftOf(st.left, t) == [] {
      assert Project<Act>([], t) == Todo(order, st, t);
      SomethingTodo(order, st, t);
    }
  }

  lemma SomethingTodo(order: Order, st: Stand, t: byte)
    ensures st.holder == Held(t) || LeftOf(st.left, t) != [] ==> Todo(order, st, t) != []
  {
    hide Image, PiecesActs, Writes;
  }

  /** What an act writes, and what of the packet under way is then still to be written. */
  lemma ActWrites(order: Order, st: Stand, dirty: bool, cut: bool, run: Run)
    requires run != [] && Prepared(order, st) && Follows(order, st, run) && NoTear(dirty, cut, run)
    requires Joined(st.writes) != [] ==> dirty && !cut
    ensures var (t, a) := run[0];
      var st' := Move(st, t, a);
      && ActBytes(a) + Joined(st'.writes) == Joined(st.writes) + Image(order, t, Placed(st, t, a))
      && (Joined(st'.writes) != [] ==> DirtyAfter(dirty, a) && !CutAfter(dirty, cut, a))
  {
    hide Image, Todo, Project, Frame;
    var (t, a) := run[0];
    var st' := Move(st, t, a);
    FollowsStep(order, st, run);
    PreparedStep(order, st, t, a);
    ImageNone(order, t);
    match a
    case Acquire => FreeWritesNothing(order, st);
    case Release =>
    case Write(data, starts) =>
      if starts {
        var piece := st.pieces[0];
        assert Proper(order, t, piece);
        ImageOne(order, t, piece.p);
        assert [] + Joined(piece.writes) == Joined(piece.writes) == data + Joined(st'.writes);
      } else {
        assert Joined(st.writes) == data + Joined(st'.writes);
        assert Joined(st.writes) + [] == Joined(st.writes);
      }
    case Flush(data) =>
      if dirty && data != [] {
        hide NoTear;
        FlushedInto(order, st, dirty, cut, run);
      }
      assert data + [] == [] + data;
      assert data == [] ==> [] + Joined(st.writes) == Joined(st.writes) + [];
  }

  lemma FlushedInto(order: Order, st: Stand, dirty: bool, cut: bool, run: Run)
    requires run != [] && Prepared(order, st) && Follows(order, st, run) && NoTear(dirty, cut, run)
    requires run[0].1.Flush? && run[0].1.data != [] && dirty
    ensures Joined(st.writes) == []
  {
    hide Image, Todo, Project;
    var (t, a) := run[0];
    FollowsStep(order, st, run);
    PreparedStep(order, st, t, a);
    CutWritesNoMore(order, Move(st, t, a), run[1..]);
  }

  /** The file holds the rest of the packet under way and then packet after packet. */
  lemma {:induction false} FileHolds(order: Order, st: Stand, dirty: bool, cut: bool, run: Run)
    requires Prepared(order, st) && Follows(order, st, run) && NoTear(dirty, cut, run)
    requires Joined(st.writes) != [] ==> dirty && !cut
    ensures FileBytes(run) == Joined(st.writes) + EncodeTagged(order, Arrange(st, run))
    decreases |run|
  {
    hide Follows, Prepared, Image, EncodeTagged, Move, Placed, Joined;
    if run == [] {
      NothingLeft(order, st);
      NothingHeld(order);
    } else {
      var (t, a) := run[0];
      var st' := Move(st, t, a);
      FollowsStep(order, st, run);
      PreparedStep(order, st, t, a);
      ActWrites(order, st, dirty, cut, run);
      FileHolds(order, st', DirtyAfter(dirty, a), CutAfter(dirty, cut, a), run[1..]);
      var here, later := Tag(t, Placed(st, t, a)), Arrange(st', run[1..]);
      EncodeTaggedConcat(order, here, later);
      ImageIs(order, t, Placed(st, t, a));
      Assoc(ActBytes(a), Joined(st'.writes), EncodeTagged(order, later));
      Assoc(Joined(st.writes), EncodeTagged(order, here), EncodeTagged(order, later));
    }
  }

  lemma ImageIs(order: Order, t: byte, ps: seq<Packet>)
    ensures Image(order, t, ps) == EncodeTagged(order, Tag(t, ps))
  {
  }

  lemma NothingHeld(order: Order)
    ensures EncodeTagged(order, []) == [] && Joined([]) == []
  {
  }

  /** The packets of a thread that have no place in the file yet. */
  function Unplaced(st: Stand, t: byte): seq<Packet> {
    (if st.holder == Held(t) then PacketsIn(st.pieces) else []) + Sends(LeftOf(st.left, t))
  }

  /** Every packet has its place, in the order of its thread. */
  lemma {:induction false} ArrangedByThread(order: Order, st: Stand, run: Run, t: byte)
    requires Prepared(order, st) && Follows(order, st, run)
    ensures Project(Arrange(st, run), t) == Unplaced(st, t)
    decreases |run|
  {
    hide Follows, Prepared, Move, Placed, Image, Project, Unplaced;
    if run == [] {
      NothingUnplaced(order, st, t);
    } else {
      var (u, a) := run[0];
      var st' := Move(st, u, a);
      FollowsStep(order, st, run);
      PreparedStep(order, st, u, a);
      PlacedStep(order, st, u, a, t);
      ArrangedByThread(order, st', run[1..], t);
      ProjectConcat(Tag(u, Placed(st, u, a)), Arrange(st', run[1..]), t);
      ProjectTag(Placed(st, u, a), u, t);
    }
  }

  lemma NothingUnplaced(order: Order, st: Stand, t: byte)
    requires Prepared(order, st) && Follows(order, st, [])
    ensures Project<Packet>([], t) == Unplaced(st, t) == []
  {
    NothingLeft(order, st);
  }

  lemma PlacedStep(order: Order, st: Stand, u: byte, a: Act, t: byte)
    requires Expected(order, st, u, a)
    ensures (if t == u then Placed(st, u, a) else []) + Unplaced(Move(st, u, a), t) == Unplaced(st, t)
  {
    hide Image, Sends, Move, Placed;
    if t != u {
      OthersStay(order, st, u, a, t);
    } else if a.Acquire? || a.Flush? {
      UnitBegins(order, st, u, a);
    } else {
      UnitGoesOn(order, st, u, a);
    }
  }

  lemma OthersStay(order: Order, st: Stand, u: byte, a: Act, t: byte)
    requires Expected(order, st, u, a) && t != u
    ensures [] + Unplaced(Move(st, u, a), t) == Unplaced(st, t)
  {
    hide Image, Sends;
    var st' := Move(st, u, a);
    assert LeftOf(st'.left, t) == LeftOf(st.left, t);
    assert [] + Unplaced(st', t) == Unplaced(st', t);
  }

  lemma UnitBegins(order: Order, st: Stand, u: byte, a: Act)
    requires Expected(order, st, u, a) && (a.Acquire? || a.Flush?)
    ensures Placed(st, u, a) + Unplaced(Move(st, u, a), u) == Unplaced(st, u)
  {
    hide Image, Sends;
    var st' := Move(st, u, a);
    var mine := LeftOf(st.left, u);
    SendsFirst(mine);
    assert LeftOf(st'.left, u) == mine[1..];
    assert [] + Sends(mine) == Sends(mine) && [] + Sends(mine[1..]) == Sends(mine[1..]);
    assert [] + Unplaced(st', u) == Unplaced(st', u);
  }

  lemma UnitGoesOn(order: Order, st: Stand, u: byte, a: Act)
    requires Expected(order, st, u, a) && (a.Write? || a.Release?)
    ensures Placed(st, u, a) + Unplaced(Move(st, u, a), u) == Unplaced(st, u)
  {
    hide Image, Sends;
    var later := Sends(LeftOf(st.left, u));
    assert [] + later == later;
    assert [] + (PacketsIn(st.pieces) + later) == PacketsIn(st.pieces) + later;
    if a.Write? && a.starts {
      assert PacketsIn(st.pieces) == [st.pieces[0].p] + PacketsIn(st.pieces[1..]);
      Assoc([st.pieces[0].p], PacketsIn(st.pieces[1..]), later);
    }
  }

  lemma SendsFirst(units: seq<Unit>)
    requires units != []
    ensures Sends(units) == SendsOf(units[0]) + Sends(units[1..])
  {
  }

  // ----- files one after the other

  /** A section holds whole files, and what is flushed holds nothing of one. */
  predicate UnitInTurn(t: byte, u: Unit) {
    match u
    case Section(pieces) => OneFileAtATime(None, Tag(t, PacketsIn(pieces)))
    case Loose(held) => NoFiles(held)
  }

  ghost predicate UnitsInTurn(t: byte, units: seq<Unit>) {
    forall i :: 0 <= i < |units| ==> UnitInTurn(t, units[i])
  }

  lemma OneSection(order: Order, t: byte, pen: Pen, ps: seq<Packet>)
    requires NoFiles(pen.deferred) && OneFileAtATime(None, Tag(t, ps))
    ensures UnitsInTurn(t, Flushed(pen) + InSection(order, t, ps)) && UnitsInTurn(t, InSection(order, t, ps))
    ensures UnitsInTurn(t, Flushed(pen))
  {
    hide OneFileAtATime, Pieces, PacketsIn, Tag;
    PiecesAreProper(order, t, ps);
  }

  lemma OneEvent(order: Order, t: byte, pen: Pen, p: Packet)
    requires NoFiles(pen.deferred) && !p.File? && !p.Chunk?
    ensures UnitsInTurn(t, Flushed(pen) + InSection(order, t, [p])) && UnitsInTurn(t, InSection(order, t, [p]))
  {
    hide OneFileAtATime, Tag;
    NoFilesTurn(t, [p]);
    OneSection(order, t, pen, [p]);
  }

  lemma CallUnitsInTurn(order: Order, t: byte, pen: Pen, call: Call)
    requires NoFiles(pen.deferred) && Sound(order, pen, call)
    ensures UnitsInTurn(t, CallUnits(order, t, pen, call)) && NoFiles(Step(pen, call).0.deferred)
  {
    hide OneFileAtATime, Pieces, PacketsIn, Tag, InSection, Flushed, DataPieces, Chunks, FileChunks, Formatted,
      DeferredText, UnitInTurn;
    match call
    case CallHead(_) =>
    case CallCode(_) =>
    case CallDeferStr(text) => OneEvent(order, t, pen, Str(pen.code, Formatted(text)));
    case CallFlush => NoFilesTurn(t, []); OneSection(order, t, pen, []);
    case CallBit(c) => OneEvent(order, t, pen, Bit(CodeOf(c)));
    case CallStr(text) => OneEvent(order, t, pen, Str(pen.code, Formatted(text)));
    case CallData(data) =>
      DataUnits(order, t, pen, data);
      ChunksTurn(t, data);
      OneFileFirst(None, t, Data(pen.code), Chunks(data));
      OneSection(order, t, pen, [Data(pen.code)] + Chunks(data));
    case CallFile(path, parts) =>
      FileChunksTurn(t, parts);
      OneFileFirst(None, t, File(pen.code, FilePath(path)), FileChunks(parts));
      OneSection(order, t, pen, [File(pen.code, FilePath(path))] + FileChunks(parts));
    case CallInt32(num) => OneEvent(order, t, pen, Int32(pen.code, num));
    case CallInt64(wide) => OneEvent(order, t, pen, Int64(pen.code, wide));
  }

  lemma {:induction false} ThreadUnitsInTurn(order: Order, t: byte, pen: Pen, calls: seq<Call>)
    requires NoFiles(pen.deferred) && AllSound(order, pen, calls)
    ensures UnitsInTurn(t, ThreadUnits(order, t, pen, calls))
    decreases |calls|
  {
    hide NoFiles, Sound, Step, CallUnits, UnitInTurn;
    if calls != [] {
      CallUnitsInTurn(order, t, pen, calls[0]);
      ThreadUnitsInTurn(order, t, Step(pen, calls[0]).0, calls[1..]);
    }
  }

  lemma {:induction false} NoFilesAside(writer: Option<byte>, t: byte, ps: seq<Packet>, rest: seq<Tagged>)
    requires NoFiles(ps) && OneFileAtATime(writer, rest)
    ensures OneFileAtATime(writer, Tag(t, ps) + rest)
    decreases |ps|
  {
    if ps == [] {
      assert Tag(t, ps) + rest == rest;
    } else {
      NoFilesAside(writer, t, ps[1..], rest);
      FirstOfConcat(Tag(t, ps), rest);
      assert Tag(t, ps)[1..] == Tag(t, ps[1..]);
    }
  }

  /** The files begun and not ended are those of the section under way, and what is left keeps to that. */
  ghost predicate StandsInTurn(st: Stand, writer: Option<byte>) {
    && (forall t: byte :: UnitsInTurn(t, LeftOf(st.left, t)))
    && (match st.holder
        case Free => writer == None
        case Held(t) => OneFileAtATime(writer, Tag(t, PacketsIn(st.pieces))))
  }

  lemma NextPlace(st: Stand, writer: Option<byte>, t: byte, rest: seq<Tagged>)
    requires st.holder == Held(t) && st.pieces != [] && StandsInTurn(st, writer)
    ensures var p := st.pieces[0].p;
      && (p.File? ==> writer == None)
      && OneFileAtATime(WriterAfter(writer, t, p), Tag(t, PacketsIn(st.pieces[1..])))
      && (OneFileAtATime(WriterAfter(writer, t, p), rest) ==> OneFileAtATime(writer, Tag(t, [p]) + rest))
  {
    var p := st.pieces[0].p;
    assert PacketsIn(st.pieces) == [p] + PacketsIn(st.pieces[1..]);
    OneFileFirst(writer, t, p, PacketsIn(st.pieces[1..]));
    FirstOfConcat(Tag(t, [p]), rest);
    assert Tag(t, [p])[1..] + rest == rest;
  }

  /** The thread whose file is under way after an act. */
  function WriterThen(st: Stand, writer: Option<byte>, t: byte, a: Act): Option<byte> {
    match a
    case Acquire => None
    case Release => None
    case Write(_, starts) => if starts && st.pieces != [] then WriterAfter(writer, t, st.pieces[0].p) else writer
    case Flush(_) => writer
  }

  lemma InTurnStep(order: Order, st: Stand, writer: Option<byte>, t: byte, a: Act)
    requires Expected(order, st, t, a) && StandsInTurn(st, writer)
    ensures StandsInTurn(Move(st, t, a), WriterThen(st, writer, t, a))
    ensures a.Release? ==> writer == None
  {
    hide OneFileAtATime, Tag, PacketsIn, NoFiles, Image;
    var st' := Move(st, t, a);
    assert UnitsInTurn(t, LeftOf(st.left, t));
    forall u: byte ensures UnitsInTurn(u, LeftOf(st'.left, u)) {
      assert UnitsInTurn(u, LeftOf(st.left, u));
    }
    match a
    case Acquire => assert UnitInTurn(t, LeftOf(st.left, t)[0]);
    case Release => SectionOver(st, writer, t);
    case Write(_, starts) =>
      if starts {
        NextPlace(st, writer, t, []);
      }
    case Flush(_) =>
  }

  lemma PlacedInTurn(order: Order, st: Stand, writer: Option<byte>, t: byte, a: Act, rest: seq<Tagged>)
    requires Expected(order, st, t, a) && StandsInTurn(st, writer)
    requires OneFileAtATime(WriterThen(st, writer, t, a), rest)
    ensures OneFileAtATime(writer, Tag(t, Placed(st, t, a)) + rest)
  {
    hide OneFileAtATime, Tag, PacketsIn, NoFiles, Image;
    NoFilesYet();
    assert Tag<Packet>(t, []) + rest == rest;
    match a
    case Acquire =>
    case Release => SectionOver(st, writer, t);
    case Write(_, starts) =>
      if starts {
        NextPlace(st, writer, t, rest);
      }
    case Flush(_) =>
      var mine := LeftOf(st.left, t);
      assert UnitsInTurn(t, mine) && UnitInTurn(t, mine[0]);
      NoFilesAside(writer, t, mine[0].held, rest);
  }

  lemma {:induction false} ArrangedInTurn(order: Order, st: Stand, writer: Option<byte>, run: Run)
    requires Prepared(order, st) && Follows(order, st, run) && StandsInTurn(st, writer)
    ensures OneFileAtATime(writer, Arrange(st, run))
    decreases |run|
  {
    hide Follows, Prepared, Expected, Move, Placed, WriterThen, OneFileAtATime, Tag;
    if run == [] {
      NothingLeft(order, st);
      NoFilesYet();
    } else {
      var (t, a) := run[0];
      FollowsStep(order, st, run);
      PreparedStep(order, st, t, a);
      InTurnStep(order, st, writer, t, a);
      ArrangedInTurn(order, Move(st, t, a), WriterThen(st, writer, t, a), run[1..]);
      PlacedInTurn(order, st, writer, t, a, Arrange(Move(st, t, a), run[1..]));
    }
  }

  lemma NoFilesYet()
    ensures OneFileAtATime(None, [])
    ensures forall t: byte :: Tag<Packet>(t, []) == []
  {
  }

  lemma SectionOver(st: Stand, writer: Option<byte>, t: byte)
    requires st.holder == Held(t) && st.pieces == [] && StandsInTurn(st, writer)
    ensures writer == None
  {
    assert Tag(t, PacketsIn(st.pieces)) == [];
  }

  // ----- runs of the writers' calls

  ghost function Start(order: Order, threads: map<byte, seq<Call>>): Stand {
    Stand(Free, [], [], map t: byte | 0 <= t < 256 :: ThreadUnits(order, t, NEWPEN, CallsOf(threads, t)))
  }

  lemma StartsProper(order: Order, threads: map<byte, seq<Call>>, run: Run)
    requires RunOf(order, threads, run) && AllThreadsSound(order, threads)
    ensures var st := Start(order, threads);
      && Follows(order, st, run) && Prepared(order, st)
      && forall t: byte :: Sends(LeftOf(st.left, t)) == Packets(NEWPEN, CallsOf(threads, t))
  {
    hide ActsOf, ThreadActs, ThreadUnits, AllSound, AllProper, Sends, Packets, Project;
    var st := Start(order, threads);
    forall t: byte
      ensures AllProper(order, t, LeftOf(st.left, t))
      ensures Project(run, t) == Todo(order, st, t)
      ensures Sends(LeftOf(st.left, t)) == Packets(NEWPEN, CallsOf(threads, t))
    {
      ThreadUnitsSend(order, t, NEWPEN, CallsOf(threads, t));
      var todo := ActsOf(order, t, LeftOf(st.left, t));
      assert [] + todo == todo;
    }
  }

  lemma StartsInTurn(order: Order, threads: map<byte, seq<Call>>)
    requires AllThreadsSound(order, threads)
    ensures StandsInTurn(Start(order, threads), None)
  {
    hide AllSound, ThreadUnits, UnitsInTurn;
    var st := Start(order, threads);
    forall t: byte ensures UnitsInTurn(t, LeftOf(st.left, t)) {
      ThreadUnitsInTurn(order, t, NEWPEN, CallsOf(threads, t));
    }
  }

  /** In any run of the threads' acts that keeps packets in one piece, the file is an interleaving of the packets the
      calls send. */
  lemma RunInterleaves(order: Order, threads: map<byte, seq<Call>>, run: Run) returns (tps: seq<Tagged>)
    requires RunOf(order, threads, run) && AllThreadsSound(order, threads) && NoTear(false, false, run)
    ensures FileBytes(run) == EncodeTagged(order, tps) && Interleaves(tps, threads) && OneFileAtATime(None, tps)
  {
    hide OneFileAtATime, StandsInTurn, Follows, Prepared, EncodeTagged, Sends, Packets, AllSound, Arrange, Project;
    var st := Start(order, threads);
    StartsProper(order, threads, run);
    FileHolds(order, st, false, false, run);
    tps := Arrange(st, run);
    StartsInTurn(order, threads);
    ArrangedInTurn(order, st, None, run);
    assert [] + EncodeTagged(order, tps) == EncodeTagged(order, tps);
    forall t: byte ensures Project(tps, t) == Packets(NEWPEN, CallsOf(threads, t)) {
      ArrangedByThread(order, st, run, t);
      assert [] + Sends(LeftOf(st.left, t)) == Sends(LeftOf(st.left, t));
    }
  }

  /** However the threads' locking, writing and flushing interleave, if every packet and every flush stands in the
      file in one piece, one pass over the file yields for each thread the entries its calls mean, and its files as
      the file system grants them: all of them if and only if they can be opened and, unless existing ones are
      overwritten, told apart. All hold their data in the end if and only if moreover those that share a place
      agree. */
  lemma WholeRunReads(cfg: Config, disk: Files, threads: map<byte, seq<Call>>, run: Run)
    requires RunOf(cfg.order, threads, run) && Contiguous(Labels(NONE_BEGUN, run))
    requires AllThreadsSound(cfg.order, threads) && AllThreadsClear(cfg, threads)
    ensures var pass := Entries(cfg, disk, EMPTY, FileBytes(run));
      var means := (t: byte) => Written(cfg, CallsOf(threads, t));
      && pass.ok
      && (forall t: byte :: YieldsOf(Project(pass.out, t)) == YieldsOf(means(t)))
      && ((forall t: byte :: Project(pass.out, t) == means(t)) <==> Keepable(cfg, disk.Keys, means))
      && (AllKept(cfg, pass, means) <==> Lasting(cfg, disk.Keys, means))
  {
    hide RunOf, Entries, EncodeTagged, Written, Understood, AllSound, YieldsOf, Keepable, Project, Survive, GrantedTo,
      Interleaves, Contiguous, NoTear, AllThreadsClear, AllThreadsSound, Flows,
      OneFileAtATime, AllKept, Lasting;
    RunFlows(cfg.order, threads, run);
    WholeExactly(run);
    ClearUnderstood(cfg, threads);
    var tps := RunInterleaves(cfg.order, threads, run);
    LogKeepsEveryThread(cfg, disk, threads, tps, 0);
    forall t: byte
      ensures YieldsOf(Project(Entries(cfg, disk, EMPTY, FileBytes(run)).out, t))
        == YieldsOf(Written(cfg, CallsOf(threads, t)))
    {
      LogKeepsEveryThread(cfg, disk, threads, tps, t);
    }
    FilesKeptExactly(cfg, disk, threads, tps);
  }

  ghost predicate AllThreadsClear(cfg: Config, threads: map<byte, seq<Call>>) {
    forall t: byte :: AllClear(cfg, NEWLOG, CallsOf(threads, t))
  }

  lemma ClearUnderstood(cfg: Config, threads: map<byte, seq<Call>>)
    requires AllThreadsSound(cfg.order, threads) && AllThreadsClear(cfg, threads)
    ensures Understood(cfg, threads)
  {
    hide AllSound, AllClear, AllFramed;
    forall u | u in threads ensures AllFramed(threads[u]) && AllClear(cfg, NEWLOG, threads[u]) {
      assert CallsOf(threads, u) == threads[u];
      SoundFramed(cfg.order, NEWPEN, threads[u]);
    }
  }

  // ----- a run that tears

  /** Thread 1 writes the number 42; thread 2, after its head without a name, a flag. */
  const TORN_CALLS: map<byte, seq<Call>> := map[1 := [CallInt32(42)], 2 := [CallHead([]), CallFlush]]

  /** The flush falls between the two writes of the number. */
  const TORN: Run :=
    [(1, Acquire), (1, Write([1, 4], true)), (2, Flush([2, 0, 0])), (1, Write([42, 0, 0, 0], false)), (1, Release)]

  lemma OneCallActs(order: Order, t: byte, pen: Pen, call: Call)
    ensures ThreadActs(order, t, pen, [call]) == CallActs(order, t, pen, call)
  {
    var pen' := Step(pen, call).0;
    assert [call][1..] == [];
    assert ThreadActs(order, t, pen', []) == [];
    assert CallActs(order, t, pen, call) + [] == CallActs(order, t, pen, call);
  }

  lemma NumberCall(p: Packet)
    requires p == Int32(0, 42)
    ensures CallActs(Little, 1, NEWPEN, CallInt32(42)) == SectionActs(Pieces(Little, 1, [p]))
  {
    hide ActsOf, PiecesActs, Pieces;
    FlushedActs(Little, 1, NEWPEN, Pieces(Little, 1, [p]));
    assert [] + SectionActs(Pieces(Little, 1, [p])) == SectionActs(Pieces(Little, 1, [p]));
  }

  lemma NumberActs()
    ensures ThreadActs(Little, 1, NEWPEN, [CallInt32(42)])
      == [Acquire, Write([1, 4], true), Write([42, 0, 0, 0], false), Release]
  {
    hide CallActs, ThreadActs, PiecesActs, Pieces;
    var p := Int32(0, 42);
    NumberPieces(p);
    NumberCall(p);
    OneCallActs(Little, 1, NEWPEN, CallInt32(42));
    assert [Acquire] + [Write([1, 4], true), Write([42, 0, 0, 0], false)] + [Release]
      == [Acquire, Write([1, 4], true), Write([42, 0, 0, 0], false), Release];
  }

  lemma NumberPieces(p: Packet)
    requires p == Int32(0, 42)
    ensures PiecesActs(Pieces(Little, 1, [p])) == [Write([1, 4], true), Write([42, 0, 0, 0], false)]
  {
    hide Enc, Pow256, Pieces, PiecesActs, Writes;
    Pow256Values();
    FourBytes(42, 0, 0, 0);
    EventActs(Little, 1, p);
    assert [1 as byte] + Header(Little, Kind(p), p.code) == [1, 4];
    WritesOne([42, 0, 0, 0], false);
  }

  lemma HeadActs()
    ensures ThreadActs(Little, 2, NEWPEN, [CallHead([]), CallFlush]) == [Flush([2, 0, 0])]
  {
    var calls := [CallHead([]), CallFlush];
    var pen := Pen(0, [Head(0, [])]);
    assert calls[1..] == [CallFlush];
    OneCallActs(Little, 2, pen, CallFlush);
    OneUnit(Little, 2, Loose([Head(0, [])]));
    ImageOne(Little, 2, Head(0, []));
    assert Frame(Little, 2, Head(0, [])) == [2, 0, 0];
    assert Step(NEWPEN, calls[0]).0 == pen;
    assert CallActs(Little, 2, NEWPEN, calls[0]) == [];
    assert [] + [Flush([2, 0, 0])] == [Flush([2, 0, 0])];
  }

  lemma TornTails()
    ensures TORN[1..]
      == [(1, Write([1, 4], true)), (2, Flush([2, 0, 0])), (1, Write([42, 0, 0, 0], false)), (1, Release)]
    ensures TORN[1..][1..] == [(2, Flush([2, 0, 0])), (1, Write([42, 0, 0, 0], false)), (1, Release)]
    ensures TORN[1..][1..][1..] == [(1, Write([42, 0, 0, 0], false)), (1, Release)]
    ensures TORN[1..][1..][1..][1..] == [(1, Release)] && TORN[1..][1..][1..][1..][1..] == []
  {
  }

  lemma FirstAct(run: Run, t: byte)
    requires run != []
    ensures Project(run, t)
      == if run[0].0 == t then [run[0].1] + Project(run[1..], t) else Project(run[1..], t)
  {
  }

  lemma TornProjects(t: byte)
    ensures Project(TORN, t)
      == if t == 1 then [Acquire, Write([1, 4], true), Write([42, 0, 0, 0], false), Release]
         else if t == 2 then [Flush([2, 0, 0])] else []
  {
    hide Project;
    TornTails();
    FirstAct(TORN[1..][1..][1..][1..], t);
    FirstAct(TORN[1..][1..][1..], t);
    FirstAct(TORN[1..][1..], t);
    FirstAct(TORN[1..], t);
    FirstAct(TORN, t);
    NoActsLeft(t);
    if t == 1 {
      FourActs(Acquire, Write([1, 4], true), Write([42, 0, 0, 0], false), Release);
    } else if t == 2 {
      assert [Flush([2, 0, 0])] + [] == [Flush([2, 0, 0])];
    }
  }

  lemma FourActs(a: Act, b: Act, c: Act, d: Act)
    ensures [a] + ([b] + ([c] + ([d] + []))) == [a, b, c, d]
  {
  }

  lemma NoActsLeft(t: byte)
    ensures Project<Act>([], t) == []
  {
  }

  lemma TornIsARun()
    ensures RunOf(Little, TORN_CALLS, TORN)
  {
    TornTails();
    assert Locked(Held(1), TORN[1..][1..][1..]);
    forall t: byte ensures Project(TORN, t) == ThreadActs(Little, t, NEWPEN, CallsOf(TORN_CALLS, t)) {
      TornProjects(t);
      if t == 1 {
        NumberActs();
      } else if t == 2 {
        HeadActs();
      }
    }
  }

  /** The lock allows that run; the number then does not stand in one piece, and the reader takes the flushed bytes
      for the first bytes of it. */
  lemma FlushCanTear(cfg: Config, disk: set<Name>)
    requires cfg.order == Little
    ensures RunOf(Little, TORN_CALLS, TORN) && !Contiguous(Labels(NONE_BEGUN, TORN))
    ensures FileBytes(TORN) == [1, 4, 2, 0, 0, 42, 0, 0, 0]
    ensures ReadPacket(cfg, disk, FRESH, FileBytes(TORN)[1..])
      == Parsed(AddEvent(FRESH.(curKind := CBA_INT32), CBA_INT32, 0, Num(2 + 42 * 0x100_0000)), [], 5)
  {
    hide ReadPacket, RunOf, Contiguous, Labels;
    TornIsARun();
    TornTails();
    TornSound();
    RunFlows(Little, TORN_CALLS, TORN);
    WholeExactly(TORN);
    assert !NoTear(true, true, TORN[1..][1..][1..]);
    assert FileBytes(TORN[1..][1..][1..][1..]) == [];
    assert FileBytes(TORN[1..][1..]) == [2, 0, 0, 42, 0, 0, 0];
    TornNumber(cfg, disk, [4, 2, 0, 0, 42, 0, 0, 0]);
  }

  lemma TornSound()
    ensures AllThreadsSound(Little, TORN_CALLS)
  {
    hide Packets;
    forall t: byte ensures AllSound(Little, NEWPEN, CallsOf(TORN_CALLS, t)) {
      var calls := CallsOf(TORN_CALLS, t);
      assert calls != [] ==> calls[1..] == if t == 2 then [CallFlush] else [];
      assert [CallFlush][1..] == [];
    }
  }

  lemma TornNumber(cfg: Config, disk: set<Name>, s: seq<byte>)
    requires cfg.order == Little && s == [4, 2, 0, 0, 42, 0, 0, 0]
    ensures ReadPacket(cfg, disk, FRESH, s)
      == Parsed(AddEvent(FRESH.(curKind := CBA_INT32), CBA_INT32, 0, Num(2 + 42 * 0x100_0000)), [], 5)
  {
    DecFour(2, 0, 0, 42);
    Pow256Values();
    hide Dec, Pow256;
    assert s[1..5] == [2, 0, 0, 42];
    assert Signed(4, 2 + 42 * 0x100_0000) == 2 + 42 * 0x100_0000;
  }
}
