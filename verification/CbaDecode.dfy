/** What the reader makes of a CBA file, as functions: one thread's state machine, the pass over the
    file, and the same machine on whole packets instead of bytes. */
module CbaDecode {
  import opened Bytes
  import opened CbaFormat

  datatype Value = Text(text: seq<byte>) | Blob(bytes: seq<byte>) | Path(path: seq<byte>) | Num(num: int) | Flag

  datatype Event = Event(kind: byte, code: uint32, val: Value)

  type Name = seq<byte>

  /** The reader's options, and what the file system answers: `blocked` are the paths that cannot be opened for
      writing at all, and `links` leads from a path to the file it stands for, where that is not the path itself.
      `filter` is the module asked for. */
  datatype Config = Config(order: Order, extractFor: set<Name>, overwrite: bool, blocked: set<Name>,
                           links: map<Name, Name>, filter: Option<Name>)

  /** Where the chunks of an open stream go. */
  datatype Stream = Closed | Ignore | Memory(buf: seq<byte>) | Disk(path: seq<byte>, buf: seq<byte>)

  datatype State = State(name: seq<byte>, dict: map<uint32, Value>, events: seq<Event>,
                         curCode: uint32, curKind: byte, stream: Stream)

  const FRESH := State([], map[], [], 0, 0, Closed)

  datatype Entry = Entry(name: seq<byte>, dict: map<uint32, Value>, events: seq<Event>)

  /** What leaves the reader: an entry handed to the caller, or a file it has opened and closed again, with all that
      went into it. */
  datatype Output = Yield(entry: Entry) | Saved(path: seq<byte>, data: seq<byte>)

  function AddEvent(ts: State, kind: byte, code: uint32, val: Value): State {
    ts.(events := ts.events + [Event(kind, code, val)], dict := ts.dict[code := val])
  }

  function Result(cfg: Config, ts: State): seq<Output> {
    if |ts.events| > 0 && (cfg.filter.None? || cfg.filter.value == ts.name)
    then [Yield(Entry(ts.name, ts.dict, ts.events))] else []
  }

  predicate Ascii(s: seq<byte>) {
    forall i :: 0 <= i < |s| ==> s[i] < 0x80
  }

  const STAR: seq<byte> := [42]
  const DOT: byte := 46
  const SLASH: byte := 47

  predicate ShouldExtract(cfg: Config, name: seq<byte>) {
    STAR in cfg.extractFor || name in cfg.extractFor
  }

  function DropDotDot(s: seq<byte>): seq<byte> {
    if |s| < 2 then s
    else if s[0] == DOT && s[1] == DOT then DropDotDot(s[2..])
    else [s[0]] + DropDotDot(s[1..])
  }

  /** The file name the reader opens for the name found in the packet. */
  function Sanitize(s: seq<byte>): seq<byte> {
    var t := DropDotDot(s);
    if t != [] && t[0] == SLASH then t[1..] else t
  }

  predicate NoDotDot(s: seq<byte>) {
    forall i :: 0 <= i < |s| - 1 ==> !(s[i] == DOT && s[i + 1] == DOT)
  }

  lemma {:induction false} DropsDotDot(s: seq<byte>)
    ensures NoDotDot(DropDotDot(s))
    ensures s != [] && s[0] != DOT ==> DropDotDot(s) != [] && DropDotDot(s)[0] == s[0]
    ensures NoDotDot(s) ==> DropDotDot(s) == s
  {
    if |s| >= 2 {
      if s[0] == DOT && s[1] == DOT {
        DropsDotDot(s[2..]);
      } else {
        DropsDotDot(s[1..]);
        assert NoDotDot(s) ==> NoDotDot(s[1..]);
      }
    }
  }

  /** The first two dots in a row are taken out, and then those of what is behind them. */
  lemma {:induction false} FirstPairDropped(a: seq<byte>, b: seq<byte>)
    requires NoDotDot(a + [DOT])
    ensures DropDotDot(a + [DOT, DOT] + b) == a + DropDotDot(b)
  {
    var s := a + [DOT, DOT] + b;
    if a == [] {
      assert s[2..] == b;
      assert [] + DropDotDot(b) == DropDotDot(b);
    } else {
      assert s[1..] == a[1..] + [DOT, DOT] + b;
      assert (a + [DOT])[1..] == a[1..] + [DOT];
      assert s[0] == (a + [DOT])[0] && s[1] == (a + [DOT])[1];
      assert NoDotDot(a[1..] + [DOT]) by {
        assert forall i :: 0 <= i < |a| ==> (a[1..] + [DOT])[i] == (a + [DOT])[i + 1];
      }
      FirstPairDropped(a[1..], b);
      assert [a[0]] + (a[1..] + DropDotDot(b)) == a + DropDotDot(b);
    }
  }

  /** The name opened has no two dots in a row, and a relative name without any is opened as it is. */
  lemma Sanitized(s: seq<byte>)
    ensures NoDotDot(Sanitize(s))
    ensures NoDotDot(s) && (s == [] || s[0] != SLASH) ==> Sanitize(s) == s
  {
    DropsDotDot(s);
  }

  predicate Absolute(s: seq<byte>) {
    s != [] && s[0] == SLASH
  }

  /** What follows the pairs of dots at the front. */
  function SkipDots(s: seq<byte>): seq<byte> {
    if |s| >= 2 && s[0] == DOT && s[1] == DOT then SkipDots(s[2..]) else s
  }

  /** Two slashes lead the name, with nothing but pairs of dots around them. */
  predicate TwoSlashes(s: seq<byte>) {
    Absolute(SkipDots(s)) && Absolute(SkipDots(SkipDots(s)[1..]))
  }

  lemma {:induction false} DropSkips(s: seq<byte>)
    ensures DropDotDot(s) == DropDotDot(SkipDots(s))
    ensures Absolute(DropDotDot(s)) <==> Absolute(SkipDots(s))
  {
    if |s| >= 2 && s[0] == DOT && s[1] == DOT {
      DropSkips(s[2..]);
    }
  }

  /** The name opened is relative, so that the file lands in the directory for extracted files, if and only if the
      name in the packet does not begin with two slashes, pairs of dots aside: only one slash is taken off. */
  lemma RelativeExactly(s: seq<byte>)
    ensures Absolute(Sanitize(s)) <==> TwoSlashes(s)
  {
    DropSkips(s);
    var t := SkipDots(s);
    if Absolute(t) {
      DropSkips(t[1..]);
      assert |t| >= 2 ==> DropDotDot(t) == [t[0]] + DropDotDot(t[1..]);
    }
  }

  /** For instance the names "//e" and "/../e" both open "/e". */
  lemma EscapesTheDirectory(e: byte)
    requires e != DOT
    ensures Sanitize([SLASH, SLASH, e]) == [SLASH, e]
    ensures Sanitize([SLASH, DOT, DOT, SLASH, e]) == [SLASH, e]
  {
    assert DropDotDot([e]) == [e];
    assert [SLASH, e][1..] == [e];
    assert DropDotDot([SLASH, e]) == [SLASH] + DropDotDot([e]) == [SLASH, e];
    assert [SLASH, SLASH, e][1..] == [SLASH, e];
    assert DropDotDot([SLASH, SLASH, e]) == [SLASH] + [SLASH, e] == [SLASH, SLASH, e];
    var dots := [DOT, DOT, SLASH, e];
    assert dots[2..] == [SLASH, e];
    assert [SLASH, DOT, DOT, SLASH, e][1..] == dots;
    assert DropDotDot([SLASH, DOT, DOT, SLASH, e]) == [SLASH] + DropDotDot(dots) == [SLASH, SLASH, e];
  }

  /** The name under which an entry of module `name` stores the file `path`; empty when it stores none. */
  function TargetPath(cfg: Config, name: seq<byte>, path: seq<byte>): seq<byte> {
    if ShouldExtract(cfg, name) then Sanitize(path) else []
  }

  /** The file a path leads to: two paths may lead to the same one. */
  function FileOf(cfg: Config, path: Name): Name {
    if path in cfg.links then cfg.links[path] else path
  }

  /** Whether `open` succeeds when the files `disk` exist: without `overwrite`, only on a new file. */
  predicate CanOpen(cfg: Config, disk: set<Name>, target: Name) {
    target !in cfg.blocked && (cfg.overwrite || FileOf(cfg, target) !in disk)
  }

  /** The state after a FILE header, when opening its target would succeed (`ok`) or fail. The event is added in
      either case. */
  function OpenFile(cfg: Config, ok: bool, ts: State, code: uint32, target: Name): State {
    if target == [] then ts.(stream := Ignore)
    else AddEvent(ts.(stream := if ok then Disk(target, []) else Ignore), CBA_FILE, code, Path(target))
  }

  /** The files that exist, with what they hold. */
  type Files = map<Name, seq<byte>>

  /** What `b` has beyond the length of `a`. */
  function Beyond(a: seq<byte>, b: seq<byte>): seq<byte> { if |a| <= |b| then b[|a|..] else [] }

  /** Writing `data` from the place `at` on: over what is there, and behind a gap of zeros when there is too little. */
  function WriteAt(content: seq<byte>, at: nat, data: seq<byte>): seq<byte> {
    if data == [] then content
    else
      (if at <= |content| then content[..at] else content + seq(at - |content|, _ => 0))
      + data
      + (if at + |data| < |content| then content[at + |data|..] else [])
  }

  /** Byte by byte: the data where it was written, what was there everywhere else, and zeros in a gap. */
  lemma WriteAtBytes(content: seq<byte>, at: nat, data: seq<byte>, i: nat)
    requires data != []
    ensures var end, r := at + |data|, WriteAt(content, at, data);
      && |r| == (if end < |content| then |content| else end)
      && (i < |r| ==> r[i] == if at <= i < end then data[i - at] else if i < |content| then content[i] else 0)
  {
  }

  /** The files after a packet took a thread from `ts` to `ts'`: opening empties the file or makes it, and what is fed
      to the stream is written behind what went through it before. */
  function DiskAfter(cfg: Config, disk: Files, ts: State, ts': State): Files {
    if !ts'.stream.Disk? then disk
    else
      var f := FileOf(cfg, ts'.stream.path);
      if !ts.stream.Disk? then disk[f := []]
      else if f in disk then disk[f := WriteAt(disk[f], |ts.stream.buf|, Beyond(ts.stream.buf, ts'.stream.buf))]
      else disk
  }

  function Feed(stream: Stream, data: seq<byte>): Stream {
    match stream
    case Memory(buf) => Memory(buf + data)
    case Disk(path, buf) => Disk(path, buf + data)
    case _ => stream
  }

  // ----- bytes

  /** `file.read(n)`: short only at the end of the file. */
  function Take(s: seq<byte>, n: nat): (r: seq<byte>)
    ensures |r| <= n && |r| <= |s|
  {
    if |s| <= n then s else s[..n]
  }

  /** One packet's effect on its thread: the new state, what came out, and how many bytes it took. `Bad`
      is an exception of the reader (a field cut short, or a name that is not ASCII). */
  datatype Parsed = Parsed(ts: State, out: seq<Output>, used: nat) | Bad(out: seq<Output>)

  function ReadChunk(cfg: Config, ts: State, s: seq<byte>): (r: Parsed)
    ensures r.Parsed? ==> r.used <= |s|
  {
    if |s| < 2 then Bad([])
    else
      var n := Dec(cfg.order, s[..2]);
      if n > 0 then
        var data := Take(s[2..], n);
        Parsed(ts.(stream := Feed(ts.stream, data)), [], 2 + |data|)
      else if ts.curKind == CBA_DATA then
        if ts.stream.Memory?
        then Parsed(AddEvent(ts, ts.curKind, ts.curCode, Blob(ts.stream.buf)).(stream := Closed), [], 2)
        else Bad([])
      else
        var saved := if ts.stream.Disk? then [Saved(ts.stream.path, ts.stream.buf)] else [];
        Parsed(ts.(stream := Closed), saved, 2)
  }

  function ReadHead(cfg: Config, ts: State, s: seq<byte>, base: nat): (r: Parsed)
    requires base <= |s|
    ensures r.Parsed? ==> r.used <= |s|
  {
    var out := Result(cfg, ts);
    if |s| < base + 1 then Bad(out)
    else
      var name := Take(s[base + 1..], s[base]);
      if Ascii(name) then Parsed(FRESH.(name := name), out, base + 1 + |name|) else Bad(out)
  }

  function ReadFile(cfg: Config, disk: set<Name>, ts: State, code: uint32, s: seq<byte>, base: nat): (r: Parsed)
    requires base <= |s|
    ensures r.Parsed? ==> r.used <= |s|
  {
    if |s| < base + 2 then Bad([])
    else
      var n := Dec(cfg.order, s[base..base + 2]);
      if ShouldExtract(cfg, ts.name) && n > 0 then
        var path := Take(s[base + 2..], n);
        if Ascii(path)
        then Parsed(OpenFile(cfg, CanOpen(cfg, disk, Sanitize(path)), ts, code, Sanitize(path)), [], base + 2 + |path|)
        else Bad([])
      else Parsed(OpenFile(cfg, false, ts, code, []), [], base + 2)
  }

  function ReadNum(cfg: Config, ts: State, kind: byte, k: nat, code: uint32, s: seq<byte>, base: nat): (r: Parsed)
    requires base <= |s|
    ensures r.Parsed? ==> r.used <= |s|
  {
    if |s| < base + k then Bad([])
    else Parsed(AddEvent(ts, kind, code, Num(Signed(k, Dec(cfg.order, s[base..base + k])))), [], base + k)
  }

  function ReadStr(cfg: Config, ts: State, code: uint32, s: seq<byte>, base: nat): (r: Parsed)
    requires base <= |s|
    ensures r.Parsed? ==> r.used <= |s|
  {
    if |s| < base + 2 then Bad([])
    else
      var text := Take(s[base + 2..], Dec(cfg.order, s[base..base + 2]));
      Parsed(AddEvent(ts, CBA_STR, code, Text(text)), [], base + 2 + |text|)
  }

  lemma DecFits(order: Order, s: seq<byte>)
    ensures Dec(order, s) < Pow256(|s|)
  {
    if s != [] {
      match order
      case Little => DecFits(order, s[1..]);
      case Big => DecFits(order, s[..|s| - 1]);
    }
  }

  function ReadBody(cfg: Config, disk: set<Name>, ts: State, kind: byte, code: uint32, s: seq<byte>, base: nat)
    : (r: Parsed)
    requires base <= |s|
    ensures r.Parsed? ==> r.used <= |s|
  {
    if kind == CBA_HEAD then ReadHead(cfg, ts, s, base)
    else
      var cur := ts.(curCode := code, curKind := kind);
      if kind == CBA_STR then ReadStr(cfg, cur, code, s, base)
      else if kind == CBA_DATA then Parsed(cur.(stream := Memory([])), [], base)
      else if kind == CBA_BIT then Parsed(AddEvent(cur, kind, code, Flag), [], base)
      else if kind == CBA_INT32 then ReadNum(cfg, cur, kind, 4, code, s, base)
      else if kind == CBA_INT64 then ReadNum(cfg, cur, kind, 8, code, s, base)
      else if kind == CBA_FILE then ReadFile(cfg, disk, cur, code, s, base)
      else Parsed(cur, [], base)
  }

  function ReadEvent(cfg: Config, disk: set<Name>, ts: State, s: seq<byte>): (r: Parsed)
    ensures r.Parsed? ==> r.used <= |s|
  {
    if |s| < 1 then Bad([])
    else if s[0] < 0x80 then ReadBody(cfg, disk, ts, s[0], 0, s, 1)
    else if |s| < 5 then Bad([])
    else
      DecFits(cfg.order, s[1..5]); Pow256Values();
      ReadBody(cfg, disk, ts, s[0] - 0x80, Dec(cfg.order, s[1..5]), s, 5)
  }

  /** One packet of a thread in state `ts`, from the bytes `s` that follow the thread id, while the files `disk`
      exist. */
  function ReadPacket(cfg: Config, disk: set<Name>, ts: State, s: seq<byte>): (r: Parsed)
    ensures r.Parsed? ==> r.used <= |s|
  {
    if ts.stream != Closed then ReadChunk(cfg, ts, s) else ReadEvent(cfg, disk, ts, s)
  }

  // ----- the pass over a file

  /** Thread states, with the ids in the order they were first seen. */
  datatype Table = Table(ids: seq<byte>, states: map<byte, State>) {
    ghost predicate Valid() {
      && (forall i, j :: 0 <= i < j < |ids| ==> ids[i] != ids[j])
      && (forall t :: t in ids <==> t in states)
    }

    function Get(t: byte): State { if t in states then states[t] else FRESH }

    function Put(t: byte, ts: State): (r: Table)
      ensures Valid() ==> r.Valid()
      ensures r.Get(t) == ts
      ensures forall u :: u != t ==> r.Get(u) == Get(u)
    {
      Table(if t in states then ids else ids + [t], states[t := ts])
    }
  }

  const EMPTY := Table([], map[])

  /** `disk` are the files the pass leaves. */
  datatype Outcome = Outcome(out: seq<(byte, Output)>, ok: bool, disk: Files)

  /** The entries still open at the end of the file, in the order the threads were first seen. */
  function ReadFinal(cfg: Config, states: map<byte, State>, ids: seq<byte>): seq<(byte, Output)>
    requires forall t :: t in ids ==> t in states
  {
    if ids == [] then []
    else Tag(ids[0], Result(cfg, states[ids[0]])) + ReadFinal(cfg, states, ids[1..])
  }

  /** Everything one pass yields from the bytes `s`, starting with the files `disk`, each output labelled with its
      thread; `ok` is false when the pass ended in an exception. */
  function Entries(cfg: Config, disk: Files, table: Table, s: seq<byte>): Outcome
    requires table.Valid()
    decreases |s|
  {
    if s == [] then Outcome(ReadFinal(cfg, table.states, table.ids), true, disk)
    else
      var tid := s[0];
      match ReadPacket(cfg, disk.Keys, table.Get(tid), s[1..])
      case Bad(out) => Outcome(Tag(tid, out), false, disk)
      case Parsed(ts, out, used) =>
        var rest := Entries(cfg, DiskAfter(cfg, disk, table.Get(tid), ts), table.Put(tid, ts), s[1 + used..]);
        Outcome(Tag(tid, out) + rest.out, rest.ok, rest.disk)
  }

  /** The threads and their states at the end of such a pass. */
  function LastTable(cfg: Config, disk: Files, table: Table, s: seq<byte>): Table
    requires table.Valid()
    decreases |s|
  {
    if s == [] then table
    else
      match ReadPacket(cfg, disk.Keys, table.Get(s[0]), s[1..])
      case Bad(_) => table
      case Parsed(ts, _, used) =>
        LastTable(cfg, DiskAfter(cfg, disk, table.Get(s[0]), ts), table.Put(s[0], ts), s[1 + used..])
  }

  // ----- the same machine, one packet at a time

  /** What a packet does to its thread, where opening a file would succeed (`ok`) or fail. */
  function Apply(cfg: Config, ok: bool, ts: State, p: Packet): (State, seq<Output>) {
    match p
    case Chunk(data) =>
      if data != [] then (ts.(stream := Feed(ts.stream, data)), [])
      else (match ts.stream
            case Memory(buf) => (AddEvent(ts, CBA_DATA, ts.curCode, Blob(buf)).(stream := Closed), [])
            case Disk(path, buf) => (ts.(stream := Closed), [Saved(path, buf)])
            case _ => (ts.(stream := Closed), []))
    case Head(_, name) => (FRESH.(name := name), Result(cfg, ts))
    case _ =>
      var cur := ts.(curCode := p.code, curKind := Kind(p));
      match p
      case Str(code, text) => (AddEvent(cur, CBA_STR, code, Text(text)), [])
      case File(code, path) => (OpenFile(cfg, ok, cur, code, TargetPath(cfg, ts.name, path)), [])
      case Data(code) => (cur.(stream := Memory([])), [])
      case Int32(code, num) => (AddEvent(cur, CBA_INT32, code, Num(num)), [])
      case Int64(code, wide) => (AddEvent(cur, CBA_INT64, code, Num(wide)), [])
      case _ => (AddEvent(cur, CBA_BIT, p.code, Flag), [])
  }

  /** A run of packets when every file can be opened. */
  function Play(cfg: Config, ts: State, ps: seq<Packet>): (State, seq<Output>)
    decreases |ps|
  {
    if ps == [] then (ts, [])
    else
      var (ts1, out1) := Apply(cfg, true, ts, ps[0]);
      var (ts2, out2) := Play(cfg, ts1, ps[1..]);
      (ts2, out1 + out2)
  }

  /** All that one thread's packets yield when every file can be opened, the entry left open at the end included. */
  function Reading(cfg: Config, ts: State, ps: seq<Packet>): seq<Output> {
    var (ts', out) := Play(cfg, ts, ps);
    out + Result(cfg, ts')
  }

  /** A thread in a module of this name asks for a file to be opened. */
  predicate Asks(cfg: Config, name: Name, p: Packet) {
    p.File? && TargetPath(cfg, name, p.path) != []
  }

  function First(oks: seq<bool>): bool { oks != [] && oks[0] }

  function Next(oks: seq<bool>): seq<bool> { if oks == [] then [] else oks[1..] }

  /** `Reading` when the files asked for can be opened as `oks` says, one after the other. */
  function ReadingWith(cfg: Config, ts: State, ps: seq<Packet>, oks: seq<bool>): seq<Output>
    decreases |ps|
  {
    if ps == [] then Result(cfg, ts)
    else
      var (ts', out) := Apply(cfg, First(oks), ts, ps[0]);
      out + ReadingWith(cfg, ts', ps[1..], if Asks(cfg, ts.name, ps[0]) then Next(oks) else oks)
  }

  /** The stream in memory is always the one of a DATA event. */
  predicate Coherent(ts: State) {
    ts.stream.Memory? <==> ts.stream != Closed && ts.curKind == CBA_DATA
  }

  /** A packet this state can read: chunks exactly while a stream is open, ASCII names, and a stored file
      name only where the reader will consume it. */
  predicate Fits(cfg: Config, ts: State, p: Packet) {
    && Sized(p)
    && (p.Chunk? <==> ts.stream != Closed)
    && (p.Head? ==> Ascii(p.name))
    && (p.File? && p.path != [] ==> ShouldExtract(cfg, ts.name) && Ascii(p.path))
  }

  predicate Legible(cfg: Config, ts: State, ps: seq<Packet>)
    decreases |ps|
  {
    ps == [] || (Fits(cfg, ts, ps[0]) && Legible(cfg, Apply(cfg, true, ts, ps[0]).0, ps[1..]))
  }
}
