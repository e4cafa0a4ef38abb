/** The writer's calls: which packets each one puts in the file, and, independently of packets and bytes,
    which entries a sequence of calls means. */
module CbaCalls {
  import opened Bytes
  import opened CbaFormat
  import opened CbaDecode

  /** One call of the writer's interface. Strings are given formatted; `reads` are the successive results
      of reading the file, each at most a buffer long. */
  datatype Call =
    | CallHead(name: seq<byte>)
    | CallDeferStr(text: seq<byte>)
    | CallFlush
    | CallCode(c: int32)
    | CallBit(c: int32)
    | CallStr(text: seq<byte>)
    | CallData(data: seq<byte>)
    | CallFile(path: seq<byte>, parts: seq<seq<byte>>)
    | CallInt32(num: int32)
    | CallInt64(wide: int64)

  // ----- what a call's arguments become

  function CodeOf(c: int32): uint32 { if c < 0 then c + 0x1_0000_0000 else c }

  /** The characters before the first NUL. */
  function CString(s: seq<byte>): (r: seq<byte>)
    ensures |r| <= |s|
  {
    if s == [] || s[0] == 0 then [] else [s[0]] + CString(s[1..])
  }

  /** A formatted string as it lies in the writer's buffer. */
  function Formatted(text: seq<byte>): (r: seq<byte>)
    ensures |r| < CBA_MAXBUFF
  {
    CString(Take(text, CBA_MAXBUFF - 1))
  }

  predicate NoNul(s: seq<byte>) {
    forall i :: 0 <= i < |s| ==> s[i] != 0
  }

  lemma {:induction false} CStringPrefix(s: seq<byte>)
    ensures NoNul(CString(s)) && CString(s) <= s
    ensures NoNul(s) ==> CString(s) == s
    ensures |CString(s)| < |s| ==> s[|CString(s)|] == 0
  {
    if s != [] && s[0] != 0 {
      CStringPrefix(s[1..]);
      assert NoNul(s) ==> NoNul(s[1..]);
    }
  }

  /** A string without NUL that fits the buffer, and behind a head the room left, is kept whole; otherwise it is
      cut to the longest piece of it that does. The buffer takes 32767 characters. */
  lemma StringKept(used: nat, code: uint32, text: seq<byte>)
    ensures Formatted(text) <= text && NoNul(Formatted(text))
    ensures NoNul(text) ==> Formatted(text) == Take(text, CBA_MAXBUFF - 1)
    ensures NoNul(text) && |text| <= 32767 ==> Formatted(text) == text
    ensures DeferredText(used, code, text) <= Formatted(text)
    ensures Room(used, code) >= 0 ==> DeferredText(used, code, text) == Take(Formatted(text), Room(used, code))
  {
    var t := Take(text, CBA_MAXBUFF - 1);
    CStringPrefix(t);
    assert t <= text;
  }

  /** A module name keeps its length modulo 256, a path modulo 65536. */
  function HeadName(name: seq<byte>): seq<byte> { name[..|name| % 0x100] }

  function FilePath(path: seq<byte>): seq<byte> { path[..|path| % 0x1_0000] }

  /** A module name of up to 255 characters and a path of up to 65535 are kept whole; of longer ones a piece is left as
      long as the remainder. */
  lemma NameKept(name: seq<byte>)
    ensures HeadName(name) <= name && |HeadName(name)| == |name| % 256
    ensures FilePath(name) <= name && |FilePath(name)| == |name| % 65536
    ensures |name| <= 255 ==> HeadName(name) == name
    ensures |name| <= 65535 ==> FilePath(name) == name
  {
    assert name[..|name|] == name;
  }

  /** A code is kept as the unsigned number with its four bytes; no code is the code 0. */
  lemma CodeKept(c: int32)
    ensures Signed(4, CodeOf(c)) == c
    ensures CodeOf(c) == 0 <==> c == 0
  {
    Pow256Values();
  }

  /** What the parts read from a file amount to: everything up to the first empty one. */
  function Whole(parts: seq<seq<byte>>): seq<byte> {
    if parts == [] || parts[0] == [] then [] else parts[0] + Whole(parts[1..])
  }

  /** Parts that are not empty are kept whole, in order; what is behind an empty one is not. */
  lemma {:induction false} WholeKept(parts: seq<seq<byte>>, more: seq<seq<byte>>)
    requires forall i :: 0 <= i < |parts| ==> parts[i] != []
    ensures Whole(parts + more) == Whole(parts) + Whole(more)
    ensures Whole([[]] + more) == []
    ensures |parts| == 1 ==> Whole(parts) == parts[0]
  {
    if parts == [] {
      assert parts + more == more && [] + Whole(more) == Whole(more);
    } else {
      WholeKept(parts[1..], more);
      assert (parts + more)[1..] == parts[1..] + more;
      assert parts[0] + (Whole(parts[1..]) + Whole(more)) == parts[0] + Whole(parts[1..]) + Whole(more);
      assert |parts| == 1 ==> Whole(parts[1..]) == [] && parts[0] + [] == parts[0];
    }
  }

  /** How many bytes of text still fit behind `used` bytes in the deferral buffer. */
  function Room(used: nat, code: uint32): int {
    CBA_DEFERBUFF - used - (1 + HeaderLen(code)) - 7
  }

  function DeferredText(used: nat, code: uint32, text: seq<byte>): (r: seq<byte>)
    ensures |r| < CBA_MAXBUFF
  {
    var t, room := Formatted(text), Room(used, code);
    if |t| <= room then t else if room < 0 then [] else t[..room]
  }

  // ----- packets

  /** The writer's state: the code for the next header, and the packets held back. */
  datatype Pen = Pen(code: uint32, deferred: seq<Packet>)

  const NEWPEN := Pen(0, [])

  function FrameLen(p: Packet): nat { 1 + |Encode(Little, p)| }

  function BufferLen(ps: seq<Packet>): nat {
    if ps == [] then 0 else BufferLen(ps[..|ps| - 1]) + FrameLen(ps[|ps| - 1])
  }

  /** The chunks of data in memory: full ones, a last one, and the empty terminator. */
  function Chunks(data: seq<byte>): seq<Packet> {
    if data == [] then [Chunk([])]
    else if |data| > CBA_MAXBUFF then [Chunk(data[..CBA_MAXBUFF])] + Chunks(data[CBA_MAXBUFF..])
    else [Chunk(data), Chunk([])]
  }

  function FileChunks(parts: seq<seq<byte>>): seq<Packet> {
    if parts == [] || parts[0] == [] then [Chunk([])] else [Chunk(parts[0])] + FileChunks(parts[1..])
  }

  /** The state after a call, and the packets it sent to the file. */
  function Step(pen: Pen, call: Call): (Pen, seq<Packet>) {
    match call
    case CallHead(name) => (Pen(0, [Head(pen.code, HeadName(name))]), [])
    case CallDeferStr(text) =>
      if pen.deferred == [] then (Pen(0, []), [Str(pen.code, Formatted(text))])
      else
        var t := DeferredText(BufferLen(pen.deferred), pen.code, text);
        (Pen(0, pen.deferred + [Str(pen.code, t)]), [])
    case CallFlush => (pen.(deferred := []), pen.deferred)
    case CallCode(c) => (pen.(code := CodeOf(c)), [])
    case CallBit(c) => (NEWPEN, pen.deferred + [Bit(CodeOf(c))])
    case CallStr(text) => (NEWPEN, pen.deferred + [Str(pen.code, Formatted(text))])
    case CallData(data) => (NEWPEN, pen.deferred + ([Data(pen.code)] + Chunks(data)))
    case CallFile(path, parts) => (NEWPEN, pen.deferred + ([File(pen.code, FilePath(path))] + FileChunks(parts)))
    case CallInt32(num) => (NEWPEN, pen.deferred + [Int32(pen.code, num)])
    case CallInt64(wide) => (NEWPEN, pen.deferred + [Int64(pen.code, wide)])
  }

  function Packets(pen: Pen, calls: seq<Call>): seq<Packet>
    decreases |calls|
  {
    if calls == [] then []
    else
      var (pen', ps) := Step(pen, calls[0]);
      ps + Packets(pen', calls[1..])
  }

  /** An empty deferred string overwrites the last byte of its own header with 0; that is harmless only if the
      byte was 0 already, as the last byte of a code can be. */
  predicate ZeroTail(order: Order, code: uint32) {
    code != 0 && Enc(order, 4, code)[3] == 0
  }

  /** A file is read in pieces that fit the writer's buffer. */
  predicate Framed(call: Call) {
    call.CallFile? ==> forall i :: 0 <= i < |call.parts| ==> |call.parts[i]| <= CBA_MAXBUFF
  }

  /** A deferred string finds room. */
  predicate Roomy(pen: Pen, call: Call) {
    call.CallDeferStr? && pen.deferred != [] ==> Room(BufferLen(pen.deferred), pen.code) >= 0
  }

  predicate AllRoomy(pen: Pen, calls: seq<Call>)
    decreases |calls|
  {
    calls == [] || (Roomy(pen, calls[0]) && AllRoomy(Step(pen, calls[0]).0, calls[1..]))
  }

  /** The calls whose bytes are the packets `Step` says. */
  predicate Sound(order: Order, pen: Pen, call: Call) {
    match call
    case CallDeferStr(text) =>
      pen.deferred != [] ==>
        && Roomy(pen, call)
        && (DeferredText(BufferLen(pen.deferred), pen.code, text) != [] || ZeroTail(order, pen.code))
    case CallData(data) => order == Little || data == []
    case CallFile(_, _) => Framed(call)
    case _ => true
  }

  predicate AllFramed(calls: seq<Call>) {
    forall i :: 0 <= i < |calls| ==> Framed(calls[i])
  }

  lemma {:induction false} SoundFramed(order: Order, pen: Pen, calls: seq<Call>)
    requires AllSound(order, pen, calls)
    ensures AllFramed(calls)
    decreases |calls|
  {
    if calls != [] {
      SoundFramed(order, Step(pen, calls[0]).0, calls[1..]);
      assert forall i :: 0 < i < |calls| ==> calls[i] == calls[1..][i - 1];
    }
  }

  predicate AllSound(order: Order, pen: Pen, calls: seq<Call>)
    decreases |calls|
  {
    calls == [] || (Sound(order, pen, calls[0]) && AllSound(order, Step(pen, calls[0]).0, calls[1..]))
  }

  // ----- meaning

  /** The value each code was last given. */
  function Dict(events: seq<Event>): map<uint32, Value> {
    if events == [] then map[]
    else Dict(events[..|events| - 1])[events[|events| - 1].code := events[|events| - 1].val]
  }

  /** A code has a value if and only if some event has it, and it is that of the last such event. */
  lemma {:induction false} DictExactly(events: seq<Event>, code: uint32)
    ensures code in Dict(events) <==> exists i :: 0 <= i < |events| && events[i].code == code
    ensures forall i :: 0 <= i < |events| && events[i].code == code
                        && (forall j :: i < j < |events| ==> events[j].code != code) ==>
              code in Dict(events) && Dict(events)[code] == events[i].val
  {
    if events != [] {
      var n := |events| - 1;
      DictExactly(events[..n], code);
      if events[n].code != code {
        assert forall i :: 0 <= i < n ==> events[..n][i] == events[i];
      }
    }
  }

  function EntryOf(cfg: Config, name: seq<byte>, events: seq<Event>): seq<Output> {
    if events != [] && (cfg.filter.None? || cfg.filter.value == name)
    then [Yield(Entry(name, Dict(events), events))] else []
  }

  /** A head not yet in force, the strings deferred behind it, and the buffer space they take. */
  datatype Pending = Pending(name: seq<byte>, events: seq<Event>, used: nat)

  /** What a thread has written so far: finished outputs, the entry under way, the head waiting. */
  datatype Log = Log(out: seq<Output>, name: seq<byte>, events: seq<Event>, pending: Option<Pending>, code: uint32)

  const NEWLOG := Log([], [], [], None, 0)

  function Add(log: Log, kind: byte, val: Value): Log {
    log.(events := log.events + [Event(kind, log.code, val)], code := 0)
  }

  /** The waiting head takes effect: the entry under way is finished and the next one begun. */
  function Commit(cfg: Config, log: Log): Log {
    match log.pending
    case None => log
    case Some(p) =>
      log.(out := log.out + EntryOf(cfg, log.name, log.events), name := p.name, events := p.events, pending := None)
  }

  /** What a call means, for a thread that has written `log`. A file counts as saved; whether the reader is let to
      store it is up to its file system. */
  function Interpret(cfg: Config, log: Log, call: Call): Log {
    match call
    case CallHead(name) =>
      log.(pending := Some(Pending(HeadName(name), [], 1 + HeaderLen(log.code) + 1 + |HeadName(name)|)), code := 0)
    case CallDeferStr(text) =>
      (match log.pending
       case None => Add(log, CBA_STR, Text(Formatted(text)))
       case Some(p) =>
         var t := DeferredText(p.used, log.code, text);
         log.(pending := Some(Pending(p.name, p.events + [Event(CBA_STR, log.code, Text(t))],
                                      p.used + 1 + HeaderLen(log.code) + 2 + |t|)), code := 0))
    case CallFlush => Commit(cfg, log)
    case CallCode(c) => log.(code := CodeOf(c))
    case CallBit(c) => Add(Commit(cfg, log.(code := CodeOf(c))), CBA_BIT, Flag)
    case CallStr(text) => Add(Commit(cfg, log), CBA_STR, Text(Formatted(text)))
    case CallData(data) => Add(Commit(cfg, log), CBA_DATA, Blob(data))
    case CallFile(path, parts) =>
      var l := Commit(cfg, log);
      var target := TargetPath(cfg, l.name, FilePath(path));
      if target == [] then l.(code := 0)
      else Add(l, CBA_FILE, Path(target)).(out := l.out + [Saved(target, Whole(parts))])
    case CallInt32(num) => Add(Commit(cfg, log), CBA_INT32, Num(num))
    case CallInt64(wide) => Add(Commit(cfg, log), CBA_INT64, Num(wide))
  }

  function InterpretAll(cfg: Config, log: Log, calls: seq<Call>): Log
    decreases |calls|
  {
    if calls == [] then log else InterpretAll(cfg, Interpret(cfg, log, calls[0]), calls[1..])
  }

  /** Everything a finished thread has written: a head still waiting is lost. */
  function Finish(cfg: Config, log: Log): seq<Output> {
    log.out + EntryOf(cfg, log.name, log.events)
  }

  /** What a thread that makes these calls has written. */
  function Written(cfg: Config, calls: seq<Call>): seq<Output> {
    Finish(cfg, InterpretAll(cfg, NEWLOG, calls))
  }

  // ----- several runs on one file

  /** A new run on the same file: it knows nothing of a head or a code the run before has left waiting, but the reader
      is still in the entry that run wrote last. */
  function Restart(log: Log): Log {
    log.(pending := None, code := 0)
  }

  function InterpretRuns(cfg: Config, log: Log, runs: seq<seq<Call>>): Log
    decreases |runs|
  {
    if runs == [] then log else InterpretRuns(cfg, InterpretAll(cfg, Restart(log), runs[0]), runs[1..])
  }

  /** What a thread has written that makes these calls in successive runs. */
  function WrittenInRuns(cfg: Config, runs: seq<seq<Call>>): seq<Output> {
    Finish(cfg, InterpretRuns(cfg, NEWLOG, runs))
  }

  /** Nothing is written before the first head. */
  predicate HeadFirst(calls: seq<Call>) {
    calls == [] || calls[0].CallHead? || ((calls[0].CallCode? || calls[0].CallFlush?) && HeadFirst(calls[1..]))
  }

  /** Names are ASCII, and files with a name are written under a module the reader extracts. */
  predicate Clear(cfg: Config, log: Log, call: Call) {
    match call
    case CallHead(name) => Ascii(HeadName(name))
    case CallFile(path, _) =>
      FilePath(path) != [] ==> ShouldExtract(cfg, Commit(cfg, log).name) && Ascii(FilePath(path))
    case _ => true
  }

  predicate AllClear(cfg: Config, log: Log, calls: seq<Call>)
    decreases |calls|
  {
    calls == [] || (Clear(cfg, log, calls[0]) && AllClear(cfg, Interpret(cfg, log, calls[0]), calls[1..]))
  }

  predicate RunsClear(cfg: Config, log: Log, runs: seq<seq<Call>>)
    decreases |runs|
  {
    runs == []
    || (AllClear(cfg, Restart(log), runs[0]) && RunsClear(cfg, InterpretAll(cfg, Restart(log), runs[0]), runs[1..]))
  }
}
