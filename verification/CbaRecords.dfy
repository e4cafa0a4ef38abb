/** The log in its users' terms: records of notes, data, files, numbers and marks, written call by call, are what comes
    out of the file, whatever other threads write between them. */
module CbaRecords {
  import opened Sequences
  import opened Bytes
  import opened CbaFormat
  import opened CbaDecode
  import opened CbaFiles
  import opened CbaInterleave
  import opened CbaCalls
  import opened CbaDeferral
  import opened CbaMeaning

  /** One thing to be recorded, under a code. */
  datatype Item =
    | Note(c: int32, text: seq<byte>)
    | Dump(c: int32, data: seq<byte>)
    | Store(c: int32, path: seq<byte>, parts: seq<seq<byte>>)
    | Small(c: int32, num: int32)
    | Large(c: int32, wide: int64)
    | Mark(c: int32)

  /** A record of a module: strings deferred behind its head, and then items. */
  datatype Record = Record(name: seq<byte>, held: seq<(int32, seq<byte>)>, items: seq<Item>)

  // ----- writing

  function ItemCalls(x: Item): seq<Call> {
    match x
    case Note(c, text) => [CallCode(c), CallStr(text)]
    case Dump(c, data) => [CallCode(c), CallData(data)]
    case Store(c, path, parts) => [CallCode(c), CallFile(path, parts)]
    case Small(c, num) => [CallCode(c), CallInt32(num)]
    case Large(c, wide) => [CallCode(c), CallInt64(wide)]
    case Mark(c) => [CallBit(c)]
  }

  function ItemsCalls(items: seq<Item>): seq<Call> {
    if items == [] then [] else ItemCalls(items[0]) + ItemsCalls(items[1..])
  }

  function RecordCalls(r: Record): seq<Call> {
    [CallHead(r.name)] + (Deferring(r.held) + (ItemsCalls(r.items) + [CallFlush]))
  }

  function RecordsCalls(rs: seq<Record>): seq<Call> {
    if rs == [] then [] else RecordCalls(rs[0]) + RecordsCalls(rs[1..])
  }

  // ----- what is to come out, in plain numbers

  /** A code as the reader unpacks it: four bytes without a sign. */
  function Code32(c: int32): uint32 { if c < 0 then c + 4294967296 else c }

  function HeldEvents(held: seq<(int32, seq<byte>)>): seq<Event> {
    if held == [] then [] else [Event(1, Code32(held[0].0), Text(held[0].1))] + HeldEvents(held[1..])
  }

  function ItemEvent(x: Item): Event {
    match x
    case Note(c, text) => Event(1, Code32(c), Text(text))
    case Store(c, path, _) => Event(2, Code32(c), Path(path))
    case Dump(c, data) => Event(3, Code32(c), Blob(data))
    case Small(c, num) => Event(4, Code32(c), Num(num))
    case Large(c, wide) => Event(5, Code32(c), Num(wide))
    case Mark(c) => Event(6, Code32(c), Flag)
  }

  function ItemsEvents(items: seq<Item>): seq<Event> {
    if items == [] then [] else [ItemEvent(items[0])] + ItemsEvents(items[1..])
  }

  function EventsOf(r: Record): seq<Event> { HeldEvents(r.held) + ItemsEvents(r.items) }

  function Glued(parts: seq<seq<byte>>): seq<byte> {
    if parts == [] then [] else parts[0] + Glued(parts[1..])
  }

  function FilesIn(items: seq<Item>): seq<Output> {
    if items == [] then []
    else (if items[0].Store? then [Saved(items[0].path, Glued(items[0].parts))] else []) + FilesIn(items[1..])
  }

  /** The entry of a record under its name, if it has any events and its module is the one asked for. */
  function EntryFor(cfg: Config, r: Record): seq<Entry> {
    if EventsOf(r) != [] && (cfg.filter.None? || cfg.filter.value == r.name)
    then [Entry(r.name, Dict(EventsOf(r)), EventsOf(r))] else []
  }

  function EntriesFor(cfg: Config, rs: seq<Record>): seq<Entry> {
    if rs == [] then [] else EntryFor(cfg, rs[0]) + EntriesFor(cfg, rs[1..])
  }

  function Yielded(entries: seq<Entry>): seq<Output> {
    if entries == [] then [] else [Yield(entries[0])]
  }

  /** Records come out one after the other, the files of each before its entry. */
  function OutputsFor(cfg: Config, rs: seq<Record>): seq<Output> {
    if rs == [] then []
    else FilesIn(rs[0].items) + Yielded(EntryFor(cfg, rs[0])) + OutputsFor(cfg, rs[1..])
  }

  // ----- records that are kept whole

  /** The bytes that strings take in the deferral buffer. */
  function HeldSize(held: seq<(int32, seq<byte>)>): nat {
    if held == [] then 0 else (if held[0].0 == 0 then 4 else 8) + |held[0].1| + HeldSize(held[1..])
  }

  predicate PlainItem(cfg: Config, name: seq<byte>, x: Item) {
    match x
    case Note(_, text) => NoNul(text) && |text| <= 32767
    case Store(_, path, parts) =>
      && path != [] && |path| <= 65535 && Ascii(path) && NoDotDot(path) && path[0] != SLASH
      && ([42] in cfg.extractFor || name in cfg.extractFor)
      && forall i :: 0 <= i < |parts| ==> 0 < |parts[i]| <= 32768
    case _ => true
  }

  /** Names and strings are short enough, and files have clean names and are extracted for the module. */
  predicate Plain(cfg: Config, r: Record) {
    && |r.name| <= 255 && Ascii(r.name)
    && (forall i :: 0 <= i < |r.held| ==> NoNul(r.held[i].1))
    && 3 + |r.name| + HeldSize(r.held) + 5 <= 2048
    && (forall i :: 0 <= i < |r.items| ==> PlainItem(cfg, r.name, r.items[i]))
  }

  // ----- what the calls mean

  lemma {:induction false} ClearConcat(cfg: Config, log: Log, calls: seq<Call>, more: seq<Call>)
    ensures AllClear(cfg, log, calls + more)
      <==> (AllClear(cfg, log, calls) && AllClear(cfg, InterpretAll(cfg, log, calls), more))
    decreases |calls|
  {
    hide Interpret, Clear;
    if calls == [] {
      assert calls + more == more;
    } else {
      FirstOfConcat(calls, more);
      ClearConcat(cfg, Interpret(cfg, log, calls[0]), calls[1..], more);
    }
  }

  lemma {:induction false} GluedWhole(parts: seq<seq<byte>>)
    requires forall i :: 0 <= i < |parts| ==> parts[i] != []
    ensures Whole(parts) == Glued(parts)
  {
    if parts != [] {
      GluedWhole(parts[1..]);
    }
  }

  lemma CodeIs(c: int32)
    ensures CodeOf(c) == Code32(c)
  {
    CodeKept(c);
    Pow256Values();
    hide CodeOf;
  }

  /** The log once the waiting head is in force, with one more event and perhaps a file. */
  function WithItem(log: Log, x: Item): Log {
    log.(events := log.events + [ItemEvent(x)], out := log.out + FilesIn([x]))
  }

  lemma TwoCalls(cfg: Config, log: Log, one: Call, two: Call)
    ensures InterpretAll(cfg, log, [one, two]) == Interpret(cfg, Interpret(cfg, log, one), two)
    ensures AllClear(cfg, log, [one, two]) <==> Clear(cfg, log, one) && Clear(cfg, Interpret(cfg, log, one), two)
  {
    hide Interpret, Clear;
    FirstCall(cfg, log, one, [two], Interpret(cfg, log, one));
    LastCall(cfg, Interpret(cfg, log, one), two, Interpret(cfg, Interpret(cfg, log, one), two));
    assert [one] + [two] == [one, two];
  }

  lemma CommitCode(cfg: Config, log: Log, code: uint32)
    ensures Commit(cfg, log.(code := code)) == Commit(cfg, log).(code := code)
    ensures Commit(cfg, log).pending == None && Commit(cfg, Commit(cfg, log)) == Commit(cfg, log)
  {
  }

  lemma OneFileIn(x: Item)
    ensures FilesIn([x]) == if x.Store? then [Saved(x.path, Glued(x.parts))] else []
  {
    assert [x][1..] == [];
  }

  /** One item, behind a head that waits or in an entry of its own. */
  lemma ItemMeans(cfg: Config, log: Log, x: Item)
    requires log.code == 0 && PlainItem(cfg, Commit(cfg, log).name, x)
    ensures InterpretAll(cfg, log, ItemCalls(x)) == WithItem(Commit(cfg, log), x)
    ensures AllClear(cfg, log, ItemCalls(x))
  {
    hide Formatted, FilePath, Whole, Sanitize, EntryOf, FilesIn, Ascii, CodeOf;
    CodeIs(x.c);
    CommitCode(cfg, log, CodeOf(x.c));
    OneFileIn(x);
    var base := Commit(cfg, log);
    assert base.out + [] == base.out;
    match x
    case Note(c, text) => TwoCalls(cfg, log, CallCode(c), CallStr(text)); StringKept(0, 0, text);
    case Dump(c, data) => TwoCalls(cfg, log, CallCode(c), CallData(data));
    case Store(c, path, parts) =>
      TwoCalls(cfg, log, CallCode(c), CallFile(path, parts));
      StoreMeans(cfg, base.name, path, parts);
    case Small(c, num) => TwoCalls(cfg, log, CallCode(c), CallInt32(num));
    case Large(c, wide) => TwoCalls(cfg, log, CallCode(c), CallInt64(wide));
    case Mark(c) => LastCall(cfg, log, CallBit(c), Interpret(cfg, log, CallBit(c)));
  }

  lemma StoreMeans(cfg: Config, name: seq<byte>, path: seq<byte>, parts: seq<seq<byte>>)
    requires path != [] && |path| <= 65535 && NoDotDot(path) && path[0] != SLASH
    requires [42] in cfg.extractFor || name in cfg.extractFor
    requires forall i :: 0 <= i < |parts| ==> 0 < |parts[i]|
    ensures FilePath(path) == path && TargetPath(cfg, name, FilePath(path)) == path && ShouldExtract(cfg, name)
    ensures Whole(parts) == Glued(parts)
  {
    NameKept(path);
    Sanitized(path);
    GluedWhole(parts);
    assert STAR == [42];
  }

  lemma FilesFirst(x: Item, rest: seq<Item>)
    ensures FilesIn([x] + rest) == FilesIn([x]) + FilesIn(rest)
    ensures ItemsEvents([x] + rest) == [ItemEvent(x)] + ItemsEvents(rest)
  {
    assert ([x] + rest)[1..] == rest;
    OneFileIn(x);
  }

  /** Items in a row; what they leave once a head that may still wait is in force. */
  lemma {:induction false} ItemsMean(cfg: Config, log: Log, items: seq<Item>)
    requires log.code == 0 && forall i :: 0 <= i < |items| ==> PlainItem(cfg, Commit(cfg, log).name, items[i])
    ensures var base, end := Commit(cfg, log), InterpretAll(cfg, log, ItemsCalls(items));
      && end.code == 0
      && Commit(cfg, end) == base.(events := base.events + ItemsEvents(items), out := base.out + FilesIn(items))
    ensures AllClear(cfg, log, ItemsCalls(items))
    decreases |items|
  {
    hide Commit, PlainItem, ItemEvent, ItemCalls;
    var base := Commit(cfg, log);
    CommitFacts(cfg, log);
    if items == [] {
      assert base.events + [] == base.events && base.out + [] == base.out;
    } else {
      var x, rest := items[0], items[1..];
      var next := WithItem(base, x);
      ItemMeans(cfg, log, x);
      CommitFacts(cfg, next);
      ItemsMean(cfg, next, rest);
      InterpretConcat(cfg, log, ItemCalls(x), ItemsCalls(rest));
      ClearConcat(cfg, log, ItemCalls(x), ItemsCalls(rest));
      assert items == [x] + rest;
      FilesFirst(x, rest);
      Assoc(base.events, [ItemEvent(x)], ItemsEvents(rest));
      Assoc(base.out, FilesIn([x]), FilesIn(rest));
    }
  }

  lemma CommitFacts(cfg: Config, log: Log)
    ensures Commit(cfg, log).code == log.code && Commit(cfg, log).pending == None
    ensures log.pending == None ==> Commit(cfg, log) == log
  {
  }

  /** A head that waits with these strings behind it. */
  function Held(p: Pending, held: seq<(int32, seq<byte>)>): Pending {
    Pending(p.name, p.events + HeldEvents(held), p.used + HeldSize(held))
  }

  lemma OneHeld(cfg: Config, log: Log, c: int32, text: seq<byte>)
    requires log.pending.Some? && NoNul(text)
    requires log.pending.value.used + (if c == 0 then 4 else 8) + |text| + 5 <= 2048
    ensures var p := log.pending.value;
      InterpretAll(cfg, log, [CallCode(c), CallDeferStr(text)])
        == log.(code := 0,
                pending := Some(Pending(p.name, p.events + [Event(1, Code32(c), Text(text))],
                                        p.used + (if c == 0 then 4 else 8) + |text|)))
    ensures AllClear(cfg, log, [CallCode(c), CallDeferStr(text)])
  {
    hide Formatted, CodeOf;
    CodeIs(c);
    CodeKept(c);
    StringKept(log.pending.value.used, CodeOf(c), text);
    TwoCalls(cfg, log, CallCode(c), CallDeferStr(text));
  }

  lemma {:induction false} HeldMeans(cfg: Config, log: Log, held: seq<(int32, seq<byte>)>)
    requires log.pending.Some? && log.code == 0 && log.pending.value.used + HeldSize(held) + 5 <= 2048
    requires forall i :: 0 <= i < |held| ==> NoNul(held[i].1)
    ensures InterpretAll(cfg, log, Deferring(held)) == log.(pending := Some(Held(log.pending.value, held)))
    ensures AllClear(cfg, log, Deferring(held))
    decreases |held|
  {
    hide NoNul, Interpret;
    var p := log.pending.value;
    if held == [] {
      assert p.events + [] == p.events;
    } else {
      var (c, text) := held[0];
      var calls := [CallCode(c), CallDeferStr(text)];
      OneHeld(cfg, log, c, text);
      var next := InterpretAll(cfg, log, calls);
      HeldMeans(cfg, next, held[1..]);
      InterpretConcat(cfg, log, calls, Deferring(held[1..]));
      ClearConcat(cfg, log, calls, Deferring(held[1..]));
      Assoc(p.events, [Event(1, Code32(c), Text(text))], HeldEvents(held[1..]));
    }
  }

  lemma HeadCall(cfg: Config, log: Log, name: seq<byte>)
    requires log.code == 0 && |name| <= 255 && Ascii(name)
    ensures Interpret(cfg, log, CallHead(name)) == log.(pending := Some(Pending(name, [], 3 + |name|)))
    ensures Clear(cfg, log, CallHead(name))
  {
    NameKept(name);
    hide HeadName;
  }

  lemma FlushCall(cfg: Config, log: Log)
    ensures InterpretAll(cfg, log, [CallFlush]) == Commit(cfg, log) && AllClear(cfg, log, [CallFlush])
  {
    LastCall(cfg, log, CallFlush, Commit(cfg, log));
  }

  /** The log after a whole record. */
  function WithRecord(cfg: Config, log: Log, r: Record): Log {
    Log(Finish(cfg, log) + FilesIn(r.items), r.name, EventsOf(r), None, 0)
  }

  /** A record closes the entry before it and is then all there is in the entry under way. */
  lemma RecordMeans(cfg: Config, log: Log, r: Record)
    requires log.pending == None && log.code == 0 && Plain(cfg, r)
    ensures InterpretAll(cfg, log, RecordCalls(r)) == WithRecord(cfg, log, r)
    ensures AllClear(cfg, log, RecordCalls(r))
  {
    hide Interpret, Clear, EntryOf, PlainItem, FilesIn, ItemsEvents, HeldEvents, Ascii, NoNul;
    var held, items := Deferring(r.held), ItemsCalls(r.items);
    var log1 := log.(pending := Some(Pending(r.name, [], 3 + |r.name|)));
    HeadCall(cfg, log, r.name);
    HeldMeans(cfg, log1, r.held);
    var log2 := log1.(pending := Some(Held(log1.pending.value, r.held)));
    assert [] + HeldEvents(r.held) == HeldEvents(r.held);
    ItemsMean(cfg, log2, r.items);
    var log3 := InterpretAll(cfg, log2, items);
    FlushCall(cfg, log3);
    InterpretConcat(cfg, log2, items, [CallFlush]);
    ClearConcat(cfg, log2, items, [CallFlush]);
    InterpretConcat(cfg, log1, held, items + [CallFlush]);
    ClearConcat(cfg, log1, held, items + [CallFlush]);
    FirstCall(cfg, log, CallHead(r.name), held + (items + [CallFlush]), log1);
  }

  lemma EntryIs(cfg: Config, r: Record)
    ensures EntryOf(cfg, r.name, EventsOf(r)) == Yielded(EntryFor(cfg, r))
  {
  }

  lemma {:induction false} RecordsFollow(cfg: Config, log: Log, rs: seq<Record>)
    requires log.pending == None && log.code == 0 && forall i :: 0 <= i < |rs| ==> Plain(cfg, rs[i])
    ensures Finish(cfg, InterpretAll(cfg, log, RecordsCalls(rs))) == Finish(cfg, log) + OutputsFor(cfg, rs)
    ensures AllClear(cfg, log, RecordsCalls(rs))
    decreases |rs|
  {
    hide Plain, RecordCalls, FilesIn, EventsOf, EntryFor, EntryOf, Interpret, Clear;
    if rs == [] {
      assert Finish(cfg, log) + [] == Finish(cfg, log);
    } else {
      var r, rest := rs[0], rs[1..];
      RecordMeans(cfg, log, r);
      var next := WithRecord(cfg, log, r);
      RecordsFollow(cfg, next, rest);
      InterpretConcat(cfg, log, RecordCalls(r), RecordsCalls(rest));
      ClearConcat(cfg, log, RecordCalls(r), RecordsCalls(rest));
      EntryIs(cfg, r);
      Assoc(Finish(cfg, log), FilesIn(r.items), Yielded(EntryFor(cfg, r)));
      Assoc(Finish(cfg, log), FilesIn(r.items) + Yielded(EntryFor(cfg, r)), OutputsFor(cfg, rest));
    }
  }

  lemma NothingWritten(cfg: Config)
    ensures Finish(cfg, NEWLOG) == []
  {
  }

  /** Records mean what they say: the files of each, and then its entry under its name, with an event for every string
      and item, of the numbered kind, with its code and its value. */
  lemma RecordsMean(cfg: Config, rs: seq<Record>)
    requires forall i :: 0 <= i < |rs| ==> Plain(cfg, rs[i])
    ensures Written(cfg, RecordsCalls(rs)) == OutputsFor(cfg, rs)
    ensures AllClear(cfg, NEWLOG, RecordsCalls(rs))
  {
    hide Plain, Finish, InterpretAll, AllClear;
    RecordsFollow(cfg, NEWLOG, rs);
    NothingWritten(cfg);
    assert [] + OutputsFor(cfg, rs) == OutputsFor(cfg, rs);
  }

  // ----- and come back

  lemma {:induction false} FramedConcat(calls: seq<Call>, more: seq<Call>)
    ensures AllFramed(calls + more) <==> AllFramed(calls) && AllFramed(more)
  {
    hide Framed;
    assert forall i :: 0 <= i < |calls| ==> (calls + more)[i] == calls[i];
    assert forall i :: 0 <= i < |more| ==> (calls + more)[|calls| + i] == more[i];
  }

  lemma {:induction false} ItemsFramed(cfg: Config, name: seq<byte>, items: seq<Item>)
    requires forall i :: 0 <= i < |items| ==> PlainItem(cfg, name, items[i])
    ensures AllFramed(ItemsCalls(items))
  {
    if items != [] {
      ItemsFramed(cfg, name, items[1..]);
      FramedConcat(ItemCalls(items[0]), ItemsCalls(items[1..]));
    }
  }

  lemma {:induction false} HeldFramed(held: seq<(int32, seq<byte>)>)
    ensures AllFramed(Deferring(held))
  {
    if held != [] {
      HeldFramed(held[1..]);
      FramedConcat([CallCode(held[0].0), CallDeferStr(held[0].1)], Deferring(held[1..]));
    }
  }

  lemma {:induction false} RecordsFramed(cfg: Config, rs: seq<Record>)
    requires forall i :: 0 <= i < |rs| ==> Plain(cfg, rs[i])
    ensures AllFramed(RecordsCalls(rs))
  {
    hide PlainItem;
    if rs != [] {
      var r := rs[0];
      RecordsFramed(cfg, rs[1..]);
      ItemsFramed(cfg, r.name, r.items);
      HeldFramed(r.held);
      FramedConcat(ItemsCalls(r.items), [CallFlush]);
      FramedConcat(Deferring(r.held), ItemsCalls(r.items) + [CallFlush]);
      FramedConcat([CallHead(r.name)], Deferring(r.held) + (ItemsCalls(r.items) + [CallFlush]));
      FramedConcat(RecordCalls(r), RecordsCalls(rs[1..]));
    }
  }

  lemma {:induction false} FilesYieldNothing(items: seq<Item>)
    ensures YieldsOf(FilesIn(items)) == []
  {
    if items != [] {
      FilesYieldNothing(items[1..]);
      OneFileIn(items[0]);
      YieldsOfConcat(FilesIn([items[0]]), FilesIn(items[1..]));
      assert FilesIn([items[0]]) != [] ==> FilesIn([items[0]])[1..] == [];
    }
  }

  lemma {:induction false} EntriesAmong(cfg: Config, rs: seq<Record>)
    ensures YieldsOf(OutputsFor(cfg, rs)) == EntriesFor(cfg, rs)
  {
    hide EventsOf;
    if rs != [] {
      var r := rs[0];
      EntriesAmong(cfg, rs[1..]);
      FilesYieldNothing(r.items);
      YieldsOfConcat(FilesIn(r.items), Yielded(EntryFor(cfg, r)));
      YieldsOfConcat(FilesIn(r.items) + Yielded(EntryFor(cfg, r)), OutputsFor(cfg, rs[1..]));
      assert Yielded(EntryFor(cfg, r)) != [] ==> Yielded(EntryFor(cfg, r))[1..] == [];
      assert [] + EntryFor(cfg, r) == EntryFor(cfg, r);
    }
  }

  /** The records of each thread. */
  ghost function RecordsOf(threads: map<byte, seq<Record>>, t: byte): seq<Record> {
    if t in threads then threads[t] else []
  }

  ghost predicate AllPlain(cfg: Config, threads: map<byte, seq<Record>>) {
    forall t: byte, i :: 0 <= i < |RecordsOf(threads, t)| ==> Plain(cfg, RecordsOf(threads, t)[i])
  }

  /** The log holds the packets of every thread's records, interleaved in any way. */
  ghost predicate Logged(tps: seq<Tagged>, threads: map<byte, seq<Record>>) {
    forall t: byte :: Project(tps, t) == Packets(NEWPEN, RecordsCalls(RecordsOf(threads, t)))
  }

  /** However the packets of several threads' records alternate in the log, one pass gives back each thread's records:
      every one with its name, its events, their codes and values, in order. */
  lemma RecordsComeBack(cfg: Config, disk: Files, threads: map<byte, seq<Record>>, tps: seq<Tagged>, t: byte)
    requires AllPlain(cfg, threads) && Logged(tps, threads)
    ensures var pass := Entries(cfg, disk, EMPTY, EncodeTagged(cfg.order, tps));
      pass.ok && YieldsOf(Project(pass.out, t)) == EntriesFor(cfg, RecordsOf(threads, t))
  {
    hide Plain, Entries, EncodeTagged, Written, Packets, RecordsCalls, YieldsOf, OutputsFor, EntriesFor, AllClear,
      AllFramed, Survive, GrantedTo, Project;
    var calls := map u: byte | u in threads :: RecordsCalls(threads[u]);
    NoRecords();
    forall u: byte
      ensures CallsOf(calls, u) == RecordsCalls(RecordsOf(threads, u))
      ensures AllFramed(CallsOf(calls, u)) && AllClear(cfg, NEWLOG, CallsOf(calls, u))
    {
      RecordsMean(cfg, RecordsOf(threads, u));
      RecordsFramed(cfg, RecordsOf(threads, u));
    }
    assert Understood(cfg, calls) by {
      forall u | u in calls ensures AllFramed(calls[u]) && AllClear(cfg, NEWLOG, calls[u]) {
        assert CallsOf(calls, u) == calls[u];
      }
    }
    LogKeepsEveryThread(cfg, disk, calls, tps, t);
    RecordsMean(cfg, RecordsOf(threads, t));
    EntriesAmong(cfg, RecordsOf(threads, t));
  }

  lemma NoRecords()
    ensures RecordsCalls([]) == []
  {
  }

  /** A string deferred while no head waits is sent at once, like any other. */
  lemma DeferWithoutHead(cfg: Config, log: Log, pen: Pen, text: seq<byte>)
    ensures log.pending == None ==> Interpret(cfg, log, CallDeferStr(text)) == Interpret(cfg, log, CallStr(text))
    ensures pen.deferred == [] ==> Step(pen, CallDeferStr(text)) == Step(pen, CallStr(text))
  {
    hide Formatted;
    assert [] + [Str(pen.code, Formatted(text))] == [Str(pen.code, Formatted(text))];
  }
}
