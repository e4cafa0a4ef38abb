/** Which stored files a reader extracts: those of the modules it was told, or of all with "*". */
module CbaExtract {
  import opened Sequences
  import opened Bytes
  import opened CbaFormat
  import opened CbaDecode
  import opened CbaFiles
  import opened CbaInterleave
  import opened CbaCalls
  import opened CbaRecords

  /** The module of the entry a thread has under way behind this log: that of its last head. */
  function ModuleAt(tps: seq<Tagged>, t: byte): Name {
    if tps == [] then []
    else
      var n := |tps| - 1;
      if tps[n].0 == t && tps[n].1.Head? then tps[n].1.name else ModuleAt(tps[..n], t)
  }

  lemma {:induction false} NamesFollow(names: map<byte, Name>, tps: seq<Tagged>, t: byte)
    ensures NameOf(NamesAll(names, tps), t) == if HasHead(tps, t) then ModuleAt(tps, t) else NameOf(names, t)
    decreases |tps|
  {
    if tps != [] {
      var n := |tps| - 1;
      NamesFollow(names, tps[..n], t);
      NamesLast(names, tps);
    }
  }

  predicate HasHead(tps: seq<Tagged>, t: byte) {
    tps != [] && ((tps[|tps| - 1].0 == t && tps[|tps| - 1].1.Head?) || HasHead(tps[..|tps| - 1], t))
  }

  lemma {:induction false} NamesLast(names: map<byte, Name>, tps: seq<Tagged>)
    requires tps != []
    ensures var n := |tps| - 1;
      NamesAll(names, tps) == NamesAfter(NamesAll(names, tps[..n]), tps[n].0, tps[n].1)
    decreases |tps|
  {
    if |tps| > 1 {
      var n := |tps| - 1;
      NamesLast(NamesAfter(names, tps[0].0, tps[0].1), tps[1..]);
      assert tps[..n][1..] == tps[1..][..n - 1];
    } else {
      assert tps[1..] == [] && tps[..0] == [];
    }
  }

  lemma {:induction false} NoHead(tps: seq<Tagged>, t: byte)
    requires !HasHead(tps, t)
    ensures ModuleAt(tps, t) == []
  {
    if tps != [] {
      NoHead(tps[..|tps| - 1], t);
    }
  }

  /** The state of a thread has the name of its last head. */
  lemma {:induction false} StateName(cfg: Config, tps: seq<Tagged>, t: byte)
    ensures Play(cfg, FRESH, Project(tps, t)).0.name == ModuleAt(tps, t)
    decreases |tps|
  {
    hide Apply;
    if tps != [] {
      var n := |tps| - 1;
      var (u, p) := tps[n];
      StateName(cfg, tps[..n], t);
      LastPacket(cfg, tps[..n], u, p, t);
      assert tps == tps[..n] + [(u, p)];
      ApplyAlike(cfg, true, Play(cfg, FRESH, Project(tps[..n], t)).0, p);
    }
  }

  lemma LastPacket(cfg: Config, tps: seq<Tagged>, u: byte, p: Packet, t: byte)
    ensures var ts := Play(cfg, FRESH, Project(tps, t)).0;
      Play(cfg, FRESH, Project(tps + [(u, p)], t)).0 == if u == t then Apply(cfg, true, ts, p).0 else ts
  {
    hide Apply;
    ProjectConcat(tps, [(u, p)], t);
    assert [(u, p)][1..] == [];
    if u == t {
      assert Project([(u, p)], t) == [p];
      PlayConcat(cfg, FRESH, Project(tps, t), [p]);
      assert [p][1..] == [];
    } else {
      assert Project(tps, t) + [] == Project(tps, t);
    }
  }

  /** A named file in the log is asked for, and its event recorded, if and only if the module of the entry under way, or
      every module, is to be extracted. Names that come to nothing, such as "..", are never asked for. */
  lemma ExtractedExactly(cfg: Config, tps: seq<Tagged>, t: byte, code: uint32, path: Name)
    requires path != [] && Sanitize(path) != []
    ensures var now := tps + [(t, File(code, path))];
      var asked := [42] in cfg.extractFor || ModuleAt(tps, t) in cfg.extractFor;
      && Wanted(cfg, map[], now) == Wanted(cfg, map[], tps) + (if asked then [(t, Sanitize(path))] else [])
      && Play(cfg, FRESH, Project(now, t)).0.events
         == Play(cfg, FRESH, Project(tps, t)).0.events
            + (if asked then [Event(2, code, Path(Sanitize(path)))] else [])
  {
    hide Sanitize;
    var p := File(code, path);
    NamesFollow(map[], tps, t);
    if !HasHead(tps, t) { NoHead(tps, t); }
    WantedConcat(cfg, map[], tps, [(t, p)]);
    OneWanted(cfg, NamesAll(map[], tps), t, p);
    StateName(cfg, tps, t);
    LastPacket(cfg, tps, t, p, t);
    hide Wanted, Play;
    var events := Play(cfg, FRESH, Project(tps, t)).0.events;
    assert events + [] == events;
  }

  lemma OneWanted(cfg: Config, names: map<byte, Name>, t: byte, p: Packet)
    requires p.File?
    ensures Wanted(cfg, names, [(t, p)])
      == if Asks(cfg, NameOf(names, t), p) then [(t, TargetPath(cfg, NameOf(names, t), p.path))] else []
  {
    hide TargetPath;
    assert [(t, p)][1..] == [];
    assert Wanted(cfg, names, []) == [];
  }

  /** The reader takes a file's name off the file if and only if it extracts for the module; otherwise it takes the two
      bytes of the length only, and ignores the chunks. */
  lemma NameTakenExactly(cfg: Config, disk: set<Name>, ts: State, code: uint32, path: Name, rest: seq<byte>)
    requires ts.stream == Closed && path != [] && |path| < 0x1_0000 && Ascii(path)
    ensures var r := ReadPacket(cfg, disk, ts, Encode(cfg.order, File(code, path)) + rest);
      var asked := [42] in cfg.extractFor || ts.name in cfg.extractFor;
      && r.Parsed? && (r.used == |Encode(cfg.order, File(code, path))| <==> asked)
      && (!asked ==> r.used == HeaderLen(code) + 2 && r.ts.stream == Ignore && r.ts.events == ts.events)
      && (asked && Sanitize(path) != [] ==> r.ts.events == ts.events + [Event(2, code, Path(Sanitize(path)))])
  {
    hide Enc, Dec, Sanitize;
    var p := File(code, path);
    if [42] in cfg.extractFor || ts.name in cfg.extractFor {
      PacketRead(cfg, disk, ts, p, rest);
    } else {
      var head, body := Header(cfg.order, 2, code), Body(cfg.order, p);
      HeaderRead(cfg, disk, ts, 2, code, body + rest);
      Assoc(head, body, rest);
      Pow256Values();
      assert head + (body + rest) == head + Enc(cfg.order, 2, |path|) + (path + rest);
      Field(cfg.order, 2, |path|, head, path + rest);
    }
  }

  lemma StoredEvents(name: Name, path: Name, data: seq<byte>)
    ensures var r := Record(name, [], [Store(0, path, [data])]);
      var event := Event(2, 0, Path(path));
      && EventsOf(r) == [event] && Dict([event]) == map[0 := Path(path)]
      && FilesIn(r.items) == [Saved(path, data)]
  {
    var x := Store(0, path, [data]);
    assert [x][1..] == [] && [data][1..] == [];
    assert Glued([data]) == data + [] == data;
    var event := Event(2, 0, Path(path));
    assert ItemsEvents([x]) == [event] + [] == [event];
    assert [] + [event] == [event] && [event][..0] == [];
    assert FilesIn([x]) == [Saved(path, data)] + [];
  }

  lemma OneRecord(cfg: Config, r: Record, files: seq<Output>, entry: Entry)
    requires Plain(cfg, r) && FilesIn(r.items) == files && EntryFor(cfg, r) == [entry]
    ensures Written(cfg, RecordCalls(r)) == files + [Yield(entry)]
  {
    hide Written, RecordCalls, FilesIn, EntryFor, Plain;
    RecordsMean(cfg, [r]);
    assert [r][1..] == [];
    assert RecordsCalls([r]) == RecordCalls(r) + [] == RecordCalls(r);
    assert OutputsFor(cfg, []) == [];
    assert OutputsFor(cfg, [r]) == files + [Yield(entry)] + [] == files + [Yield(entry)];
  }

  /** For instance a reader told to extract for the module "rfb" gets its file "a". */
  lemma OneModuleAsked(cfg: Config, data: seq<byte>)
    requires cfg.extractFor == {[114, 102, 98]} && cfg.filter.None? && 0 < |data| <= 32768
    ensures var calls := RecordCalls(Record([114, 102, 98], [], [Store(0, [97], [data])]));
      var event := Event(2, 0, Path([97]));
      Written(cfg, calls) == [Saved([97], data), Yield(Entry([114, 102, 98], map[0 := Path([97])], [event]))]
  {
    var r := Record([114, 102, 98], [], [Store(0, [97], [data])]);
    hide Written, RecordCalls, FilesIn, EventsOf, Dict;
    StoredEvents([114, 102, 98], [97], data);
    OneRecord(cfg, r, [Saved([97], data)],
              Entry([114, 102, 98], map[0 := Path([97])], [Event(2, 0, Path([97]))]));
  }
}
