/** Reading back what was written: one packet, one thread, and any interleaving of threads. */
module CbaInterleave {
  import opened Sequences
  import opened Bytes
  import opened CbaFormat
  import opened CbaDecode
  import opened CbaFiles

  lemma Field(order: Order, k: nat, n: nat, pre: seq<byte>, rest: seq<byte>)
    requires n < Pow256(k)
    ensures var s := pre + Enc(order, k, n) + rest;
      |s| >= |pre| + k && Dec(order, s[|pre|..|pre| + k]) == n && s[|pre| + k..] == rest
  {
    DecEnc(order, k, n);
    var s := pre + Enc(order, k, n) + rest;
    assert s[|pre|..|pre| + k] == Enc(order, k, n);
  }

  lemma SignedUnsigned(k: nat, v: int)
    requires -(Pow256(k) as int) <= 2 * v < Pow256(k)
    ensures 0 <= Unsigned(k, v) < Pow256(k)
    ensures Signed(k, Unsigned(k, v)) == v
  {
  }

  /** The reader takes a header apart and goes on with the body. */
  lemma HeaderRead(cfg: Config, disk: set<Name>, ts: State, kind: byte, code: uint32, rest: seq<byte>)
    requires kind < 0x80
    ensures var s := Header(cfg.order, kind, code) + rest;
      ReadEvent(cfg, disk, ts, s) == ReadBody(cfg, disk, ts, kind, code, s, HeaderLen(code))
  {
    if code != 0 {
      Pow256Values();
      Field(cfg.order, 4, code, [(kind + 0x80) as byte], rest);
    }
  }

  lemma ChunkRead(cfg: Config, disk: set<Name>, ts: State, data: seq<byte>, rest: seq<byte>)
    requires Coherent(ts) && Fits(cfg, ts, Chunk(data))
    ensures var (ts', out) := Apply(cfg, false, ts, Chunk(data));
      ReadPacket(cfg, disk, ts, Encode(cfg.order, Chunk(data)) + rest)
        == Parsed(ts', out, |Encode(cfg.order, Chunk(data))|)
  {
    hide Enc, Dec;
    Pow256Values();
    Field(cfg.order, 2, |data|, [], data + rest);
    var s := Encode(cfg.order, Chunk(data)) + rest;
    assert s == [] + Enc(cfg.order, 2, |data|) + (data + rest);
    assert s[2..] == data + rest;
    assert Take(s[2..], |data|) == data;
  }

  lemma NameRead(cfg: Config, disk: set<Name>, ts: State, p: Packet, head: seq<byte>, rest: seq<byte>)
    requires p.Head? && Fits(cfg, ts, p)
    ensures BodyReads(cfg, disk, ts, p, head, rest)
  {
    hide Enc, Dec, Pow256;
    var s := head + Body(cfg.order, p) + rest;
    assert s[|head|] == |p.name|;
    assert s[|head| + 1..] == p.name + rest;
    assert Take(p.name + rest, |p.name|) == p.name;
  }

  lemma TextRead(cfg: Config, disk: set<Name>, ts: State, p: Packet, head: seq<byte>, rest: seq<byte>)
    requires (p.Str? || p.File?) && Fits(cfg, ts, p)
    ensures BodyReads(cfg, disk, ts, p, head, rest)
  {
    hide Enc, Dec, Sanitize, CanOpen;
    var t := if p.Str? then p.text else p.path;
    FieldText(cfg.order, t, head, rest);
    assert p.File? && t == [] ==> Sanitize(t) == [] by { EmptyName(); }
  }

  lemma EmptyName()
    ensures Sanitize([]) == []
  {
  }

  lemma FieldText(order: Order, t: seq<byte>, head: seq<byte>, rest: seq<byte>)
    requires |t| < 0x1_0000
    ensures var s := head + (Enc(order, 2, |t|) + t) + rest;
      && |s| >= |head| + 2 && Dec(order, s[|head|..|head| + 2]) == |t|
      && Take(s[|head| + 2..], |t|) == t
  {
    hide Enc, Dec;
    Pow256Values();
    assert head + (Enc(order, 2, |t|) + t) + rest == head + Enc(order, 2, |t|) + (t + rest);
    Field(order, 2, |t|, head, t + rest);
  }

  lemma NumRead(cfg: Config, disk: set<Name>, ts: State, p: Packet, head: seq<byte>, rest: seq<byte>)
    requires (p.Int32? || p.Int64?) && Fits(cfg, ts, p)
    ensures BodyReads(cfg, disk, ts, p, head, rest)
  {
    hide Enc, Dec;
    var k, v := if p.Int32? then 4 else 8, if p.Int32? then p.num else p.wide;
    Pow256Values();
    SignedUnsigned(k, v);
    Field(cfg.order, k, Unsigned(k, v), head, rest);
  }

  /** The packet asks for a file and gets it. */
  predicate Opens(cfg: Config, disk: set<Name>, name: Name, p: Packet) {
    Asks(cfg, name, p) && CanOpen(cfg, disk, TargetPath(cfg, name, p.path))
  }

  /** What the body of a packet does after its header `head`, whatever follows. */
  ghost predicate BodyReads(cfg: Config, disk: set<Name>, ts: State, p: Packet, head: seq<byte>, rest: seq<byte>)
    requires !p.Chunk?
  {
    var (ts', out) := Apply(cfg, Opens(cfg, disk, ts.name, p), ts, p);
    ReadBody(cfg, disk, ts, Kind(p), p.code, head + Body(cfg.order, p) + rest, |head|)
      == Parsed(ts', out, |head + Body(cfg.order, p)|)
  }

  lemma BodyRead(cfg: Config, disk: set<Name>, ts: State, p: Packet, head: seq<byte>, rest: seq<byte>)
    requires !p.Chunk? && Fits(cfg, ts, p)
    ensures BodyReads(cfg, disk, ts, p, head, rest)
  {
    match p
    case Head(_, _) => NameRead(cfg, disk, ts, p, head, rest);
    case Str(_, _) => TextRead(cfg, disk, ts, p, head, rest);
    case File(_, _) => TextRead(cfg, disk, ts, p, head, rest);
    case Int32(_, _) => NumRead(cfg, disk, ts, p, head, rest);
    case Int64(_, _) => NumRead(cfg, disk, ts, p, head, rest);
    case Data(_) =>
    case Bit(_) =>
  }

  /** Reading a packet's bytes does to the thread's state exactly what the packet says, and stops at its end. */
  lemma PacketRead(cfg: Config, disk: set<Name>, ts: State, p: Packet, rest: seq<byte>)
    requires Coherent(ts) && Fits(cfg, ts, p)
    ensures var (ts', out) := Apply(cfg, Opens(cfg, disk, ts.name, p), ts, p);
      ReadPacket(cfg, disk, ts, Encode(cfg.order, p) + rest) == Parsed(ts', out, |Encode(cfg.order, p)|)
  {
    if p.Chunk? {
      ChunkRead(cfg, disk, ts, p.data, rest);
    } else {
      var head, body := Header(cfg.order, Kind(p), p.code), Body(cfg.order, p);
      BodyRead(cfg, disk, ts, p, head, rest);
      HeaderRead(cfg, disk, ts, Kind(p), p.code, body + rest);
      Assoc(head, body, rest);
    }
  }

  lemma ApplyCoherent(cfg: Config, ok: bool, ts: State, p: Packet)
    requires Coherent(ts) && Fits(cfg, ts, p)
    ensures Coherent(Apply(cfg, ok, ts, p).0)
  {
  }

  /** What can be read next does not depend on which files were granted. */
  lemma {:induction false} LegibleAlike(cfg: Config, a: State, b: State, ps: seq<Packet>)
    requires a.name == b.name && (a.stream == Closed <==> b.stream == Closed)
    ensures Legible(cfg, a, ps) <==> Legible(cfg, b, ps)
    decreases |ps|
  {
    hide Apply, ShouldExtract;
    if ps != [] {
      var p := ps[0];
      StreamAfter(cfg, a, p);
      StreamAfter(cfg, b, p);
      LegibleAlike(cfg, Apply(cfg, true, a, p).0, Apply(cfg, true, b, p).0, ps[1..]);
    }
  }

  lemma StreamAfter(cfg: Config, ts: State, p: Packet)
    ensures var after := Apply(cfg, true, ts, p).0;
      && after.name == (if p.Head? then p.name else ts.name)
      && (after.stream == Closed <==>
            p.Head? || (p.Chunk? && p.data == []) || (ts.stream == Closed && !p.File? && !p.Data?))
  {
    hide TargetPath;
  }

  // ----- any number of threads

  lemma {:induction false} FinalProject(cfg: Config, states: map<byte, State>, ids: seq<byte>, t: byte)
    requires forall u :: u in ids ==> u in states
    requires forall i, j :: 0 <= i < j < |ids| ==> ids[i] != ids[j]
    ensures Project(ReadFinal(cfg, states, ids), t) == if t in ids then Result(cfg, states[t]) else []
  {
    if ids != [] {
      var out := Result(cfg, states[ids[0]]);
      FinalProject(cfg, states, ids[1..], t);
      ProjectTag(out, ids[0], t);
      ProjectConcat(Tag(ids[0], out), ReadFinal(cfg, states, ids[1..]), t);
      assert t in ids <==> t == ids[0] || t in ids[1..];
    }
  }

  /** Every thread's part of the file can be read in the state the table holds for it. */
  ghost predicate Readable(cfg: Config, table: Table, tps: seq<Tagged>) {
    && table.Valid()
    && (forall u: byte :: Coherent(table.Get(u)))
    && (forall u: byte :: Legible(cfg, table.Get(u), Project(tps, u)))
  }

  lemma ReadableStep(cfg: Config, ok: bool, table: Table, tps: seq<Tagged>)
    requires Readable(cfg, table, tps) && tps != []
    ensures var (tid, p) := tps[0];
      && Fits(cfg, table.Get(tid), p)
      && Readable(cfg, table.Put(tid, Apply(cfg, ok, table.Get(tid), p).0), tps[1..])
  {
    hide Apply, Fits, Coherent;
    var (tid, p) := tps[0];
    var ts := table.Get(tid);
    assert Project(tps, tid) == [p] + Project(tps[1..], tid);
    assert Legible(cfg, ts, Project(tps, tid));
    assert Project(tps, tid)[1..] == Project(tps[1..], tid);
    ApplyCoherent(cfg, ok, ts, p);
    ApplyAlike(cfg, ok, ts, p);
    LegibleAlike(cfg, Apply(cfg, ok, ts, p).0, Apply(cfg, true, ts, p).0, Project(tps[1..], tid));
    var next := table.Put(tid, Apply(cfg, ok, ts, p).0);
    forall u: byte ensures Legible(cfg, next.Get(u), Project(tps[1..], u)) {
      assert Legible(cfg, table.Get(u), Project(tps, u));
      if u != tid {
        assert Project(tps, u) == Project(tps[1..], u);
      }
    }
  }

  lemma ApplyAlike(cfg: Config, ok: bool, ts: State, p: Packet)
    ensures var (a, out) := Apply(cfg, ok, ts, p);
      var b := Apply(cfg, true, ts, p).0;
      && a.name == b.name && (a.stream == Closed <==> b.stream == Closed)
      && a.name == (if p.Head? then p.name else ts.name)
    ensures !Asks(cfg, ts.name, p) || ok ==> Apply(cfg, ok, ts, p) == Apply(cfg, true, ts, p)
  {
  }

  /** The table knows the module each thread is in. */
  ghost predicate Named(table: Table, names: map<byte, Name>) {
    forall u: byte :: table.Get(u).name == NameOf(names, u)
  }

  /** The threads' modules after a packet. */
  function NamesAfter(names: map<byte, Name>, tid: byte, p: Packet): map<byte, Name> {
    if p.Head? then names[tid := p.name] else names
  }

  /** De-interleaving. However the packets of the threads alternate in the file, one pass of the reader
      yields for each thread what that thread's own packets say, and nothing else; the files asked for are granted
      in the order of the file. */
  lemma {:induction false} ShuffleRead(cfg: Config, disk: Files, table: Table, names: map<byte, Name>,
                                       tps: seq<Tagged>, t: byte)
    requires Readable(cfg, table, tps) && Named(table, names)
    ensures var pass := Entries(cfg, disk, table, EncodeTagged(cfg.order, tps));
      var oks := Project(Granted(cfg, disk.Keys, Wanted(cfg, names, tps)), t);
      pass.ok && Project(pass.out, t) == ReadingWith(cfg, table.Get(t), Project(tps, t), oks)
    decreases |tps|
  {
    hide Apply, Readable, Fits, Coherent, EncodeTagged, DiskAfter, NamesAfter, Opens, Granted, Wanted, Entries,
      ReadingWith, Asks, Tag, Project, Table.Put, Table.Get, Table.Valid;
    ReadableNow(cfg, table, tps);
    if tps == [] {
      NothingLeft(cfg, disk, table, t, Project(Granted(cfg, disk.Keys, Wanted(cfg, names, tps)), t));
    } else {
      var (tid, p) := tps[0];
      var ts := table.Get(tid);
      var ok := Opens(cfg, disk.Keys, ts.name, p);
      var (ts', out) := Apply(cfg, ok, ts, p);
      var next, disk', names' := table.Put(tid, ts'), DiskAfter(cfg, disk, ts, ts'), NamesAfter(names, tid, p);
      ReadableStep(cfg, ok, table, tps);
      NamedStep(cfg, ok, table, names, tid, p);
      EntriesStep(cfg, disk, table, tps);
      ShuffleRead(cfg, disk', next, names', tps[1..], t);
      OutStep(tid, out, Entries(cfg, disk', next, EncodeTagged(cfg.order, tps[1..])).out, t);
      GrantStep(cfg, disk, ts, names, tps, t);
      OpensAsks(cfg, disk.Keys, ts.name, p);
      ReadingStep(cfg, ok, table.Get(t), ts, tps, t,
                  Project(Granted(cfg, disk'.Keys, Wanted(cfg, names', tps[1..])), t));
    }
  }

  lemma OutStep(tid: byte, out: seq<Output>, more: seq<(byte, Output)>, t: byte)
    ensures Project(Tag(tid, out) + more, t) == if t == tid then out + Project(more, t) else Project(more, t)
  {
    hide Project, Tag;
    ProjectTag(out, tid, t);
    ProjectConcat(Tag(tid, out), more, t);
    assert [] + Project(more, t) == Project(more, t);
  }

  /** The pass over a packet and the rest. */
  lemma EntriesStep(cfg: Config, disk: Files, table: Table, tps: seq<Tagged>)
    requires table.Valid() && tps != []
    requires Coherent(table.Get(tps[0].0)) && Fits(cfg, table.Get(tps[0].0), tps[0].1)
    ensures var (tid, p) := tps[0];
      var ts := table.Get(tid);
      var (ts', out) := Apply(cfg, Opens(cfg, disk.Keys, ts.name, p), ts, p);
      var after := Entries(cfg, DiskAfter(cfg, disk, ts, ts'), table.Put(tid, ts'), EncodeTagged(cfg.order, tps[1..]));
      Entries(cfg, disk, table, EncodeTagged(cfg.order, tps))
        == Outcome(Tag(tid, out) + after.out, after.ok, after.disk)
  {
    hide Apply, Fits, Coherent, Encode, EncodeTagged, ReadPacket, DiskAfter, Opens, Entries, Table.Put, Table.Get,
      Table.Valid, Tag;
    var (tid, p) := tps[0];
    var ts := table.Get(tid);
    var (ts', out) := Apply(cfg, Opens(cfg, disk.Keys, ts.name, p), ts, p);
    var rest := EncodeTagged(cfg.order, tps[1..]);
    EncodeTaggedFirst(cfg.order, tps);
    PacketRead(cfg, disk.Keys, ts, p, rest);
    PassStep(cfg, disk, table, tid, Encode(cfg.order, p), rest, ts', out);
  }

  lemma ReadableNow(cfg: Config, table: Table, tps: seq<Tagged>)
    requires Readable(cfg, table, tps)
    ensures table.Valid() && forall u: byte :: Coherent(table.Get(u))
  {
  }

  lemma OpensAsks(cfg: Config, disk: set<Name>, name: Name, p: Packet)
    ensures Opens(cfg, disk, name, p) ==> Asks(cfg, name, p)
  {
  }

  lemma NothingLeft(cfg: Config, disk: Files, table: Table, t: byte, oks: seq<bool>)
    requires table.Valid()
    ensures var pass := Entries(cfg, disk, table, EncodeTagged(cfg.order, []));
      pass.ok && Project(pass.out, t) == ReadingWith(cfg, table.Get(t), Project([], t), oks)
  {
    FinalProject(cfg, table.states, table.ids, t);
  }

  lemma PassStep(cfg: Config, disk: Files, table: Table, tid: byte, bytes: seq<byte>, rest: seq<byte>,
                 ts': State, out: seq<Output>)
    requires table.Valid()
    requires ReadPacket(cfg, disk.Keys, table.Get(tid), bytes + rest) == Parsed(ts', out, |bytes|)
    ensures var after := Entries(cfg, DiskAfter(cfg, disk, table.Get(tid), ts'), table.Put(tid, ts'), rest);
      Entries(cfg, disk, table, [tid] + bytes + rest) == Outcome(Tag(tid, out) + after.out, after.ok, after.disk)
  {
    hide ReadPacket, DiskAfter, Table.Put, Table.Get, Tag;
    var s := [tid] + bytes + rest;
    assert s[1..] == bytes + rest;
    assert s[1 + |bytes|..] == rest;
  }

  lemma NamedStep(cfg: Config, ok: bool, table: Table, names: map<byte, Name>, tid: byte, p: Packet)
    requires Named(table, names)
    ensures Named(table.Put(tid, Apply(cfg, ok, table.Get(tid), p).0), NamesAfter(names, tid, p))
  {
    hide Apply, Table.Put, Table.Get;
    ApplyAlike(cfg, ok, table.Get(tid), p);
    var next := table.Put(tid, Apply(cfg, ok, table.Get(tid), p).0);
    forall u: byte ensures next.Get(u).name == NameOf(NamesAfter(names, tid, p), u) {
      assert table.Get(u).name == NameOf(names, u);
    }
  }

  /** The files wanted, from one packet on. */
  lemma WantedStep(cfg: Config, names: map<byte, Name>, tps: seq<Tagged>)
    requires tps != []
    ensures var (tid, p) := tps[0];
      var name := NameOf(names, tid);
      Wanted(cfg, names, tps)
        == (if Asks(cfg, name, p) then [(tid, TargetPath(cfg, name, p.path))] else [])
           + Wanted(cfg, NamesAfter(names, tid, p), tps[1..])
  {
    hide TargetPath;
    var (tid, p) := tps[0];
    var later := Wanted(cfg, NamesAfter(names, tid, p), tps[1..]);
    assert [] + later == later;
  }

  lemma DiskStep(cfg: Config, disk: Files, ts: State, p: Packet)
    requires Fits(cfg, ts, p)
    ensures DiskAfter(cfg, disk, ts, Apply(cfg, Opens(cfg, disk.Keys, ts.name, p), ts, p).0).Keys
      == if Asks(cfg, ts.name, p) then DiskWith(cfg, disk.Keys, TargetPath(cfg, ts.name, p.path)) else disk.Keys
  {
    hide TargetPath, CanOpen;
  }

  /** The files granted, from one packet on. */
  lemma GrantStep(cfg: Config, disk: Files, ts: State, names: map<byte, Name>, tps: seq<Tagged>, t: byte)
    requires tps != [] && ts.name == NameOf(names, tps[0].0) && Fits(cfg, ts, tps[0].1)
    ensures var (tid, p) := tps[0];
      var ok := Opens(cfg, disk.Keys, ts.name, p);
      var disk' := DiskAfter(cfg, disk, ts, Apply(cfg, ok, ts, p).0);
      var oks' := Project(Granted(cfg, disk'.Keys, Wanted(cfg, NamesAfter(names, tid, p), tps[1..])), t);
      Project(Granted(cfg, disk.Keys, Wanted(cfg, names, tps)), t)
        == if t == tid && Asks(cfg, ts.name, p) then [ok] + oks' else oks'
  {
    var (tid, p) := tps[0];
    WantedStep(cfg, names, tps);
    DiskStep(cfg, disk, ts, p);
    var later := Wanted(cfg, NamesAfter(names, tid, p), tps[1..]);
    if Asks(cfg, ts.name, p) {
      GrantedOne(cfg, disk.Keys, tid, TargetPath(cfg, ts.name, p.path), later, t);
    } else {
      assert [] + later == later;
    }
  }

  lemma GrantedOne(cfg: Config, disk: set<Name>, tid: byte, target: Name, later: seq<(byte, Name)>, t: byte)
    ensures var oks := Project(Granted(cfg, DiskWith(cfg, disk, target), later), t);
      Project(Granted(cfg, disk, [(tid, target)] + later), t)
        == if t == tid then [CanOpen(cfg, disk, target)] + oks else oks
  {
    hide CanOpen, DiskWith;
    assert ([(tid, target)] + later)[1..] == later;
    var ok, oks := CanOpen(cfg, disk, target), Granted(cfg, DiskWith(cfg, disk, target), later);
    assert ([(tid, ok)] + oks)[1..] == oks;
    assert [] + Project(oks, t) == Project(oks, t);
  }

  lemma ReadingStep(cfg: Config, ok: bool, mine: State, ts: State, tps: seq<Tagged>, t: byte, oks: seq<bool>)
    requires tps != [] && (t == tps[0].0 ==> mine == ts) && (!Asks(cfg, ts.name, tps[0].1) ==> !ok)
    ensures var (tid, p) := tps[0];
      var (ts', out) := Apply(cfg, ok, ts, p);
      ReadingWith(cfg, mine, Project(tps, t), if t == tid && Asks(cfg, ts.name, p) then [ok] + oks else oks)
        == if t == tid then out + ReadingWith(cfg, ts', Project(tps[1..], t), oks)
           else ReadingWith(cfg, mine, Project(tps[1..], t), oks)
  {
    hide Apply;
    var (tid, p) := tps[0];
    var rest := Project(tps[1..], t);
    if t == tid {
      assert Project(tps, t) == [p] + rest;
      assert ([p] + rest)[1..] == rest;
      ApplyAlike(cfg, First(oks), ts, p);
      ApplyAlike(cfg, ok, ts, p);
      assert ([ok] + oks)[1..] == oks;
    } else {
      assert Project(tps, t) == rest;
    }
  }

  // ----- from a fresh reader

  /** The files granted to thread `t` on a pass over the log `tps` when at first the files `disk` exist. */
  function GrantedTo(cfg: Config, disk: set<Name>, tps: seq<Tagged>, t: byte): seq<bool> {
    Project(Granted(cfg, disk, Wanted(cfg, map[], tps)), t)
  }

  /** On a first pass each thread reads what it would with every file granted, less the files refused. */
  lemma FreshPass(cfg: Config, disk: Files, tps: seq<Tagged>, t: byte)
    requires Readable(cfg, EMPTY, tps)
    ensures var pass := Entries(cfg, disk, EMPTY, EncodeTagged(cfg.order, tps));
      && pass.ok
      && Project(pass.out, t) == Survive(Reading(cfg, FRESH, Project(tps, t)), GrantedTo(cfg, disk.Keys, tps, t))
  {
    hide Entries, EncodeTagged, Granted, Wanted, Reading, ReadingWith, Survive;
    ShuffleRead(cfg, disk, EMPTY, map[], tps, t);
    assert Legible(cfg, EMPTY.Get(t), Project(tps, t));
    var oks := GrantedTo(cfg, disk.Keys, tps, t);
    ReadingSurvives(cfg, FRESH, false, Project(tps, t), oks);
    assert Ahead(FRESH, false) + oks == oks;
  }

  /** A thread reads the same from the shared file as from a file of its own: the entries always, and the files too
      unless another thread asks for one of them. */
  lemma TogetherAsAlone(cfg: Config, disk: Files, tps: seq<Tagged>, t: byte)
    requires Readable(cfg, EMPTY, tps)
    ensures var alone := Tag(t, Project(tps, t));
      var wanted := Wanted(cfg, map[], tps);
      var both := Entries(cfg, disk, EMPTY, EncodeTagged(cfg.order, tps));
      var own := Entries(cfg, disk, EMPTY, EncodeTagged(cfg.order, alone));
      && YieldsOf(Project(both.out, t)) == YieldsOf(Project(own.out, t))
      && (cfg.overwrite || (forall u: byte :: u != t ==> ThreadFiles(cfg, wanted, t) !! ThreadFiles(cfg, wanted, u))
          ==> Project(both.out, t) == Project(own.out, t))
      && forall u :: u != t ==> Project(own.out, u) == []
  {
    hide Entries, EncodeTagged, Granted, Wanted, Reading, Survive, YieldsOf, ThreadFiles, TargetPath;
    var ps := Project(tps, t);
    var alone := Tag(t, ps);
    forall u: byte
      ensures Project(alone, u) == (if u == t then ps else []) && Legible(cfg, EMPTY.Get(u), Project(alone, u))
    {
      ProjectTag(ps, t, u);
      assert Legible(cfg, EMPTY.Get(t), ps);
    }
    FreshPass(cfg, disk, tps, t);
    FreshPass(cfg, disk, alone, t);
    YieldsSurvive(Reading(cfg, FRESH, ps), GrantedTo(cfg, disk.Keys, tps, t));
    YieldsSurvive(Reading(cfg, FRESH, ps), GrantedTo(cfg, disk.Keys, alone, t));
    SameGrants(cfg, disk.Keys, tps, t);
    forall u: byte | u != t
      ensures Project(Entries(cfg, disk, EMPTY, EncodeTagged(cfg.order, alone)).out, u) == []
    {
      FreshPass(cfg, disk, alone, u);
      NoPackets(cfg, GrantedTo(cfg, disk.Keys, alone, u));
    }
  }

  lemma NoPackets(cfg: Config, oks: seq<bool>)
    ensures Survive(Reading(cfg, FRESH, []), oks) == []
  {
  }

  lemma SameGrants(cfg: Config, disk: set<Name>, tps: seq<Tagged>, t: byte)
    ensures var wanted := Wanted(cfg, map[], tps);
      cfg.overwrite || (forall u: byte :: u != t ==> ThreadFiles(cfg, wanted, t) !! ThreadFiles(cfg, wanted, u))
      ==> GrantedTo(cfg, disk, tps, t) == GrantedTo(cfg, disk, Tag(t, Project(tps, t)), t)
  {
    hide Wanted, ThreadFiles, Granted, Asked;
    var wanted, ps := Wanted(cfg, map[], tps), Project(tps, t);
    WantedProjects(cfg, map[], tps, t);
    WantedAlone(cfg, map[], ps, t);
    if cfg.overwrite {
      OverwriteGrants(cfg, disk, disk, wanted, t);
    } else if forall u: byte :: u != t ==> ThreadFiles(cfg, wanted, t) !! ThreadFiles(cfg, wanted, u) {
      GrantedAlone(cfg, disk, disk, wanted, t);
    }
  }

  lemma {:induction false} WantedAlone(cfg: Config, names: map<byte, Name>, ps: seq<Packet>, t: byte)
    ensures Wanted(cfg, names, Tag(t, ps)) == Tag(t, Asked(cfg, NameOf(names, t), ps))
    decreases |ps|
  {
    hide TargetPath;
    if ps != [] {
      var p := ps[0];
      assert Tag(t, ps)[1..] == Tag(t, ps[1..]);
      WantedAlone(cfg, NamesAfter(names, t, p), ps[1..], t);
      var rest := Asked(cfg, NameOf(NamesAfter(names, t, p), t), ps[1..]);
      if !p.Head? {
        var name := NameOf(names, t);
        if Asks(cfg, name, p) {
          var target := TargetPath(cfg, name, p.path);
          assert Tag(t, [target] + rest) == [(t, target)] + Tag(t, rest);
        }
        assert [] + rest == rest && [] + Tag(t, rest) == Tag(t, rest);
      }
    }
  }

  // ----- exactly which packets the reader can frame

  /** A packet of the right sort for the state is consumed whole if and only if its names are ASCII and, for a
      FILE with a name, the reader extracts for the current module: otherwise the name is left in the file. */
  lemma FitsExactly(cfg: Config, disk: set<Name>, ts: State, p: Packet, rest: seq<byte>)
    requires Coherent(ts) && Sized(p) && (p.Chunk? <==> ts.stream != Closed)
    ensures var r := ReadPacket(cfg, disk, ts, Encode(cfg.order, p) + rest);
      (r.Parsed? && r.used == |Encode(cfg.order, p)|) <==> Fits(cfg, ts, p)
  {
    if Fits(cfg, ts, p) {
      PacketRead(cfg, disk, ts, p, rest);
    } else {
      var head, body := Header(cfg.order, Kind(p), p.code), Body(cfg.order, p);
      HeaderRead(cfg, disk, ts, Kind(p), p.code, body + rest);
      Assoc(head, body, rest);
      MisreadBody(cfg, disk, ts, p, head, rest);
    }
  }

  /** For instance, a reader that extracts nothing stops short of the one-letter name of a stored file, and would
      take that letter for the next thread id. */
  lemma NameLeftInFile(cfg: Config, disk: set<Name>, name: byte)
    requires cfg.extractFor == {} && cfg.order == Little
    ensures Encode(cfg.order, File(0, [name])) == [CBA_FILE, 1, 0, name]
    ensures ReadPacket(cfg, disk, FRESH, [CBA_FILE, 1, 0, name])
      == Parsed(FRESH.(curKind := CBA_FILE, stream := Ignore), [], 3)
  {
    assert Enc(Little, 2, 1) == [1] + Enc(Little, 1, 0) && Enc(Little, 1, 0) == [0] + Enc(Little, 0, 0);
    var s: seq<byte> := [CBA_FILE, 1, 0, name];
    assert s[1..3] == [1, 0];
    assert Dec(Little, [1, 0]) == 1 + 256 * Dec(Little, [0]) by { assert [1, 0][1..] == [0]; }
    assert Dec(Little, [0]) == 0;
  }

  lemma MisreadBody(cfg: Config, disk: set<Name>, ts: State, p: Packet, head: seq<byte>, rest: seq<byte>)
    requires !p.Chunk? && Sized(p) && ts.stream == Closed && !Fits(cfg, ts, p)
    ensures var r := ReadBody(cfg, disk, ts, Kind(p), p.code, head + (Body(cfg.order, p) + rest), |head|);
      r.Bad? || r.used < |head| + |Body(cfg.order, p)|
  {
    hide Enc, Dec, Pow256;
    var s := head + (Body(cfg.order, p) + rest);
    if p.Head? {
      assert s[|head|] == |p.name|;
      assert s[|head| + 1..] == p.name + rest;
      assert Take(p.name + rest, |p.name|) == p.name;
    } else {
      MisreadFile(cfg, disk, ts.(curCode := p.code, curKind := CBA_FILE), p, head, rest);
    }
  }

  lemma MisreadFile(cfg: Config, disk: set<Name>, ts: State, p: Packet, head: seq<byte>, rest: seq<byte>)
    requires p.File? && Sized(p) && p.path != [] && !(ShouldExtract(cfg, ts.name) && Ascii(p.path))
    ensures var r := ReadFile(cfg, disk, ts, p.code, head + (Enc(cfg.order, 2, |p.path|) + p.path + rest), |head|);
      r.Bad? || r.used < |head| + 2 + |p.path|
  {
    hide Enc, Dec;
    Pow256Values();
    var s := head + (Enc(cfg.order, 2, |p.path|) + p.path + rest);
    assert s == head + Enc(cfg.order, 2, |p.path|) + (p.path + rest);
    Field(cfg.order, 2, |p.path|, head, p.path + rest);
    assert Take(p.path + rest, |p.path|) == p.path;
  }

  // ----- appending a second run to the file

  lemma {:induction false} PlayConcat(cfg: Config, ts: State, ps: seq<Packet>, qs: seq<Packet>)
    ensures var (ts1, out1) := Play(cfg, ts, ps);
      var (ts2, out2) := Play(cfg, ts1, qs);
      Play(cfg, ts, ps + qs) == (ts2, out1 + out2)
    decreases |ps|
  {
    if ps == [] {
      assert ps + qs == qs;
      assert [] + Play(cfg, ts, qs).1 == Play(cfg, ts, qs).1;
    } else {
      var (ts1, out) := Apply(cfg, true, ts, ps[0]);
      PlayConcat(cfg, ts1, ps[1..], qs);
      assert (ps + qs)[1..] == ps[1..] + qs;
      var (ts2, out2) := Play(cfg, ts1, ps[1..]);
      Assoc(out, out2, Play(cfg, ts2, qs).1);
    }
  }

  lemma {:induction false} LegibleConcat(cfg: Config, ts: State, ps: seq<Packet>, qs: seq<Packet>)
    ensures Legible(cfg, ts, ps + qs) <==> Legible(cfg, ts, ps) && Legible(cfg, Play(cfg, ts, ps).0, qs)
    decreases |ps|
  {
    if ps == [] {
      assert ps + qs == qs;
    } else {
      LegibleConcat(cfg, Apply(cfg, true, ts, ps[0]).0, ps[1..], qs);
      assert (ps + qs)[1..] == ps[1..] + qs;
    }
  }

  /** A head forgets the state before it, once the entry it closes is out. */
  lemma HeadStartsAfresh(cfg: Config, ts: State, qs: seq<Packet>)
    requires qs != [] && qs[0].Head?
    ensures Reading(cfg, ts, qs) == Result(cfg, ts) + Reading(cfg, FRESH, qs)
    ensures ts.stream == Closed ==> (Legible(cfg, ts, qs) <==> Legible(cfg, FRESH, qs))
  {
    assert Result(cfg, FRESH) == [];
  }

  /** One thread's packets of two runs, the second beginning with a head. */
  lemma AppendOne(cfg: Config, ps: seq<Packet>, qs: seq<Packet>)
    requires Legible(cfg, FRESH, ps) && Legible(cfg, FRESH, qs)
    requires Play(cfg, FRESH, ps).0.stream == Closed
    requires qs == [] || qs[0].Head?
    ensures Legible(cfg, FRESH, ps + qs)
    ensures Reading(cfg, FRESH, ps + qs) == Reading(cfg, FRESH, ps) + Reading(cfg, FRESH, qs)
  {
    var (ts, out) := Play(cfg, FRESH, ps);
    PlayConcat(cfg, FRESH, ps, qs);
    LegibleConcat(cfg, FRESH, ps, qs);
    assert Result(cfg, FRESH) == [];
    if qs != [] {
      HeadStartsAfresh(cfg, ts, qs);
      Assoc(out, Play(cfg, ts, qs).1, Result(cfg, Play(cfg, ts, qs).0));
      Assoc(out, Result(cfg, ts), Reading(cfg, FRESH, qs));
    }
  }

  /** Threads that begin with a head ask for the same files whatever module they were in. */
  lemma {:induction false} WantedAfresh(cfg: Config, a: map<byte, Name>, b: map<byte, Name>, tps: seq<Tagged>)
    requires forall u: byte :: NameOf(a, u) == NameOf(b, u) || Project(tps, u) == [] || Project(tps, u)[0].Head?
    ensures Wanted(cfg, a, tps) == Wanted(cfg, b, tps)
    decreases |tps|
  {
    hide TargetPath;
    if tps != [] {
      var (tid, p) := tps[0];
      var a', b' := NamesAfter(a, tid, p), NamesAfter(b, tid, p);
      forall u: byte
        ensures NameOf(a', u) == NameOf(b', u) || Project(tps[1..], u) == [] || Project(tps[1..], u)[0].Head?
      {
        if u == tid {
          assert Project(tps, u)[0] == p;
        } else {
          assert Project(tps, u) == Project(tps[1..], u);
        }
      }
      WantedAfresh(cfg, a', b', tps[1..]);
      assert Project(tps, tid)[0] == p;
    }
  }

  function NamesAll(names: map<byte, Name>, tps: seq<Tagged>): map<byte, Name>
    decreases |tps|
  {
    if tps == [] then names else NamesAll(NamesAfter(names, tps[0].0, tps[0].1), tps[1..])
  }

  lemma {:induction false} WantedConcat(cfg: Config, names: map<byte, Name>, first: seq<Tagged>, second: seq<Tagged>)
    ensures Wanted(cfg, names, first + second)
      == Wanted(cfg, names, first) + Wanted(cfg, NamesAll(names, first), second)
    decreases |first|
  {
    hide TargetPath;
    if first == [] {
      assert first + second == second;
    } else {
      var (tid, p) := first[0];
      FirstOfConcat(first, second);
      WantedConcat(cfg, NamesAfter(names, tid, p), first[1..], second);
      if !p.Head? {
        var name := NameOf(names, tid);
        Assoc(if Asks(cfg, name, p) then [(tid, TargetPath(cfg, name, p.path))] else [], Wanted(cfg, names, first[1..]),
              Wanted(cfg, NamesAll(names, first), second));
      }
    }
  }

  /** The files that exist after a first pass over the log `tps`. */
  function DiskRead(cfg: Config, disk: set<Name>, tps: seq<Tagged>): set<Name> {
    DiskAll(cfg, disk, Wanted(cfg, map[], tps))
  }

  /** The second run's threads begin with a head. */
  ghost predicate Afresh(second: seq<Tagged>) {
    forall u: byte :: Project(second, u) == [] || Project(second, u)[0].Head?
  }

  /** The first run left no stream open. */
  ghost predicate AllClosed(cfg: Config, first: seq<Tagged>) {
    forall u: byte :: Play(cfg, FRESH, Project(first, u)).0.stream == Closed
  }

  lemma AppendReadable(cfg: Config, first: seq<Tagged>, second: seq<Tagged>)
    requires Readable(cfg, EMPTY, first) && Readable(cfg, EMPTY, second)
    requires AllClosed(cfg, first) && Afresh(second)
    ensures Readable(cfg, EMPTY, first + second)
  {
    hide Legible, Play;
    forall u: byte ensures Legible(cfg, EMPTY.Get(u), Project(first + second, u)) {
      assert Legible(cfg, EMPTY.Get(u), Project(first, u)) && Legible(cfg, EMPTY.Get(u), Project(second, u));
      ProjectConcat(first, second, u);
      AppendOne(cfg, Project(first, u), Project(second, u));
    }
  }

  /** The second run is granted what it would be on the disk that reading the first run leaves. */
  lemma AppendGrants(cfg: Config, disk: set<Name>, first: seq<Tagged>, second: seq<Tagged>, t: byte)
    requires Afresh(second)
    ensures GrantedTo(cfg, disk, first + second, t)
      == GrantedTo(cfg, disk, first, t) + GrantedTo(cfg, DiskRead(cfg, disk, first), second, t)
  {
    hide Wanted, Granted, NamesAll;
    WantedConcat(cfg, map[], first, second);
    WantedAfresh(cfg, NamesAll(map[], first), map[], second);
    var a, b := Wanted(cfg, map[], first), Wanted(cfg, map[], second);
    GrantedConcat(cfg, disk, a, b);
    ProjectConcat(Granted(cfg, disk, a), Granted(cfg, DiskAll(cfg, disk, a), b), t);
  }

  /** As many files are granted or refused as the thread has stored when all are granted. */
  lemma AnswersMatch(cfg: Config, disk: set<Name>, tps: seq<Tagged>, t: byte)
    requires Legible(cfg, FRESH, Project(tps, t)) && Play(cfg, FRESH, Project(tps, t)).0.stream == Closed
    ensures PathsOf(Reading(cfg, FRESH, Project(tps, t))) == Project(Wanted(cfg, map[], tps), t)
    ensures |GrantedTo(cfg, disk, tps, t)| == |PathsOf(Reading(cfg, FRESH, Project(tps, t)))|
  {
    hide Wanted, Reading, Asked, PathsOf, Legible, Granted, Play;
    WantedProjects(cfg, map[], tps, t);
    GrantedProjects(cfg, disk, Wanted(cfg, map[], tps), t);
    AskedAreSaved(cfg, FRESH, Project(tps, t));
    assert [] + Asked(cfg, [], Project(tps, t)) == Asked(cfg, [], Project(tps, t));
    var paths := PathsOf(Reading(cfg, FRESH, Project(tps, t)));
    assert paths + [] == paths;
  }

  /** A pass leaves the files that were there and those it was granted. */
  lemma {:induction false} FilesRead(cfg: Config, disk: Files, table: Table, names: map<byte, Name>, tps: seq<Tagged>)
    requires Readable(cfg, table, tps) && Named(table, names)
    ensures Entries(cfg, disk, table, EncodeTagged(cfg.order, tps)).disk.Keys
      == DiskAll(cfg, disk.Keys, Wanted(cfg, names, tps))
    decreases |tps|
  {
    hide Apply, Readable, Fits, Coherent, EncodeTagged, DiskAfter, NamesAfter, Opens, Wanted, Entries, DiskWith,
      DiskAll, TargetPath, Tag, Project, Table.Put, Table.Get, Table.Valid;
    ReadableNow(cfg, table, tps);
    if tps == [] {
      NoFilesRead(cfg, disk, table, names);
    } else {
      var (tid, p) := tps[0];
      var ts := table.Get(tid);
      var ok := Opens(cfg, disk.Keys, ts.name, p);
      var ts' := Apply(cfg, ok, ts, p).0;
      ReadableStep(cfg, ok, table, tps);
      NamedStep(cfg, ok, table, names, tid, p);
      EntriesStep(cfg, disk, table, tps);
      FilesRead(cfg, DiskAfter(cfg, disk, ts, ts'), table.Put(tid, ts'), NamesAfter(names, tid, p), tps[1..]);
      DiskStep(cfg, disk, ts, p);
      WantedStep(cfg, names, tps);
      var later := Wanted(cfg, NamesAfter(names, tid, p), tps[1..]);
      if p.File? {
        OneWanted(cfg, disk.Keys, tid, TargetPath(cfg, ts.name, p.path), later);
      } else {
        assert [] + later == later;
      }
    }
  }

  lemma ReadKeys(cfg: Config, disk: Files, tps: seq<Tagged>)
    requires Readable(cfg, EMPTY, tps)
    ensures Entries(cfg, disk, EMPTY, EncodeTagged(cfg.order, tps)).disk.Keys == DiskRead(cfg, disk.Keys, tps)
  {
    hide Readable, Entries, EncodeTagged, Wanted, DiskAll;
    FilesRead(cfg, disk, EMPTY, map[], tps);
  }

  lemma NoFilesRead(cfg: Config, disk: Files, table: Table, names: map<byte, Name>)
    requires table.Valid()
    ensures Entries(cfg, disk, table, EncodeTagged(cfg.order, [])).disk == disk
    ensures DiskAll(cfg, disk.Keys, Wanted(cfg, names, [])) == disk.Keys
  {
  }

  lemma OneWanted(cfg: Config, files: set<Name>, tid: byte, target: Name, later: seq<(byte, Name)>)
    ensures DiskAll(cfg, files, [(tid, target)] + later) == DiskAll(cfg, DiskWith(cfg, files, target), later)
    ensures [] + later == later
  {
    assert ([(tid, target)] + later)[1..] == later;
  }

  /** A file appended to by a second run reads, thread by thread, as the first run's outputs followed by the
      second's, read where the first has left its files, provided the first left no stream open and each thread of
      the second begins with a head. */
  lemma AppendComposes(cfg: Config, disk: Files, first: seq<Tagged>, second: seq<Tagged>, t: byte)
    requires Readable(cfg, EMPTY, first) && Readable(cfg, EMPTY, second)
    requires AllClosed(cfg, first) && Afresh(second)
    ensures var bytes1, bytes2 := EncodeTagged(cfg.order, first), EncodeTagged(cfg.order, second);
      var both := Entries(cfg, disk, EMPTY, bytes1 + bytes2);
      && both.ok
      && Project(both.out, t)
         == Project(Entries(cfg, disk, EMPTY, bytes1).out, t)
            + Project(Entries(cfg, Entries(cfg, disk, EMPTY, bytes1).disk, EMPTY, bytes2).out, t)
  {
    hide Entries, EncodeTagged, GrantedTo, DiskRead, Reading, Survive, Play, Legible, Readable, AllClosed, Afresh,
      PathsOf;
    EncodeTaggedConcat(cfg.order, first, second);
    AppendReadable(cfg, first, second);
    FreshPass(cfg, disk, first + second, t);
    FreshPass(cfg, disk, first, t);
    var left := Entries(cfg, disk, EMPTY, EncodeTagged(cfg.order, first)).disk;
    ReadKeys(cfg, disk, first);
    FreshPass(cfg, left, second, t);
    AppendGrants(cfg, disk.Keys, first, second, t);
    ProjectConcat(first, second, t);
    OneReadable(cfg, first, second, t);
    AppendOne(cfg, Project(first, t), Project(second, t));
    AnswersMatch(cfg, disk.Keys, first, t);
    SurviveConcat(Reading(cfg, FRESH, Project(first, t)), Reading(cfg, FRESH, Project(second, t)),
                  GrantedTo(cfg, disk.Keys, first, t), GrantedTo(cfg, left.Keys, second, t));
  }

  lemma OneReadable(cfg: Config, first: seq<Tagged>, second: seq<Tagged>, t: byte)
    requires Readable(cfg, EMPTY, first) && Readable(cfg, EMPTY, second)
    requires AllClosed(cfg, first) && Afresh(second)
    ensures Legible(cfg, FRESH, Project(first, t)) && Legible(cfg, FRESH, Project(second, t))
    ensures Play(cfg, FRESH, Project(first, t)).0.stream == Closed
    ensures Project(second, t) == [] || Project(second, t)[0].Head?
  {
    assert Legible(cfg, EMPTY.Get(t), Project(first, t)) && Legible(cfg, EMPTY.Get(t), Project(second, t));
  }

  // ----- which files are kept

  /** No file is blocked and, unless existing files are overwritten, none exists, none comes twice from a thread, and
      none comes from two threads. */
  ghost predicate Keepable(cfg: Config, disk: set<Name>, means: byte -> seq<Output>) {
    && (forall t: byte :: Storable(cfg, disk, PathsOf(means(t))))
    && (cfg.overwrite || forall t: byte, u: byte :: t != u ==>
          FilesOf(cfg, PathsOf(means(t))) !! FilesOf(cfg, PathsOf(means(u))))
  }

  lemma KeepableSame(cfg: Config, disk: set<Name>, wanted: seq<(byte, Name)>, means: byte -> seq<Output>)
    requires forall t: byte :: Project(wanted, t) == PathsOf(means(t))
    ensures AllStorable(cfg, disk, wanted) <==> Keepable(cfg, disk, means)
  {
    hide Project, PathsOf, Storable, FilesOf;
    forall t: byte ensures ThreadStorable(cfg, disk, wanted, t) <==> Storable(cfg, disk, PathsOf(means(t))) {
    }
    forall t: byte ensures ThreadFiles(cfg, wanted, t) == FilesOf(cfg, PathsOf(means(t))) {
    }
  }

  /** Every file is stored, and so every thread read in full, if and only if the files can be opened and told apart;
      that does not depend on the order of the log. */
  lemma KeptExactly(cfg: Config, disk: Files, tps: seq<Tagged>, means: byte -> seq<Output>)
    requires Readable(cfg, EMPTY, tps) && AllClosed(cfg, tps)
    requires forall t: byte :: Reading(cfg, FRESH, Project(tps, t)) == means(t)
    ensures var pass := Entries(cfg, disk, EMPTY, EncodeTagged(cfg.order, tps));
      (forall t: byte :: Project(pass.out, t) == means(t)) <==> Keepable(cfg, disk.Keys, means)
  {
    hide Readable, AllClosed, Entries, EncodeTagged, Survive, Granted, Wanted, PathsOf, Storable, All, Project, Legible,
      Play, Reading, Keepable, AllStorable;
    var wanted := Wanted(cfg, map[], tps);
    var pass := Entries(cfg, disk, EMPTY, EncodeTagged(cfg.order, tps));
    forall t: byte
      ensures Project(wanted, t) == PathsOf(means(t))
      ensures Project(pass.out, t) == means(t) <==> AllTo(Granted(cfg, disk.Keys, wanted), t)
    {
      FreshPass(cfg, disk, tps, t);
      ThreadReadable(cfg, tps, t);
      AnswersMatch(cfg, disk.Keys, tps, t);
      SurviveAll(means(t), GrantedTo(cfg, disk.Keys, tps, t));
    }
    AllGranted(cfg, disk.Keys, wanted);
    AllByThread(Granted(cfg, disk.Keys, wanted));
    StorableByThread(cfg, disk.Keys, wanted);
    KeepableSame(cfg, disk.Keys, wanted, means);
  }

  lemma ThreadReadable(cfg: Config, tps: seq<Tagged>, t: byte)
    requires Readable(cfg, EMPTY, tps) && AllClosed(cfg, tps)
    ensures Legible(cfg, FRESH, Project(tps, t)) && Play(cfg, FRESH, Project(tps, t)).0.stream == Closed
  {
    assert Legible(cfg, EMPTY.Get(t), Project(tps, t));
  }
}
