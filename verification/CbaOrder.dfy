/** The order in which a pass yields entries: those closed by a head where the head stands in the log, and then those
    still open, in the order in which their threads first appear. */
module CbaOrder {
  import opened Sequences
  import opened Bytes
  import opened CbaFormat
  import opened CbaDecode
  import opened CbaFiles
  import opened CbaInterleave

  // ----- the order itself

  /** Where in the log a thread's first packet stands; behind the end if it has none. */
  function FirstAt(tps: seq<Tagged>, t: byte): nat {
    if tps == [] || tps[0].0 == t then 0 else 1 + FirstAt(tps[1..], t)
  }

  /** These threads come in the order of their first packets. */
  ghost predicate AsSeen(tps: seq<Tagged>, ids: seq<byte>) {
    forall i, j :: 0 <= i < j < |ids| ==> FirstAt(tps, ids[i]) < FirstAt(tps, ids[j])
  }

  /** At most one output for a thread, in the order of their first packets. */
  ghost predicate OutAsSeen(tps: seq<Tagged>, out: seq<(byte, Output)>) {
    forall i, j :: 0 <= i < j < |out| ==> FirstAt(tps, out[i].0) < FirstAt(tps, out[j].0)
  }

  /** The entries among the outputs. */
  function OnlyYields(out: seq<(byte, Output)>): seq<(byte, Output)> {
    if out == [] then [] else (if out[0].1.Yield? then [out[0]] else []) + OnlyYields(out[1..])
  }

  /** The entry a thread has under way after these packets of its own, if it is one to be yielded. */
  function UnderWay(cfg: Config, ps: seq<Packet>): seq<Output> {
    Result(cfg, Play(cfg, FRESH, ps).0)
  }

  /** Every head closes the entry its thread has under way there. `done` is the log before. */
  function ClosedByHeads(cfg: Config, done: seq<Tagged>, tps: seq<Tagged>): seq<(byte, Output)>
    decreases |tps|
  {
    if tps == [] then []
    else
      var (t, p) := tps[0];
      (if p.Head? then Tag(t, UnderWay(cfg, Project(done, t))) else [])
      + ClosedByHeads(cfg, done + [tps[0]], tps[1..])
  }

  lemma {:induction false} FirstBefore(done: seq<Tagged>, rest: seq<Tagged>, t: byte)
    ensures FirstAt(done + rest, t) == if FirstAt(done, t) < |done| then FirstAt(done, t) else |done| + FirstAt(rest, t)
    ensures FirstAt(done, t) <= |done|
    decreases |done|
  {
    if done == [] {
      assert done + rest == rest;
    } else {
      FirstOfConcat(done, rest);
      FirstBefore(done[1..], rest, t);
    }
  }

  lemma {:induction false} YieldsConcat(xs: seq<(byte, Output)>, ys: seq<(byte, Output)>)
    ensures OnlyYields(xs + ys) == OnlyYields(xs) + OnlyYields(ys)
  {
    if xs == [] {
      assert xs + ys == ys;
    } else {
      FirstOfConcat(xs, ys);
      YieldsConcat(xs[1..], ys);
      Assoc(if xs[0].1.Yield? then [xs[0]] else [], OnlyYields(xs[1..]), OnlyYields(ys));
    }
  }

  // ----- where a pass stands

  /** The state the reader has for a thread is that of its packets so far, but that a file may have been refused. */
  predicate Agrees(a: State, b: State) {
    && a.name == b.name && a.events == b.events && a.dict == b.dict
    && (a.stream == b.stream || (a.stream.Ignore? && b.stream.Disk?))
    && a.curCode == b.curCode && a.curKind == b.curKind
  }

  ghost predicate AgreesAll(cfg: Config, table: Table, done: seq<Tagged>) {
    forall u: byte :: Agrees(table.Get(u), Play(cfg, FRESH, Project(done, u)).0)
  }

  lemma ApplyAgrees(cfg: Config, ok: bool, a: State, b: State, p: Packet, tid: byte)
    requires Agrees(a, b) && Fits(cfg, a, p)
    ensures Agrees(Apply(cfg, ok, a, p).0, Apply(cfg, true, b, p).0)
    ensures OnlyYields(Tag(tid, Apply(cfg, ok, a, p).1)) == if p.Head? then Tag(tid, Result(cfg, b)) else []
  {
    hide Sanitize, ShouldExtract;
    var out := Tag(tid, Apply(cfg, ok, a, p).1);
    assert |out| <= 1;
    assert out != [] ==> out == [out[0]] && out[1..] == [];
  }

  lemma AgreesStep(cfg: Config, ok: bool, table: Table, done: seq<Tagged>, tid: byte, p: Packet)
    requires AgreesAll(cfg, table, done) && Fits(cfg, table.Get(tid), p)
    ensures AgreesAll(cfg, table.Put(tid, Apply(cfg, ok, table.Get(tid), p).0), done + [(tid, p)])
  {
    hide Apply, Fits, Agrees, Table.Get, Table.Put;
    var next := table.Put(tid, Apply(cfg, ok, table.Get(tid), p).0);
    forall u: byte ensures Agrees(next.Get(u), Play(cfg, FRESH, Project(done + [(tid, p)], u)).0) {
      var before := Project(done, u);
      assert Agrees(table.Get(u), Play(cfg, FRESH, before).0);
      ProjectConcat(done, [(tid, p)], u);
      assert [(tid, p)][1..] == [];
      if u == tid {
        assert Project([(tid, p)], u) == [p];
        PlayLast(cfg, before, p);
        ApplyAgrees(cfg, ok, table.Get(u), Play(cfg, FRESH, before).0, p, u);
      } else {
        assert before + [] == before;
      }
    }
  }

  lemma PlayLast(cfg: Config, ps: seq<Packet>, p: Packet)
    ensures Play(cfg, FRESH, ps + [p]).0 == Apply(cfg, true, Play(cfg, FRESH, ps).0, p).0
  {
    PlayConcat(cfg, FRESH, ps, [p]);
    assert [p][1..] == [];
  }

  /** The table lists exactly the threads of the log so far, as seen. */
  ghost predicate Lists(ids: seq<byte>, done: seq<Tagged>, all: seq<Tagged>) {
    && AsSeen(all, ids)
    && (forall t: byte :: t in ids <==> FirstAt(all, t) < |done|)
  }

  lemma ListsStep(table: Table, ts: State, done: seq<Tagged>, tps: seq<Tagged>)
    requires table.Valid() && tps != [] && Lists(table.ids, done, done + tps)
    ensures Lists(table.Put(tps[0].0, ts).ids, done + [tps[0]], done + tps)
  {
    var tid := tps[0].0;
    var all, ids := done + tps, table.Put(tid, ts).ids;
    forall t: byte ensures t in ids <==> FirstAt(all, t) < |done| + 1 {
      FirstBefore(done, tps, t);
      assert t in table.ids <==> FirstAt(all, t) < |done|;
    }
    if tid !in table.states {
      FirstBefore(done, tps, tid);
      assert tid !in table.ids && FirstAt(all, tid) == |done|;
      forall i | 0 <= i < |table.ids| ensures FirstAt(all, table.ids[i]) < FirstAt(all, tid) {
        assert table.ids[i] in table.ids;
      }
    }
  }

  // ----- the end of a pass

  /** The table is one packet further on. */
  lemma TableStep(cfg: Config, disk: Files, table: Table, tps: seq<Tagged>)
    requires table.Valid() && tps != []
    requires Coherent(table.Get(tps[0].0)) && Fits(cfg, table.Get(tps[0].0), tps[0].1)
    ensures var (tid, p) := tps[0];
      var ts := table.Get(tid);
      var ts' := Apply(cfg, Opens(cfg, disk.Keys, ts.name, p), ts, p).0;
      LastTable(cfg, disk, table, EncodeTagged(cfg.order, tps))
        == LastTable(cfg, DiskAfter(cfg, disk, ts, ts'), table.Put(tid, ts'), EncodeTagged(cfg.order, tps[1..]))
  {
    hide Apply, Fits, Coherent, Encode, EncodeTagged, ReadPacket, DiskAfter, Opens, Table.Put, Table.Get, Table.Valid;
    var (tid, p) := tps[0];
    var ts := table.Get(tid);
    var rest := EncodeTagged(cfg.order, tps[1..]);
    EncodeTaggedFirst(cfg.order, tps);
    PacketRead(cfg, disk.Keys, ts, p, rest);
    var bytes := Encode(cfg.order, p);
    var s := [tid] + bytes + rest;
    assert s[1..] == bytes + rest && s[1 + |bytes|..] == rest;
  }

  /** What the outputs of a pass over the rest `tps` of the log are, from `done` on. */
  ghost predicate Ordered(cfg: Config, done: seq<Tagged>, tps: seq<Tagged>, during: seq<(byte, Output)>,
                          final: seq<(byte, Output)>)
  {
    && OnlyYields(during) == ClosedByHeads(cfg, done, tps)
    && OutAsSeen(done + tps, final)
    && forall t: byte :: Project(final, t) == UnderWay(cfg, Project(done + tps, t))
  }

  lemma {:induction false} FinalAsSeen(cfg: Config, states: map<byte, State>, ids: seq<byte>, all: seq<Tagged>)
    requires (forall t :: t in ids ==> t in states) && AsSeen(all, ids)
    ensures var out := ReadFinal(cfg, states, ids);
      OutAsSeen(all, out) && forall i :: 0 <= i < |out| ==> out[i].0 in ids
  {
    if ids != [] {
      var first, rest := Tag(ids[0], Result(cfg, states[ids[0]])), ReadFinal(cfg, states, ids[1..]);
      FinalAsSeen(cfg, states, ids[1..], all);
      var out := first + rest;
      assert |first| <= 1;
      forall i, j | 0 <= i < j < |out| ensures FirstAt(all, out[i].0) < FirstAt(all, out[j].0) {
        if i < |first| {
          assert out[j] == rest[j - |first|] && out[j].0 in ids[1..];
          var k :| 0 <= k < |ids[1..]| && ids[1..][k] == out[j].0;
          assert ids[k + 1] == out[j].0;
        } else {
          assert out[i] == rest[i - |first|] && out[j] == rest[j - |first|];
        }
      }
    }
  }

  lemma PassOver(cfg: Config, disk: Files, table: Table, done: seq<Tagged>)
    requires table.Valid() && AgreesAll(cfg, table, done) && Lists(table.ids, done, done)
    ensures Ordered(cfg, done, [], [], Entries(cfg, disk, table, EncodeTagged(cfg.order, [])).out)
    ensures LastTable(cfg, disk, table, EncodeTagged(cfg.order, [])) == table
  {
    hide Agrees, Play;
    var final := ReadFinal(cfg, table.states, table.ids);
    assert done + [] == done;
    FinalAsSeen(cfg, table.states, table.ids, done);
    forall t: byte ensures Project(final, t) == UnderWay(cfg, Project(done, t)) {
      FinalProject(cfg, table.states, table.ids, t);
      assert Agrees(table.Get(t), Play(cfg, FRESH, Project(done, t)).0);
      ResultAgrees(cfg, table.Get(t), Play(cfg, FRESH, Project(done, t)).0);
    }
  }

  lemma ResultAgrees(cfg: Config, a: State, b: State)
    requires Agrees(a, b)
    ensures Result(cfg, a) == Result(cfg, b)
    ensures Result(cfg, FRESH) == []
  {
  }

  lemma {:induction false} PassOrder(cfg: Config, disk: Files, table: Table, done: seq<Tagged>, tps: seq<Tagged>)
    returns (during: seq<(byte, Output)>, final: seq<(byte, Output)>)
    requires Readable(cfg, table, tps) && AgreesAll(cfg, table, done) && Lists(table.ids, done, done + tps)
    ensures Entries(cfg, disk, table, EncodeTagged(cfg.order, tps)).out == during + final
    ensures Ordered(cfg, done, tps, during, final)
    ensures Lists(LastTable(cfg, disk, table, EncodeTagged(cfg.order, tps)).ids, done + tps, done + tps)
    decreases |tps|
  {
    hide Apply, Readable, Fits, Coherent, EncodeTagged, DiskAfter, Opens, Entries, AgreesAll, Tag, Table.Put, Table.Get,
      Table.Valid, LastTable, Lists, OutAsSeen, UnderWay, Project;
    ReadableNow(cfg, table, tps);
    if tps == [] {
      assert done + [] == done;
      during, final := [], Entries(cfg, disk, table, EncodeTagged(cfg.order, tps)).out;
      PassOver(cfg, disk, table, done);
      assert [] + final == final;
    } else {
      var (tid, p) := tps[0];
      var ts := table.Get(tid);
      var ok := Opens(cfg, disk.Keys, ts.name, p);
      var (ts', out) := Apply(cfg, ok, ts, p);
      ReadableStep(cfg, ok, table, tps);
      EntriesStep(cfg, disk, table, tps);
      TableStep(cfg, disk, table, tps);
      AgreesStep(cfg, ok, table, done, tid, p);
      ListsStep(table, ts', done, tps);
      assert done + [tps[0]] + tps[1..] == done + tps;
      during, final := PassOrder(cfg, DiskAfter(cfg, disk, ts, ts'), table.Put(tid, ts'), done + [tps[0]], tps[1..]);
      Assoc(Tag(tid, out), during, final);
      HeadOut(cfg, ok, table, done, tid, p);
      YieldsConcat(Tag(tid, out), during);
      during := Tag(tid, out) + during;
    }
  }

  /** What a packet yields: a head, the entry its thread has under way. */
  lemma HeadOut(cfg: Config, ok: bool, table: Table, done: seq<Tagged>, tid: byte, p: Packet)
    requires AgreesAll(cfg, table, done) && Fits(cfg, table.Get(tid), p)
    ensures OnlyYields(Tag(tid, Apply(cfg, ok, table.Get(tid), p).1))
      == if p.Head? then Tag(tid, UnderWay(cfg, Project(done, tid))) else []
  {
    hide Apply, Fits, Agrees, Play, Result;
    assert Agrees(table.Get(tid), Play(cfg, FRESH, Project(done, tid)).0);
    ApplyAgrees(cfg, ok, table.Get(tid), Play(cfg, FRESH, Project(done, tid)).0, p, tid);
  }

  lemma NothingYet(cfg: Config, tps: seq<Tagged>)
    ensures AgreesAll(cfg, EMPTY, []) && Lists(EMPTY.ids, [], [] + tps) && [] + tps == tps
  {
    assert forall u: byte :: Project<Packet>([], u) == [];
    assert [] + tps == tps;
  }

  /** A pass over a log yields, in this order: for every head, the entry its thread has under way there; and at the end
      the entries still under way, in the order in which their threads first appear in the log. That is also the order
      in which the reader keeps the threads. */
  lemma EntriesInOrder(cfg: Config, disk: Files, tps: seq<Tagged>)
    returns (during: seq<(byte, Output)>, final: seq<(byte, Output)>)
    requires Readable(cfg, EMPTY, tps)
    ensures Entries(cfg, disk, EMPTY, EncodeTagged(cfg.order, tps)).out == during + final
    ensures OnlyYields(during) == ClosedByHeads(cfg, [], tps)
    ensures OutAsSeen(tps, final) && forall t: byte :: Project(final, t) == UnderWay(cfg, Project(tps, t))
    ensures var ids := LastTable(cfg, disk, EMPTY, EncodeTagged(cfg.order, tps)).ids;
      AsSeen(tps, ids) && forall t: byte :: t in ids <==> FirstAt(tps, t) < |tps|
  {
    hide Readable, Entries, EncodeTagged, AgreesAll, ClosedByHeads, OutAsSeen, UnderWay, AsSeen, LastTable;
    NothingYet(cfg, tps);
    during, final := PassOrder(cfg, disk, EMPTY, [], tps);
  }

  // ----- one module asked for

  function OfModule(entries: seq<Entry>, name: Name): seq<Entry> {
    if entries == [] then []
    else (if entries[0].name == name then [entries[0]] else []) + OfModule(entries[1..], name)
  }

  lemma {:induction false} OfModuleConcat(xs: seq<Entry>, ys: seq<Entry>, name: Name)
    ensures OfModule(xs + ys, name) == OfModule(xs, name) + OfModule(ys, name)
  {
    if xs == [] {
      assert xs + ys == ys;
    } else {
      FirstOfConcat(xs, ys);
      OfModuleConcat(xs[1..], ys, name);
      Assoc(if xs[0].name == name then [xs[0]] else [], OfModule(xs[1..], name), OfModule(ys, name));
    }
  }

  lemma FilterApply(cfg: Config, ts: State, p: Packet, name: Name)
    ensures var a, b := Apply(cfg.(filter := None), true, ts, p), Apply(cfg.(filter := Some(name)), true, ts, p);
      a.0 == b.0 && YieldsOf(b.1) == OfModule(YieldsOf(a.1), name)
    ensures Fits(cfg.(filter := None), ts, p) <==> Fits(cfg.(filter := Some(name)), ts, p)
  {
    hide Sanitize;
    FilterResult(cfg, ts, name);
    var a := Apply(cfg.(filter := None), true, ts, p).1;
    assert a != [] ==> a[1..] == [];
  }

  lemma FilterResult(cfg: Config, ts: State, name: Name)
    ensures YieldsOf(Result(cfg.(filter := Some(name)), ts))
      == OfModule(YieldsOf(Result(cfg.(filter := None), ts)), name)
  {
    var a, b := Result(cfg.(filter := None), ts), Result(cfg.(filter := Some(name)), ts);
    assert (a != [] ==> a[1..] == []) && (b != [] ==> b[1..] == []);
    assert YieldsOf(a) != [] ==> YieldsOf(a)[1..] == [];
  }

  lemma {:induction false} FilterReads(cfg: Config, ts: State, ps: seq<Packet>, name: Name)
    ensures var all, some := cfg.(filter := None), cfg.(filter := Some(name));
      && YieldsOf(Reading(some, ts, ps)) == OfModule(YieldsOf(Reading(all, ts, ps)), name)
      && (Legible(some, ts, ps) <==> Legible(all, ts, ps))
    decreases |ps|
  {
    hide Apply, YieldsOf, Result, OfModule, Fits;
    var all, some := cfg.(filter := None), cfg.(filter := Some(name));
    if ps == [] {
      FilterResult(cfg, ts, name);
      assert [] + Result(all, ts) == Result(all, ts) && [] + Result(some, ts) == Result(some, ts);
    } else {
      FilterApply(cfg, ts, ps[0], name);
      var (ts', out) := Apply(all, true, ts, ps[0]);
      var out' := Apply(some, true, ts, ps[0]).1;
      FilterReads(cfg, ts', ps[1..], name);
      ReadingFirst(all, ts, ps);
      ReadingFirst(some, ts, ps);
      YieldsOfConcat(out, Reading(all, ts', ps[1..]));
      YieldsOfConcat(out', Reading(some, ts', ps[1..]));
      OfModuleConcat(YieldsOf(out), YieldsOf(Reading(all, ts', ps[1..])), name);
    }
  }

  /** Asked for one module, a pass yields for each thread exactly its entries of that module. */
  lemma FilterExactly(cfg: Config, disk: Files, tps: seq<Tagged>, t: byte, name: Name)
    requires Readable(cfg.(filter := None), EMPTY, tps)
    ensures var all := Entries(cfg.(filter := None), disk, EMPTY, EncodeTagged(cfg.order, tps));
      var some := Entries(cfg.(filter := Some(name)), disk, EMPTY, EncodeTagged(cfg.order, tps));
      some.ok && YieldsOf(Project(some.out, t)) == OfModule(YieldsOf(Project(all.out, t)), name)
  {
    hide Entries, EncodeTagged, Reading, YieldsOf, OfModule, GrantedTo, Survive, Legible;
    var all, some := cfg.(filter := None), cfg.(filter := Some(name));
    forall u: byte ensures Legible(some, EMPTY.Get(u), Project(tps, u)) {
      assert Legible(all, EMPTY.Get(u), Project(tps, u));
      FilterReads(cfg, EMPTY.Get(u), Project(tps, u), name);
    }
    FreshPass(all, disk, tps, t);
    FreshPass(some, disk, tps, t);
    FilterReads(cfg, FRESH, Project(tps, t), name);
    YieldsSurvive(Reading(all, FRESH, Project(tps, t)), GrantedTo(all, disk.Keys, tps, t));
    YieldsSurvive(Reading(some, FRESH, Project(tps, t)), GrantedTo(some, disk.Keys, tps, t));
  }
}
