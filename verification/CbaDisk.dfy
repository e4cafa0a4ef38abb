/** What the stored files hold in the end: opening a file empties it, and a later file of the same name replaces it. */
module CbaDisk {
  import opened Sequences
  import opened Bytes
  import opened CbaFormat
  import opened CbaDecode
  import opened CbaInterleave

  // ----- files one after the other

  /** The thread whose file is under way in the log, after one more packet. */
  function WriterAfter(writer: Option<byte>, t: byte, p: Packet): Option<byte> {
    if p.File? then Some(t) else if p == Chunk([]) && writer == Some(t) then None else writer
  }

  /** No file begins while another one is under way, and the last one is ended. */
  predicate OneFileAtATime(writer: Option<byte>, tps: seq<Tagged>)
    decreases |tps|
  {
    if tps == [] then writer == None
    else
      (tps[0].1.File? ==> writer == None) && OneFileAtATime(WriterAfter(writer, tps[0].0, tps[0].1), tps[1..])
  }

  lemma {:induction false} OneFileConcat(writer: Option<byte>, xs: seq<Tagged>, ys: seq<Tagged>)
    requires OneFileAtATime(writer, xs) && OneFileAtATime(None, ys)
    ensures OneFileAtATime(writer, xs + ys)
    decreases |xs|
  {
    if xs == [] {
      assert xs + ys == ys;
    } else {
      FirstOfConcat(xs, ys);
      OneFileConcat(WriterAfter(writer, xs[0].0, xs[0].1), xs[1..], ys);
    }
  }

  // ----- the disk after a pass

  function Store(cfg: Config, disk: Files, o: Output): Files {
    if o.Saved? then disk[FileOf(cfg, o.path) := o.data] else disk
  }

  /** The disk when each file saved is put in its place, one after the other. */
  function StoreAll(cfg: Config, disk: Files, out: seq<(byte, Output)>): Files
    decreases |out|
  {
    if out == [] then disk else StoreAll(cfg, Store(cfg, disk, out[0].1), out[1..])
  }

  lemma {:induction false} StoreConcat(cfg: Config, disk: Files, xs: seq<(byte, Output)>, ys: seq<(byte, Output)>)
    ensures StoreAll(cfg, disk, xs + ys) == StoreAll(cfg, StoreAll(cfg, disk, xs), ys)
    decreases |xs|
  {
    if xs == [] {
      assert xs + ys == ys;
    } else {
      FirstOfConcat(xs, ys);
      StoreConcat(cfg, Store(cfg, disk, xs[0].1), xs[1..], ys);
    }
  }

  /** The file under way holds what went through the stream; but for it, the disk is as on `base`. */
  ghost predicate Writing(cfg: Config, base: Files, disk: Files, stream: Stream) {
    if stream.Disk? then
      var f := FileOf(cfg, stream.path);
      f in disk && disk[f] == stream.buf && base[f := []] == disk[f := []]
    else base == disk
  }

  predicate FileOpen(stream: Stream) { stream.Disk? || stream.Ignore? }

  function StreamOf(table: Table, writer: Option<byte>): Stream {
    if writer.Some? then table.Get(writer.value).stream else Closed
  }

  ghost predicate OnlyWriter(cfg: Config, base: Files, disk: Files, table: Table, writer: Option<byte>) {
    && (forall u: byte :: FileOpen(table.Get(u).stream) <==> writer == Some(u))
    && Writing(cfg, base, disk, StreamOf(table, writer))
  }

  /** A packet of the thread whose file is under way. */
  lemma WriterStep(cfg: Config, base: Files, disk: Files, ok: bool, ts: State, tid: byte, p: Packet)
    requires FileOpen(ts.stream) && Fits(cfg, ts, p) && Coherent(ts) && Writing(cfg, base, disk, ts.stream)
    ensures var (ts', out) := Apply(cfg, ok, ts, p);
      && Writing(cfg, StoreAll(cfg, base, Tag(tid, out)), DiskAfter(cfg, disk, ts, ts'), ts'.stream)
      && (FileOpen(ts'.stream) <==> p != Chunk([])) && p.Chunk?
  {
    var (ts', out) := Apply(cfg, ok, ts, p);
    if p.data != [] {
      assert Tag(tid, out) == [];
      if ts.stream.Disk? {
        var buf := ts.stream.buf;
        assert (buf + p.data)[|buf|..] == p.data;
        assert buf[..|buf|] == buf;
        assert WriteAt(buf, |buf|, p.data) == buf + p.data + [] == buf + p.data;
      }
    } else if ts.stream.Disk? {
      StoreOne(cfg, base, tid, out[0]);
      var f := FileOf(cfg, ts.stream.path);
      assert base[f := ts.stream.buf] == base[f := []][f := ts.stream.buf] == disk[f := []][f := ts.stream.buf] == disk;
    } else {
      assert Tag(tid, out) == [];
    }
  }

  lemma StoreOne(cfg: Config, disk: Files, tid: byte, o: Output)
    ensures StoreAll(cfg, disk, Tag(tid, [o])) == Store(cfg, disk, o)
  {
    assert Tag(tid, [o])[1..] == [];
  }

  lemma {:induction false} StoreNothing(cfg: Config, disk: Files, out: seq<(byte, Output)>)
    requires forall i :: 0 <= i < |out| ==> out[i].1.Yield?
    ensures StoreAll(cfg, disk, out) == disk
  {
    if out != [] {
      StoreNothing(cfg, disk, out[1..]);
    }
  }

  /** A packet of a thread that has no file under way. */
  lemma OtherStep(cfg: Config, disk: Files, ok: bool, ts: State, tid: byte, p: Packet)
    requires !FileOpen(ts.stream) && Fits(cfg, ts, p) && Coherent(ts)
    ensures var (ts', out) := Apply(cfg, ok, ts, p);
      && StoreAll(cfg, disk, Tag(tid, out)) == disk
      && (FileOpen(ts'.stream) <==> p.File?)
      && (if p.File? then Writing(cfg, disk, DiskAfter(cfg, disk, ts, ts'), ts'.stream)
          else DiskAfter(cfg, disk, ts, ts') == disk)
  {
    hide Sanitize, ShouldExtract;
    StoreNothing(cfg, disk, Tag(tid, Apply(cfg, ok, ts, p).1));
  }

  lemma WritesStep(cfg: Config, base: Files, disk: Files, ok: bool, table: Table, writer: Option<byte>, tid: byte,
                   p: Packet)
    requires OnlyWriter(cfg, base, disk, table, writer) && (p.File? ==> writer == None)
    requires Fits(cfg, table.Get(tid), p) && Coherent(table.Get(tid))
    ensures var (ts', out) := Apply(cfg, ok, table.Get(tid), p);
      OnlyWriter(cfg, StoreAll(cfg, base, Tag(tid, out)), DiskAfter(cfg, disk, table.Get(tid), ts'),
                 table.Put(tid, ts'), WriterAfter(writer, tid, p))
  {
    hide Apply, Fits, Coherent, StoreAll, DiskAfter, Writing, Table.Get, Table.Put, Tag;
    var ts := table.Get(tid);
    if writer == Some(tid) {
      WriterStep(cfg, base, disk, ok, ts, tid, p);
      WritingClosed(cfg, StoreAll(cfg, base, Tag(tid, Apply(cfg, ok, ts, p).1)),
                    DiskAfter(cfg, disk, ts, Apply(cfg, ok, ts, p).0), Apply(cfg, ok, ts, p).0.stream);
    } else {
      OtherStep(cfg, disk, ok, ts, tid, p);
      OtherStep(cfg, base, ok, ts, tid, p);
      WritingClosed(cfg, base, disk, Closed);
    }
  }

  lemma WritingClosed(cfg: Config, base: Files, disk: Files, stream: Stream)
    ensures !FileOpen(stream) ==> (Writing(cfg, base, disk, stream) <==> base == disk)
    ensures Writing(cfg, base, disk, Closed) <==> base == disk
  {
  }

  lemma {:induction false} FinalYields(cfg: Config, states: map<byte, State>, ids: seq<byte>)
    requires forall t :: t in ids ==> t in states
    ensures forall i :: 0 <= i < |ReadFinal(cfg, states, ids)| ==> ReadFinal(cfg, states, ids)[i].1.Yield?
  {
    if ids != [] {
      FinalYields(cfg, states, ids[1..]);
    }
  }

  lemma PassOver(cfg: Config, disk: Files, table: Table)
    requires table.Valid()
    ensures var pass := Entries(cfg, disk, table, EncodeTagged(cfg.order, []));
      pass.disk == disk && StoreAll(cfg, disk, pass.out) == disk
  {
    FinalYields(cfg, table.states, table.ids);
    StoreNothing(cfg, disk, ReadFinal(cfg, table.states, table.ids));
  }

  lemma {:induction false} PassStores(cfg: Config, base: Files, disk: Files, table: Table, writer: Option<byte>,
                                      tps: seq<Tagged>)
    requires Readable(cfg, table, tps) && OneFileAtATime(writer, tps) && OnlyWriter(cfg, base, disk, table, writer)
    ensures var pass := Entries(cfg, disk, table, EncodeTagged(cfg.order, tps));
      pass.disk == StoreAll(cfg, base, pass.out)
    decreases |tps|
  {
    hide Apply, Readable, Fits, Coherent, EncodeTagged, DiskAfter, Opens, Entries, StoreAll, OnlyWriter, Tag, Table.Put,
      Table.Get, Table.Valid;
    ReadableNow(cfg, table, tps);
    if tps == [] {
      OnlyWriterNone(cfg, base, disk, table);
      PassOver(cfg, disk, table);
    } else {
      var (tid, p) := tps[0];
      var ts := table.Get(tid);
      var ok := Opens(cfg, disk.Keys, ts.name, p);
      var (ts', out) := Apply(cfg, ok, ts, p);
      ReadableStep(cfg, ok, table, tps);
      EntriesStep(cfg, disk, table, tps);
      WritesStep(cfg, base, disk, ok, table, writer, tid, p);
      PassStores(cfg, StoreAll(cfg, base, Tag(tid, out)), DiskAfter(cfg, disk, ts, ts'), table.Put(tid, ts'),
                 WriterAfter(writer, tid, p), tps[1..]);
      StoreConcat(cfg, base, Tag(tid, out), Entries(cfg, DiskAfter(cfg, disk, ts, ts'), table.Put(tid, ts'),
                                                    EncodeTagged(cfg.order, tps[1..])).out);
    }
  }

  lemma OnlyWriterNone(cfg: Config, base: Files, disk: Files, table: Table)
    requires OnlyWriter(cfg, base, disk, table, None)
    ensures base == disk
  {
  }

  /** Where no two files overlap in the log, a pass leaves the disk as it was but for the files saved, each in its
      place, and where several have one place, the last one. */
  lemma FilesStored(cfg: Config, disk: Files, tps: seq<Tagged>)
    requires Readable(cfg, EMPTY, tps) && OneFileAtATime(None, tps)
    ensures var pass := Entries(cfg, disk, EMPTY, EncodeTagged(cfg.order, tps));
      pass.disk == StoreAll(cfg, disk, pass.out)
  {
    hide Entries, EncodeTagged, StoreAll, Readable;
    PassStores(cfg, disk, disk, EMPTY, None, tps);
  }

  // ----- which files are there in the end

  /** Every file among the outputs holds its data. */
  ghost predicate Stands(cfg: Config, disk: Files, means: byte -> seq<Output>) {
    forall t: byte, x :: x in means(t) && x.Saved? ==> OnDisk(cfg, disk, x)
  }

  predicate OnDisk(cfg: Config, disk: Files, x: Output)
    requires x.Saved?
  {
    FileOf(cfg, x.path) in disk && disk[FileOf(cfg, x.path)] == x.data
  }

  predicate SameFile(cfg: Config, x: Output, y: Output) {
    x.Saved? && y.Saved? && FileOf(cfg, x.path) == FileOf(cfg, y.path)
  }

  /** Files stored in one place have the same data. */
  ghost predicate Agree(cfg: Config, means: byte -> seq<Output>) {
    forall t: byte, u: byte, x, y :: x in means(t) && y in means(u) && SameFile(cfg, x, y) ==> x.data == y.data
  }

  lemma {:induction false} ProjectMember<T>(xs: seq<(byte, T)>, t: byte, x: T)
    ensures x in Project(xs, t) <==> (t, x) in xs
  {
    if xs != [] {
      ProjectMember(xs[1..], t, x);
      assert xs == [xs[0]] + xs[1..];
    }
  }

  /** A file saved is there in the end, with its own data or that of a later one in its place. */
  lemma {:induction false} SomeStands(cfg: Config, disk: Files, out: seq<(byte, Output)>, i: nat) returns (j: nat)
    requires i < |out| && out[i].1.Saved?
    ensures i <= j < |out| && SameFile(cfg, out[i].1, out[j].1) && OnDisk(cfg, StoreAll(cfg, disk, out), out[j].1)
    decreases |out|
  {
    if i > 0 {
      j := SomeStands(cfg, Store(cfg, disk, out[0].1), out[1..], i - 1);
      j := j + 1;
    } else if k: nat :| 0 < k < |out| && SameFile(cfg, out[0].1, out[k].1) {
      j := SomeStands(cfg, Store(cfg, disk, out[0].1), out[1..], k - 1);
      j := j + 1;
    } else {
      j := 0;
      forall k | 0 <= k < |out| - 1 ensures !SameFile(cfg, out[0].1, out[1..][k].1) {
        assert out[1..][k] == out[k + 1];
      }
      StaysStored(cfg, Store(cfg, disk, out[0].1), out[1..], out[0].1);
    }
  }

  lemma {:induction false} StaysStored(cfg: Config, disk: Files, out: seq<(byte, Output)>, x: Output)
    requires x.Saved? && OnDisk(cfg, disk, x) && forall k :: 0 <= k < |out| ==> !SameFile(cfg, x, out[k].1)
    ensures OnDisk(cfg, StoreAll(cfg, disk, out), x)
    decreases |out|
  {
    if out != [] {
      StaysStored(cfg, Store(cfg, disk, out[0].1), out[1..], x);
    }
  }

  /** Of the files saved in one place the last one stands. */
  lemma LastStands(cfg: Config, disk: Files, tps: seq<Tagged>, i: nat)
    requires Readable(cfg, EMPTY, tps) && OneFileAtATime(None, tps)
    requires var out := Entries(cfg, disk, EMPTY, EncodeTagged(cfg.order, tps)).out;
      i < |out| && out[i].1.Saved? && forall k :: i < k < |out| ==> !SameFile(cfg, out[i].1, out[k].1)
    ensures var pass := Entries(cfg, disk, EMPTY, EncodeTagged(cfg.order, tps));
      OnDisk(cfg, pass.disk, pass.out[i].1)
  {
    hide Entries, EncodeTagged, StoreAll, Readable;
    FilesStored(cfg, disk, tps);
    var j := SomeStands(cfg, disk, Entries(cfg, disk, EMPTY, EncodeTagged(cfg.order, tps)).out, i);
  }

  lemma StandsExactly(cfg: Config, disk: Files, out: seq<(byte, Output)>, means: byte -> seq<Output>)
    requires forall t: byte :: Project(out, t) == means(t)
    ensures Stands(cfg, StoreAll(cfg, disk, out), means) <==> Agree(cfg, means)
  {
    hide StoreAll, Project;
    var end := StoreAll(cfg, disk, out);
    if Agree(cfg, means) {
      forall t: byte, x | x in means(t) && x.Saved? ensures OnDisk(cfg, end, x) {
        ProjectMember(out, t, x);
        var i :| 0 <= i < |out| && out[i] == (t, x);
        var j := SomeStands(cfg, disk, out, i);
        ProjectMember(out, out[j].0, out[j].1);
        assert out[j].1 in means(out[j].0);
      }
    }
    if Stands(cfg, end, means) {
      forall t: byte, u: byte, x, y | x in means(t) && y in means(u) && SameFile(cfg, x, y) ensures x.data == y.data {
        assert OnDisk(cfg, end, x) && OnDisk(cfg, end, y);
      }
    }
  }

  /** The pass gives back everything, and every file holds its data in the end. */
  ghost predicate AllKept(cfg: Config, pass: Outcome, means: byte -> seq<Output>) {
    (forall t: byte :: Project(pass.out, t) == means(t)) && Stands(cfg, pass.disk, means)
  }

  /** The files can be opened and, where overwriting lets several have one place, they are the same. */
  ghost predicate Lasting(cfg: Config, files: set<Name>, means: byte -> seq<Output>) {
    Keepable(cfg, files, means) && Agree(cfg, means)
  }

  /** Everything is given back, and every file holds its data in the end, if and only if the files can be opened and
      those in one place agree. */
  lemma LastingExactly(cfg: Config, disk: Files, tps: seq<Tagged>, means: byte -> seq<Output>)
    requires Readable(cfg, EMPTY, tps) && AllClosed(cfg, tps) && OneFileAtATime(None, tps)
    requires forall t: byte :: Reading(cfg, FRESH, Project(tps, t)) == means(t)
    ensures AllKept(cfg, Entries(cfg, disk, EMPTY, EncodeTagged(cfg.order, tps)), means)
      <==> Lasting(cfg, disk.Keys, means)
  {
    hide Readable, AllClosed, Entries, EncodeTagged, Reading, Project, Keepable, StoreAll, Stands, Agree,
      OneFileAtATime;
    var pass := Entries(cfg, disk, EMPTY, EncodeTagged(cfg.order, tps));
    KeptExactly(cfg, disk, tps, means);
    FilesStored(cfg, disk, tps);
    if forall t: byte :: Project(pass.out, t) == means(t) {
      StandsExactly(cfg, disk, pass.out, means);
    }
  }
}
