/** The files a reader stores: which ones the packets ask for, and which of them the file system grants. */
module CbaFiles {
  import opened Sequences
  import opened Bytes
  import opened CbaFormat
  import opened CbaDecode

  // ----- what is asked for

  function NameOf(names: map<byte, Name>, t: byte): Name { if t in names then names[t] else [] }

  /** The files asked for by one thread, in order, starting in a module of the given name. */
  function Asked(cfg: Config, name: Name, ps: seq<Packet>): seq<Name>
    decreases |ps|
  {
    if ps == [] then []
    else if ps[0].Head? then Asked(cfg, ps[0].name, ps[1..])
    else
      (if Asks(cfg, name, ps[0]) then [TargetPath(cfg, name, ps[0].path)] else []) + Asked(cfg, name, ps[1..])
  }

  /** The files asked for by all threads, in the order of the log, each with its thread. `names` are the modules
      the threads are in. */
  function Wanted(cfg: Config, names: map<byte, Name>, tps: seq<Tagged>): seq<(byte, Name)>
    decreases |tps|
  {
    if tps == [] then []
    else
      var (tid, p) := tps[0];
      if p.Head? then Wanted(cfg, names[tid := p.name], tps[1..])
      else
        var name := NameOf(names, tid);
        (if Asks(cfg, name, p) then [(tid, TargetPath(cfg, name, p.path))] else []) + Wanted(cfg, names, tps[1..])
  }

  lemma {:induction false} WantedProjects(cfg: Config, names: map<byte, Name>, tps: seq<Tagged>, t: byte)
    ensures Project(Wanted(cfg, names, tps), t) == Asked(cfg, NameOf(names, t), Project(tps, t))
    decreases |tps|
  {
    hide TargetPath;
    if tps != [] {
      var (tid, p) := tps[0];
      var rest := Project(tps[1..], t);
      assert tid == t ==> Project(tps, t)[0] == p && Project(tps, t)[1..] == rest;
      assert tid != t ==> Project(tps, t) == rest;
      if p.Head? {
        WantedProjects(cfg, names[tid := p.name], tps[1..], t);
      } else {
        var name := NameOf(names, tid);
        var here := if Asks(cfg, name, p) then [(tid, TargetPath(cfg, name, p.path))] else [];
        WantedProjects(cfg, names, tps[1..], t);
        ProjectConcat(here, Wanted(cfg, names, tps[1..]), t);
        assert here != [] ==> here[1..] == [];
      }
    }
  }

  // ----- what is granted

  /** Which of the files can be opened, one after the other, when at first the files `disk` exist. */
  function Granted(cfg: Config, disk: set<Name>, wanted: seq<(byte, Name)>): (r: seq<(byte, bool)>)
    ensures |r| == |wanted|
    decreases |wanted|
  {
    if wanted == [] then []
    else
      var (tid, target) := wanted[0];
      [(tid, CanOpen(cfg, disk, target))] + Granted(cfg, DiskWith(cfg, disk, target), wanted[1..])
  }

  /** The files that exist once opening `target` has been tried. */
  function DiskWith(cfg: Config, disk: set<Name>, target: Name): set<Name> {
    if CanOpen(cfg, disk, target) then disk + {FileOf(cfg, target)} else disk
  }

  function DiskAll(cfg: Config, disk: set<Name>, wanted: seq<(byte, Name)>): set<Name>
    decreases |wanted|
  {
    if wanted == [] then disk else DiskAll(cfg, DiskWith(cfg, disk, wanted[0].1), wanted[1..])
  }

  lemma {:induction false} GrantedConcat(cfg: Config, disk: set<Name>, xs: seq<(byte, Name)>, ys: seq<(byte, Name)>)
    ensures Granted(cfg, disk, xs + ys) == Granted(cfg, disk, xs) + Granted(cfg, DiskAll(cfg, disk, xs), ys)
    decreases |xs|
  {
    if xs == [] {
      assert xs + ys == ys;
    } else {
      FirstOfConcat(xs, ys);
      GrantedConcat(cfg, DiskWith(cfg, disk, xs[0].1), xs[1..], ys);
    }
  }

  lemma {:induction false} GrantedProjects(cfg: Config, disk: set<Name>, wanted: seq<(byte, Name)>, t: byte)
    ensures |Project(Granted(cfg, disk, wanted), t)| == |Project(wanted, t)|
    decreases |wanted|
  {
    if wanted != [] {
      GrantedProjects(cfg, DiskWith(cfg, disk, wanted[0].1), wanted[1..], t);
    }
  }

  predicate All(oks: seq<bool>) {
    forall i :: 0 <= i < |oks| ==> oks[i]
  }

  /** The files the paths lead to. */
  function FilesOf(cfg: Config, paths: seq<Name>): set<Name> {
    if paths == [] then {} else {FileOf(cfg, paths[0])} + FilesOf(cfg, paths[1..])
  }

  /** No two of the paths lead to one file. */
  predicate Apart(cfg: Config, paths: seq<Name>) {
    paths == [] || (FileOf(cfg, paths[0]) !in FilesOf(cfg, paths[1..]) && Apart(cfg, paths[1..]))
  }

  predicate NoneBlocked(cfg: Config, paths: seq<Name>) {
    paths == [] || (paths[0] !in cfg.blocked && NoneBlocked(cfg, paths[1..]))
  }

  /** All these files can be stored: none of them is blocked and, unless existing files are overwritten, none of them
      exists and no two are the same. */
  predicate Storable(cfg: Config, disk: set<Name>, paths: seq<Name>) {
    NoneBlocked(cfg, paths) && (cfg.overwrite || (FilesOf(cfg, paths) !! disk && Apart(cfg, paths)))
  }

  function Seconds<T>(xs: seq<(byte, T)>): (r: seq<T>)
    ensures |r| == |xs| && forall i :: 0 <= i < |xs| ==> r[i] == xs[i].1
  {
    if xs == [] then [] else [xs[0].1] + Seconds(xs[1..])
  }

  lemma StorableFirst(cfg: Config, disk: set<Name>, x: Name, rest: seq<Name>)
    ensures Storable(cfg, disk, [x] + rest)
      <==> CanOpen(cfg, disk, x) && Storable(cfg, DiskWith(cfg, disk, x), rest)
  {
    assert ([x] + rest)[1..] == rest;
  }

  /** Every file asked for is granted if and only if they can all be stored, whatever their order. */
  lemma {:induction false} AllGranted(cfg: Config, disk: set<Name>, wanted: seq<(byte, Name)>)
    ensures All(Seconds(Granted(cfg, disk, wanted))) <==> Storable(cfg, disk, Seconds(wanted))
    decreases |wanted|
  {
    hide Storable, CanOpen, DiskWith;
    if wanted == [] {
      StorableNone(cfg, disk);
    } else {
      var target := wanted[0].1;
      var oks := Seconds(Granted(cfg, DiskWith(cfg, disk, target), wanted[1..]));
      AllGranted(cfg, DiskWith(cfg, disk, target), wanted[1..]);
      StorableFirst(cfg, disk, target, Seconds(wanted[1..]));
      AllFirst(CanOpen(cfg, disk, target), oks);
    }
  }

  lemma StorableNone(cfg: Config, disk: set<Name>)
    ensures Storable(cfg, disk, [])
  {
  }

  lemma AllFirst(ok: bool, oks: seq<bool>)
    ensures All([ok] + oks) <==> ok && All(oks)
  {
    var all := [ok] + oks;
    assert all[0] == ok && forall i :: 0 <= i < |oks| ==> all[i + 1] == oks[i];
  }

  // ----- thread by thread

  /** The files one thread asks for. */
  ghost function ThreadFiles(cfg: Config, wanted: seq<(byte, Name)>, t: byte): set<Name> {
    FilesOf(cfg, Project(wanted, t))
  }

  ghost predicate ThreadStorable(cfg: Config, disk: set<Name>, wanted: seq<(byte, Name)>, t: byte) {
    Storable(cfg, disk, Project(wanted, t))
  }

  /** No two threads ask for the same file. */
  ghost predicate ThreadsApart(cfg: Config, wanted: seq<(byte, Name)>) {
    forall t: byte, u: byte :: t != u ==> ThreadFiles(cfg, wanted, t) !! ThreadFiles(cfg, wanted, u)
  }

  /** Each thread's files can be stored, and no two threads share one unless files are overwritten. */
  ghost predicate AllStorable(cfg: Config, disk: set<Name>, wanted: seq<(byte, Name)>) {
    && (forall t: byte :: ThreadStorable(cfg, disk, wanted, t))
    && (cfg.overwrite || ThreadsApart(cfg, wanted))
  }

  lemma ThreadFirst(cfg: Config, disk: set<Name>, wanted: seq<(byte, Name)>, t: byte)
    requires wanted != []
    ensures var (tid, x) := wanted[0];
      var rest := ThreadFiles(cfg, wanted[1..], t);
      && ThreadFiles(cfg, wanted, t) == (if t == tid then {FileOf(cfg, x)} else {}) + rest
      && (ThreadStorable(cfg, disk, wanted, t)
          <==> (t == tid ==> CanOpen(cfg, disk, x) && (cfg.overwrite || FileOf(cfg, x) !in rest))
               && ThreadStorable(cfg, disk, wanted[1..], t))
  {
    var (tid, x) := wanted[0];
    var rest := Project(wanted[1..], t);
    assert ([x] + rest)[1..] == rest;
    assert [] + rest == rest;
  }

  /** A file is asked for if and only if some thread asks for it. */
  lemma {:induction false} AskedBySome(cfg: Config, file: Name, wanted: seq<(byte, Name)>)
    ensures file !in FilesOf(cfg, Seconds(wanted)) <==> forall t: byte :: file !in ThreadFiles(cfg, wanted, t)
  {
    if wanted == [] {
      assert forall t: byte :: Project(wanted, t) == [];
    } else {
      var (tid, x) := wanted[0];
      AskedBySome(cfg, file, wanted[1..]);
      assert Seconds(wanted)[1..] == Seconds(wanted[1..]);
      forall t: byte
        ensures file !in ThreadFiles(cfg, wanted, t)
          <==> (t == tid ==> file != FileOf(cfg, x)) && file !in ThreadFiles(cfg, wanted[1..], t)
      {
        ThreadFirst(cfg, {}, wanted, t);
      }
      assert ThreadFiles(cfg, wanted, tid) == {FileOf(cfg, x)} + ThreadFiles(cfg, wanted[1..], tid) by {
        ThreadFirst(cfg, {}, wanted, tid);
      }
    }
  }

  /** All files can be stored if and only if those of each thread can and no two threads share one. */
  lemma {:induction false} StorableByThread(cfg: Config, disk: set<Name>, wanted: seq<(byte, Name)>)
    ensures Storable(cfg, disk, Seconds(wanted)) <==> AllStorable(cfg, disk, wanted)
  {
    if wanted == [] {
      forall t: byte ensures ThreadStorable(cfg, disk, wanted, t) && ThreadFiles(cfg, wanted, t) == {} {
        assert Project(wanted, t) == [];
      }
    } else {
      var (tid, x) := wanted[0];
      var rest := wanted[1..];
      StorableByThread(cfg, disk, rest);
      StorableSplits(cfg, disk, x, Seconds(rest));
      AskedBySome(cfg, FileOf(cfg, x), rest);
      forall t: byte
        ensures ThreadStorable(cfg, disk, wanted, t)
          <==> (t == tid ==> CanOpen(cfg, disk, x) && (cfg.overwrite || FileOf(cfg, x) !in ThreadFiles(cfg, rest, t)))
               && ThreadStorable(cfg, disk, rest, t)
      {
        ThreadFirst(cfg, disk, wanted, t);
      }
      ThreadsApartFirst(cfg, wanted);
      assert Seconds(wanted) == [x] + Seconds(rest);
      assert ThreadStorable(cfg, disk, wanted, tid) ==> CanOpen(cfg, disk, x);
    }
  }

  lemma StorableSplits(cfg: Config, disk: set<Name>, x: Name, rest: seq<Name>)
    ensures Storable(cfg, disk, [x] + rest)
      <==> CanOpen(cfg, disk, x) && Storable(cfg, disk, rest)
           && (cfg.overwrite || FileOf(cfg, x) !in FilesOf(cfg, rest))
  {
    assert ([x] + rest)[1..] == rest;
  }

  lemma ThreadsApartFirst(cfg: Config, wanted: seq<(byte, Name)>)
    requires wanted != []
    ensures var (tid, x) := wanted[0];
      ThreadsApart(cfg, wanted) <==>
        (ThreadsApart(cfg, wanted[1..])
         && forall t: byte :: t != tid ==> FileOf(cfg, x) !in ThreadFiles(cfg, wanted[1..], t))
  {
    hide FilesOf, ThreadFiles;
    var (tid, x) := wanted[0];
    var rest := wanted[1..];
    forall t: byte
      ensures ThreadFiles(cfg, wanted, t) == (if t == tid then {FileOf(cfg, x)} else {}) + ThreadFiles(cfg, rest, t)
    {
      ThreadFirst(cfg, {}, wanted, t);
    }
    if ThreadsApart(cfg, wanted) {
      assert FileOf(cfg, x) in ThreadFiles(cfg, wanted, tid);
      forall t: byte | t != tid ensures FileOf(cfg, x) !in ThreadFiles(cfg, rest, t) {
        assert ThreadFiles(cfg, wanted, t) !! ThreadFiles(cfg, wanted, tid);
      }
    }
  }

  lemma GrantedFirst(cfg: Config, disk: set<Name>, own: set<Name>, wanted: seq<(byte, Name)>, t: byte)
    requires wanted != []
    ensures var (tid, x) := wanted[0];
      var rest := wanted[1..];
      && Project(Granted(cfg, disk, wanted), t)
         == (if tid == t then [CanOpen(cfg, disk, x)] else []) + Project(Granted(cfg, DiskWith(cfg, disk, x), rest), t)
      && Project(Granted(cfg, own, Tag(t, Project(wanted, t))), t)
         == if tid == t
            then [CanOpen(cfg, own, x)]
                 + Project(Granted(cfg, DiskWith(cfg, own, x), Tag(t, Project(rest, t))), t)
            else Project(Granted(cfg, own, Tag(t, Project(rest, t))), t)
  {
    hide CanOpen, DiskWith;
    var (tid, x) := wanted[0];
    var rest := Project(wanted[1..], t);
    assert Granted(cfg, disk, wanted)[1..] == Granted(cfg, DiskWith(cfg, disk, x), wanted[1..]);
    assert Project(wanted, t) == (if tid == t then [x] else []) + rest;
    if tid == t {
      var alone := Tag(t, [x] + rest);
      assert alone[0] == (t, x) && alone[1..] == Tag(t, rest);
      assert Granted(cfg, own, alone)[1..] == Granted(cfg, DiskWith(cfg, own, x), Tag(t, rest));
    } else {
      assert [] + rest == rest;
    }
  }

  /** What a thread is granted does not depend on the other threads, unless one of them asks for the same file. */
  lemma {:induction false} GrantedAlone(cfg: Config, disk: set<Name>, own: set<Name>, wanted: seq<(byte, Name)>,
                                        t: byte)
    requires !cfg.overwrite
    requires forall f :: f in ThreadFiles(cfg, wanted, t) ==> (f in disk <==> f in own)
    requires forall u: byte :: u != t ==> ThreadFiles(cfg, wanted, t) !! ThreadFiles(cfg, wanted, u)
    ensures Project(Granted(cfg, disk, wanted), t) == Project(Granted(cfg, own, Tag(t, Project(wanted, t))), t)
    decreases |wanted|
  {
    hide Project, Granted, Tag, ThreadFiles;
    if wanted == [] {
      NoneGranted(cfg, disk, own, t);
    } else {
      var (tid, x) := wanted[0];
      var rest := wanted[1..];
      forall u: byte
        ensures ThreadFiles(cfg, wanted, u) == (if u == tid then {FileOf(cfg, x)} else {}) + ThreadFiles(cfg, rest, u)
      {
        ThreadFirst(cfg, {}, wanted, u);
      }
      assert FileOf(cfg, x) in ThreadFiles(cfg, wanted, tid);
      GrantedAlone(cfg, DiskWith(cfg, disk, x), if t == tid then DiskWith(cfg, own, x) else own, rest, t);
      GrantedFirst(cfg, disk, own, wanted, t);
    }
  }

  lemma NoneGranted(cfg: Config, disk: set<Name>, own: set<Name>, t: byte)
    ensures Project(Granted(cfg, disk, []), t) == Project(Granted(cfg, own, Tag(t, Project([], t))), t) == []
  {
  }

  lemma {:induction false} OverwriteGrants(cfg: Config, disk: set<Name>, own: set<Name>, wanted: seq<(byte, Name)>,
                                           t: byte)
    requires cfg.overwrite
    ensures Project(Granted(cfg, disk, wanted), t) == Project(Granted(cfg, own, Tag(t, Project(wanted, t))), t)
    decreases |wanted|
  {
    hide Project, Granted, Tag;
    if wanted == [] {
      NoneGranted(cfg, disk, own, t);
    } else {
      var (tid, x) := wanted[0];
      OverwriteGrants(cfg, DiskWith(cfg, disk, x), if t == tid then DiskWith(cfg, own, x) else own, wanted[1..], t);
      GrantedFirst(cfg, disk, own, wanted, t);
    }
  }

  /** A thread is granted all it asks for. */
  ghost predicate AllTo(oks: seq<(byte, bool)>, t: byte) {
    All(Project(oks, t))
  }

  lemma {:induction false} AllByThread(oks: seq<(byte, bool)>)
    ensures All(Seconds(oks)) <==> forall t: byte :: AllTo(oks, t)
  {
    if oks == [] {
      assert forall t: byte :: Project(oks, t) == [];
    } else {
      var (tid, ok) := oks[0];
      AllByThread(oks[1..]);
      AllFirst(ok, Seconds(oks[1..]));
      assert Seconds(oks) == [ok] + Seconds(oks[1..]);
      forall t: byte
        ensures AllTo(oks, t) <==> (t == tid ==> ok) && AllTo(oks[1..], t)
      {
        AllFirst(ok, Project(oks[1..], t));
        assert [] + Project(oks[1..], t) == Project(oks[1..], t);
      }
      assert AllTo(oks, tid) ==> ok;
    }
  }

  // ----- what is stored

  /** Of these outputs, the ones left when the files in it are granted as `oks` says, one after the other. */
  function Survive(out: seq<Output>, oks: seq<bool>): seq<Output> {
    if out == [] then []
    else if out[0].Yield? then [out[0]] + Survive(out[1..], oks)
    else (if First(oks) then [out[0]] else []) + Survive(out[1..], Next(oks))
  }

  /** The paths of the files among the outputs, and the entries among them. */
  function PathsOf(out: seq<Output>): seq<Name> {
    if out == [] then [] else (if out[0].Saved? then [out[0].path] else []) + PathsOf(out[1..])
  }

  function YieldsOf(out: seq<Output>): seq<Entry> {
    if out == [] then [] else (if out[0].Yield? then [out[0].entry] else []) + YieldsOf(out[1..])
  }

  lemma {:induction false} YieldsOfConcat(xs: seq<Output>, ys: seq<Output>)
    ensures YieldsOf(xs + ys) == YieldsOf(xs) + YieldsOf(ys)
  {
    if xs == [] {
      assert xs + ys == ys;
    } else {
      FirstOfConcat(xs, ys);
      YieldsOfConcat(xs[1..], ys);
      Assoc(if xs[0].Yield? then [xs[0].entry] else [], YieldsOf(xs[1..]), YieldsOf(ys));
    }
  }

  lemma YieldsFirst(x: Output, rest: seq<Output>)
    ensures YieldsOf([x] + rest) == (if x.Yield? then [x.entry] else []) + YieldsOf(rest)
  {
    assert ([x] + rest)[1..] == rest;
  }

  /** The entries are those read, whichever files are granted. */
  lemma {:induction false} YieldsSurvive(out: seq<Output>, oks: seq<bool>)
    ensures YieldsOf(Survive(out, oks)) == YieldsOf(out)
    decreases |out|
  {
    hide YieldsOf;
    if out != [] {
      var oks' := if out[0].Yield? then oks else Next(oks);
      YieldsSurvive(out[1..], oks');
      var rest := Survive(out[1..], oks');
      YieldsFirst(out[0], rest);
      YieldsFirst(out[0], out[1..]);
      assert out == [out[0]] + out[1..];
      assert [] + rest == rest && [] + YieldsOf(rest) == YieldsOf(rest);
    }
  }

  /** Nothing is lost if and only if every file is granted. */
  lemma {:induction false} SurviveAll(out: seq<Output>, oks: seq<bool>)
    requires |oks| == |PathsOf(out)|
    ensures |Survive(out, oks)| <= |out|
    ensures Survive(out, oks) == out <==> All(oks)
    decreases |out|
  {
    if out != [] {
      if out[0].Yield? {
        SurviveAll(out[1..], oks);
        SameRest(out[0], Survive(out[1..], oks), out);
      } else {
        SurviveAll(out[1..], oks[1..]);
        assert oks == [oks[0]] + oks[1..];
        AllFirst(oks[0], oks[1..]);
        SameRest(out[0], Survive(out[1..], oks[1..]), out);
        assert [] + Survive(out[1..], oks[1..]) == Survive(out[1..], oks[1..]);
      }
    }
  }

  lemma SameRest<T>(x: T, rest: seq<T>, all: seq<T>)
    requires all != [] && all[0] == x
    ensures [x] + rest == all <==> rest == all[1..]
  {
    assert ([x] + rest)[1..] == rest;
    assert all == [x] + all[1..];
  }

  lemma {:induction false} SurviveConcat(out: seq<Output>, more: seq<Output>, oks: seq<bool>, rest: seq<bool>)
    requires |oks| == |PathsOf(out)|
    ensures Survive(out + more, oks + rest) == Survive(out, oks) + Survive(more, rest)
    decreases |out|
  {
    if out == [] {
      assert out + more == more && oks + rest == rest;
      assert [] + Survive(more, rest) == Survive(more, rest);
    } else {
      FirstOfConcat(out, more);
      if out[0].Yield? {
        SurviveConcat(out[1..], more, oks, rest);
        Assoc([out[0]], Survive(out[1..], oks), Survive(more, rest));
      } else {
        FirstOfConcat(oks, rest);
        SurviveConcat(out[1..], more, oks[1..], rest);
        Assoc(if oks[0] then [out[0]] else [], Survive(out[1..], oks[1..]), Survive(more, rest));
      }
    }
  }

  // ----- one thread

  /** The state of the reader where the log would have a stream open to a file that was refused. */
  function Refused(ts: State, ok: bool): State {
    if ts.stream.Disk? && !ok then ts.(stream := Ignore) else ts
  }

  function Ahead(ts: State, ok: bool): seq<bool> { if ts.stream.Disk? then [ok] else [] }

  /** With files refused, a thread reads what it reads with all files granted, less the files refused: the other
      outputs do not change. */
  lemma {:induction false} ReadingSurvives(cfg: Config, ts: State, ok: bool, ps: seq<Packet>, oks: seq<bool>)
    requires Legible(cfg, ts, ps)
    ensures ReadingWith(cfg, Refused(ts, ok), ps, oks) == Survive(Reading(cfg, ts, ps), Ahead(ts, ok) + oks)
    decreases |ps|
  {
    hide Survive;
    if ps == [] {
      SurviveResult(cfg, ts, Ahead(ts, ok) + oks);
      assert [] + Result(cfg, ts) == Result(cfg, ts);
    } else {
      var p := ps[0];
      var (ts', out) := Apply(cfg, true, ts, p);
      var asks := Asks(cfg, ts.name, p);
      var ok' := if asks then First(oks) else ok;
      var oks' := if asks then Next(oks) else oks;
      ReadingSurvives(cfg, ts', ok', ps[1..], oks');
      RefusedState(cfg, ts, ok, p, oks);
      RefusedOut(cfg, ts, ok, p, oks, Reading(cfg, ts', ps[1..]));
      ReadingFirst(cfg, ts, ps);
    }
  }

  lemma ReadingFirst(cfg: Config, ts: State, ps: seq<Packet>)
    requires ps != []
    ensures var (ts', out) := Apply(cfg, true, ts, ps[0]); Reading(cfg, ts, ps) == out + Reading(cfg, ts', ps[1..])
  {
  }

  lemma SurviveResult(cfg: Config, ts: State, oks: seq<bool>)
    ensures Survive(Result(cfg, ts), oks) == Result(cfg, ts)
  {
    var out := Result(cfg, ts);
    if out != [] {
      assert out[1..] == [];
    }
  }

  lemma SurviveFirst(out: Output, rest: seq<Output>, oks: seq<bool>)
    ensures Survive([out] + rest, oks)
      == if out.Yield? then [out] + Survive(rest, oks)
         else (if First(oks) then [out] else []) + Survive(rest, Next(oks))
  {
    assert ([out] + rest)[1..] == rest;
  }

  lemma {:induction false} SurviveNoMore(out: seq<Output>)
    ensures Survive(out, [false]) == Survive(out, [])
  {
    if out != [] {
      SurviveNoMore(out[1..]);
      assert [false][1..] == [];
    }
  }

  /** One packet: the refused reader does the same to its state. */
  lemma RefusedState(cfg: Config, ts: State, ok: bool, p: Packet, oks: seq<bool>)
    requires Fits(cfg, ts, p)
    ensures Apply(cfg, First(oks), Refused(ts, ok), p).0
      == Refused(Apply(cfg, true, ts, p).0, if Asks(cfg, ts.name, p) then First(oks) else ok)
  {
    hide Sanitize, ShouldExtract;
  }

  /** It gives the same outputs, less the file refused. */
  lemma RefusedOut(cfg: Config, ts: State, ok: bool, p: Packet, oks: seq<bool>, rest: seq<Output>)
    requires Fits(cfg, ts, p)
    ensures var (ts', out) := Apply(cfg, true, ts, p);
      var asks := Asks(cfg, ts.name, p);
      var out' := Apply(cfg, First(oks), Refused(ts, ok), p).1;
      Survive(out + rest, Ahead(ts, ok) + oks)
        == out' + Survive(rest, Ahead(ts', if asks then First(oks) else ok) + if asks then Next(oks) else oks)
  {
    hide Survive, Sanitize, ShouldExtract;
    var (ts', out) := Apply(cfg, true, ts, p);
    var out' := Apply(cfg, First(oks), Refused(ts, ok), p).1;
    NothingBefore(oks, rest);
    if p.File? {
      FileAnswer(oks, rest);
      NothingBefore(oks, Survive(rest, oks));
    } else if p.Chunk? && p.data == [] && ts.stream.Disk? {
      assert out == [Saved(ts.stream.path, ts.stream.buf)];
      SurviveFirst(out[0], rest, [ok] + oks);
      assert ([ok] + oks)[1..] == oks;
    } else if p.Head? && out != [] {
      SurviveFirst(out[0], rest, oks);
      assert out == [out[0]];
    } else {
      assert out == [] && out' == [];
      NothingBefore(oks, Survive(rest, Ahead(ts, ok) + oks));
    }
  }

  lemma NothingBefore(oks: seq<bool>, rest: seq<Output>)
    ensures [] + oks == oks && [] + rest == rest
  {
  }

  /** The answer for a file opened now comes first. */
  lemma FileAnswer(oks: seq<bool>, rest: seq<Output>)
    ensures Survive(rest, [First(oks)] + Next(oks)) == Survive(rest, oks)
  {
    SurviveNoMore(rest);
    assert oks != [] ==> [oks[0]] + oks[1..] == oks;
    assert [false] + [] == [false];
  }

  /** The file being written. */
  function Open(ts: State): seq<Name> { if ts.stream.Disk? then [ts.stream.path] else [] }

  lemma {:induction false} PathsConcat(out: seq<Output>, more: seq<Output>)
    ensures PathsOf(out + more) == PathsOf(out) + PathsOf(more)
  {
    if out == [] {
      assert out + more == more;
    } else {
      FirstOfConcat(out, more);
      PathsConcat(out[1..], more);
      Assoc(if out[0].Saved? then [out[0].path] else [], PathsOf(out[1..]), PathsOf(more));
    }
  }

  lemma OneAsked(cfg: Config, ts: State, p: Packet)
    requires Fits(cfg, ts, p)
    ensures var (ts', out) := Apply(cfg, true, ts, p);
      && PathsOf(out) + Open(ts')
         == Open(ts) + (if Asks(cfg, ts.name, p) then [TargetPath(cfg, ts.name, p.path)] else [])
      && ts'.name == (if p.Head? then p.name else ts.name)
  {
    hide Sanitize, ShouldExtract;
    var (ts', out) := Apply(cfg, true, ts, p);
    assert out != [] ==> out == [out[0]];
  }

  /** The files asked for are those stored when all are granted, a file still being written included. */
  lemma {:induction false} AskedAreSaved(cfg: Config, ts: State, ps: seq<Packet>)
    requires Legible(cfg, ts, ps)
    ensures PathsOf(Reading(cfg, ts, ps)) + Open(Play(cfg, ts, ps).0) == Open(ts) + Asked(cfg, ts.name, ps)
    decreases |ps|
  {
    hide PathsOf, TargetPath;
    if ps == [] {
      assert [] + Result(cfg, ts) == Result(cfg, ts);
      NoPaths(cfg, ts);
      assert [] + Open(ts) == Open(ts) + [];
    } else {
      var p := ps[0];
      var (ts', out) := Apply(cfg, true, ts, p);
      var rest := Reading(cfg, ts', ps[1..]);
      OneAsked(cfg, ts, p);
      AskedAreSaved(cfg, ts', ps[1..]);
      ReadingFirst(cfg, ts, ps);
      PathsConcat(out, rest);
      var here := if Asks(cfg, ts.name, p) then [TargetPath(cfg, ts.name, p.path)] else [];
      var last := Open(Play(cfg, ts', ps[1..]).0);
      Assoc(PathsOf(out), PathsOf(rest), last);
      Assoc(PathsOf(out), Open(ts'), Asked(cfg, ts'.name, ps[1..]));
      Assoc(Open(ts), here, Asked(cfg, ts'.name, ps[1..]));
      assert Asked(cfg, ts.name, ps) == here + Asked(cfg, ts'.name, ps[1..]) by {
        assert [] + Asked(cfg, ts'.name, ps[1..]) == Asked(cfg, ts'.name, ps[1..]);
      }
    }
  }

  lemma NoPaths(cfg: Config, ts: State)
    ensures PathsOf(Result(cfg, ts)) == []
  {
    assert Result(cfg, ts) != [] ==> Result(cfg, ts)[1..] == [];
  }
}
