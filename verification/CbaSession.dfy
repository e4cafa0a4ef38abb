/** Whole sessions: several writers take turns on one file, run after run, and a reader goes through it. */
module CbaSession {
  import opened Sequences
  import opened Bytes
  import opened CbaFormat
  import opened CbaDecode
  import opened CbaFiles
  import opened CbaInterleave
  import opened CbaDisk
  import opened CbaCalls
  import opened CbaMeaning
  import opened CbaRuns
  import opened CbaWriter
  import opened CbaReader

  /** The pen of thread `t`, before its first call too. */
  ghost function PenOf(pens: map<byte, Pen>, t: byte): Pen {
    if t in pens then pens[t] else NEWPEN
  }

  /** Each thread has a writer of its own on the same file, with its own buffer and the pen listed for it. */
  ghost predicate Crew(writers: map<byte, Writer>, pens: map<byte, Pen>, file: LogFile)
    reads set u | u in writers :: writers[u], set u | u in writers :: writers[u].deferredBuffer
  {
    && pens.Keys == writers.Keys
    && (forall t :: t in writers ==>
          && writers[t].threadId == t && writers[t].file == file && writers[t].Valid() && writers[t].pen == pens[t])
    && (forall t, u :: t in writers && u in writers && t != u ==>
          writers[t].deferredBuffer != writers[u].deferredBuffer)
  }

  /** The packets in the file and those the rest of the schedule will send are, thread by thread, those of the
      whole schedule. */
  ghost predicate OnTrack(order: Order, done: seq<Packet>, pen: Pen, left: seq<Call>, all: seq<Call>) {
    done + Packets(pen, left) == Packets(NEWPEN, all) && AllSound(order, pen, left)
  }

  lemma StayOnTrack(order: Order, done: seq<Packet>, pen: Pen, left: seq<Call>, all: seq<Call>)
    requires left != [] && OnTrack(order, done, pen, left, all)
    ensures var (pen', ps) := Step(pen, left[0]);
      OnTrack(order, done + ps, pen', left[1..], all) && Sound(order, pen, left[0])
  {
    var (pen', ps) := Step(pen, left[0]);
    Assoc(done, ps, Packets(pen', left[1..]));
  }

  lemma LogGrows(order: Order, marker: seq<byte>, log: seq<Tagged>, tid: byte, ps: seq<Packet>)
    ensures marker + EncodeTagged(order, log + Tag(tid, ps))
      == marker + EncodeTagged(order, log) + Image(order, tid, ps)
  {
    EncodeTaggedConcat(order, log, Tag(tid, ps));
    Assoc(marker, EncodeTagged(order, log), Image(order, tid, ps));
  }

  lemma LogProjects(log: seq<Tagged>, tid: byte, ps: seq<Packet>, t: byte)
    ensures Project(log + Tag(tid, ps), t) == if t == tid then Project(log, t) + ps else Project(log, t)
  {
    ProjectConcat(log, Tag(tid, ps), t);
    ProjectTag(ps, tid, t);
    assert Project(log, t) + [] == Project(log, t);
  }

  lemma ScheduleProjects(schedule: seq<(byte, Call)>, i: nat, t: byte)
    requires i < |schedule|
    ensures Project(schedule[i..], t)
      == if schedule[i].0 == t then [schedule[i].1] + Project(schedule[i + 1..], t) else Project(schedule[i + 1..], t)
  {
    assert schedule[i..][1..] == schedule[i + 1..];
  }

  /** Where the session stands before entry `i` of the schedule. */
  ghost predicate AtEntry(order: Order, schedule: seq<(byte, Call)>, i: nat, log: seq<Tagged>, pens: map<byte, Pen>)
    requires i <= |schedule|
  {
    forall t: byte :: OnTrack(order, Project(log, t), PenOf(pens, t), Project(schedule[i..], t), Project(schedule, t))
  }

  lemma Begin(order: Order, schedule: seq<(byte, Call)>)
    requires forall t: byte :: AllSound(order, NEWPEN, Project(schedule, t))
    ensures AtEntry(order, schedule, 0, [], map[]) && EncodeTagged(order, []) == []
  {
    assert schedule[0..] == schedule;
    forall t: byte
      ensures OnTrack(order, Project<Packet>([], t), NEWPEN, Project(schedule[0..], t), Project(schedule, t))
    {
      assert [] + Packets(NEWPEN, Project(schedule, t)) == Packets(NEWPEN, Project(schedule, t));
    }
  }

  lemma NextEntry(order: Order, schedule: seq<(byte, Call)>, i: nat, log: seq<Tagged>, pens: map<byte, Pen>)
    requires i < |schedule| && AtEntry(order, schedule, i, log, pens)
    ensures var (tid, call) := schedule[i];
      var (pen', ps) := Step(PenOf(pens, tid), call);
      && Sound(order, PenOf(pens, tid), call)
      && AtEntry(order, schedule, i + 1, log + Tag(tid, ps), pens[tid := pen'])
  {
    hide OnTrack, Step, Sound;
    var (tid, call) := schedule[i];
    var pen, left := PenOf(pens, tid), Project(schedule[i + 1..], tid);
    var (pen', ps) := Step(pen, call);
    ScheduleProjects(schedule, i, tid);
    assert ([call] + left)[1..] == left;
    StayOnTrack(order, Project(log, tid), pen, [call] + left, Project(schedule, tid));
    forall t: byte ensures OnTrack(order, Project(log + Tag(tid, ps), t), PenOf(pens[tid := pen'], t),
                                   Project(schedule[i + 1..], t), Project(schedule, t))
    {
      LogProjects(log, tid, ps, t);
      ScheduleProjects(schedule, i, t);
    }
  }

  lemma EndOnTrack(order: Order, done: seq<Packet>, pen: Pen, all: seq<Call>)
    requires OnTrack(order, done, pen, [], all)
    ensures done == Packets(NEWPEN, all)
  {
    assert done + [] == done;
  }

  lemma NobodyYet(file: LogFile)
    ensures Crew(map[], map[], file)
  {
  }

  /** The call of one thread, by its writer, made on the thread's first call. */
  method TakeTurn(file: LogFile, writers: map<byte, Writer>, ghost pens: map<byte, Pen>, tid: byte, call: Call)
    returns (writers': map<byte, Writer>)
    requires Crew(writers, pens, file) && Sound(file.order, PenOf(pens, tid), call)
    modifies file, set u | u in writers :: writers[u], set u | u in writers :: writers[u].deferredBuffer
    ensures Crew(writers', pens[tid := Step(PenOf(pens, tid), call).0], file)
    ensures forall t :: t in writers' ==>
      if t in writers then writers'[t] == writers[t] else fresh(writers'[t]) && fresh(writers'[t].deferredBuffer)
    ensures file.bytes == old(file.bytes) + Image(file.order, tid, Step(PenOf(pens, tid), call).1)
  {
    hide Step, Sound, Image, Crew;
    if tid in writers {
      CrewMember(writers, pens, tid, file);
      writers' := writers;
      Speak(file, writers, pens, tid, call);
    } else {
      var w := new Writer(tid, file);
      NewMember(writers, pens, tid, w, file);
      writers' := writers[tid := w];
      Speak(file, writers', pens[tid := NEWPEN], tid, call);
      assert pens[tid := NEWPEN][tid := Step(NEWPEN, call).0] == pens[tid := Step(NEWPEN, call).0];
    }
  }

  lemma CrewMember(writers: map<byte, Writer>, pens: map<byte, Pen>, tid: byte, file: LogFile)
    requires Crew(writers, pens, file) && tid in writers
    ensures tid in pens && PenOf(pens, tid) == pens[tid]
  {
  }

  lemma NewMember(writers: map<byte, Writer>, pens: map<byte, Pen>, tid: byte, w: Writer, file: LogFile)
    requires Crew(writers, pens, file) && tid !in writers
    requires w.threadId == tid && w.file == file && w.Valid() && w.pen == NEWPEN
    requires forall u :: u in writers ==> writers[u].deferredBuffer != w.deferredBuffer
    ensures Crew(writers[tid := w], pens[tid := NEWPEN], file) && PenOf(pens, tid) == NEWPEN
  {
    hide Writer.Valid;
  }

  /** The call of a thread that has a writer. */
  method Speak(file: LogFile, writers: map<byte, Writer>, ghost pens: map<byte, Pen>, tid: byte, call: Call)
    requires Crew(writers, pens, file) && tid in writers && tid in pens && Sound(file.order, pens[tid], call)
    modifies file, writers[tid], writers[tid].deferredBuffer
    ensures Crew(writers, pens[tid := Step(pens[tid], call).0], file)
    ensures file.bytes == old(file.bytes) + Image(file.order, tid, Step(pens[tid], call).1)
  {
    hide Step, Sound, Image;
    writers[tid].Perform(call);
  }

  lemma AllDone(order: Order, schedule: seq<(byte, Call)>, log: seq<Tagged>, pens: map<byte, Pen>)
    requires AtEntry(order, schedule, |schedule|, log, pens)
    ensures forall t: byte :: Project(log, t) == Packets(NEWPEN, Project(schedule, t))
  {
    assert schedule[|schedule|..] == [];
    forall t: byte ensures Project(log, t) == Packets(NEWPEN, Project(schedule, t)) {
      assert OnTrack(order, Project(log, t), PenOf(pens, t), [], Project(schedule, t));
      EndOnTrack(order, Project(log, t), PenOf(pens, t), Project(schedule, t));
    }
  }

  /** The files in the log come one after the other, and none is held back. */
  ghost predicate InTurn(log: seq<Tagged>, pens: map<byte, Pen>) {
    OneFileAtATime(None, log) && forall t :: t in pens ==> NoFiles(pens[t].deferred)
  }

  lemma NoneInTurn()
    ensures InTurn([], map[])
  {
  }

  lemma AllInTurn(log: seq<Tagged>, pens: map<byte, Pen>)
    requires InTurn(log, pens)
    ensures OneFileAtATime(None, log)
  {
  }

  lemma NextInTurn(log: seq<Tagged>, pens: map<byte, Pen>, tid: byte, call: Call)
    requires InTurn(log, pens)
    ensures var (pen', ps) := Step(PenOf(pens, tid), call);
      InTurn(log + Tag(tid, ps), pens[tid := pen'])
  {
    hide OneFileAtATime, Step, Tag;
    var (pen', ps) := Step(PenOf(pens, tid), call);
    CallTurn(tid, PenOf(pens, tid), call);
    OneFileConcat(None, log, Tag(tid, ps));
  }

  /** Makes the calls of a schedule, each by the writer of its thread. */
  method WriteSession(file: LogFile, schedule: seq<(byte, Call)>) returns (ghost log: seq<Tagged>)
    requires forall t: byte :: AllSound(file.order, NEWPEN, Project(schedule, t))
    modifies file
    ensures file.bytes == old(file.bytes) + EncodeTagged(file.order, log)
    ensures forall t: byte :: Project(log, t) == Packets(NEWPEN, Project(schedule, t))
    ensures OneFileAtATime(None, log)
  {
    hide EncodeTagged, Packets, Step, Sound, AllSound, OnTrack, Image, AtEntry, Crew, PenOf, Project, Tag, InTurn;
    NobodyYet(file);
    ghost var order, before := file.order, file.bytes;
    ghost var pens := map[];
    var writers: map<byte, Writer> := map[];
    log := [];
    Begin(order, schedule);
    NoneInTurn();
    assert before + [] == before;
    var i := 0;
    while i < |schedule|
      invariant i <= |schedule|
      invariant Crew(writers, pens, file)
      invariant forall t :: t in writers ==> fresh(writers[t]) && fresh(writers[t].deferredBuffer)
      invariant file.bytes == before + EncodeTagged(order, log)
      invariant AtEntry(order, schedule, i, log, pens)
      invariant InTurn(log, pens)
    {
      var (tid, call) := schedule[i];
      NextEntry(order, schedule, i, log, pens);
      ghost var (pen', ps) := Step(PenOf(pens, tid), call);
      writers := TakeTurn(file, writers, pens, tid, call);
      LogGrows(order, before, log, tid, ps);
      NextInTurn(log, pens, tid, call);
      log := log + Tag(tid, ps);
      pens := pens[tid := pen'];
      i := i + 1;
    }
    AllDone(order, schedule, log, pens);
    AllInTurn(log, pens);
  }

  // ----- runs

  /** One run of the program: the byte order of its machine, and what its threads call, in this order. */
  datatype Run = Run(machine: Order, schedule: seq<(byte, Call)>)

  /** What each run added to the file. */
  function AddedBytes(runs: seq<Run>, logs: seq<seq<Tagged>>): seq<byte>
    requires |logs| == |runs|
  {
    if runs == [] then [] else EncodeTagged(runs[0].machine, logs[0]) + AddedBytes(runs[1..], logs[1..])
  }

  lemma {:induction false} AddedMore(runs: seq<Run>, logs: seq<seq<Tagged>>, run: Run, log: seq<Tagged>)
    requires |logs| == |runs|
    ensures AddedBytes(runs + [run], logs + [log]) == AddedBytes(runs, logs) + EncodeTagged(run.machine, log)
  {
    hide EncodeTagged;
    if runs == [] {
      assert [run][1..] == [] && [log][1..] == [];
    } else {
      assert (runs + [run])[1..] == runs[1..] + [run] && (logs + [log])[1..] == logs[1..] + [log];
      AddedMore(runs[1..], logs[1..], run, log);
      Assoc(EncodeTagged(runs[0].machine, logs[0]), AddedBytes(runs[1..], logs[1..]), EncodeTagged(run.machine, log));
    }
  }

  ghost predicate RunsSound(runs: seq<Run>) {
    forall i, t: byte :: 0 <= i < |runs| ==> AllSound(runs[i].machine, NEWPEN, Project(runs[i].schedule, t))
  }

  /** Each run's part of the log holds, thread by thread, the packets of that thread's calls, and no two files
      overlap. */
  ghost predicate RunsLogged(runs: seq<Run>, logs: seq<seq<Tagged>>) {
    && |logs| == |runs|
    && (forall i :: 0 <= i < |runs| ==> OneFileAtATime(None, logs[i]))
    && forall i, t: byte :: 0 <= i < |runs| ==> Project(logs[i], t) == Packets(NEWPEN, Project(runs[i].schedule, t))
  }

  /** The file these runs leave, of which `logs` are the parts: the byte-order marker of the first run, at the start
      of the file only, and what each run added. */
  ghost predicate LeftBy(runs: seq<Run>, bytes: seq<byte>, logs: seq<seq<Tagged>>) {
    && RunsLogged(runs, logs)
    && bytes == if runs == [] then [] else [Marker(runs[0].machine)] + AddedBytes(runs, logs)
  }

  /** Each run opens the file, makes its calls and closes it. */
  method WriteRuns(runs: seq<Run>) returns (bytes: seq<byte>)
    requires RunsSound(runs)
    ensures exists logs :: LeftBy(runs, bytes, logs)
  {
    hide EncodeTagged, Packets, AllSound, AddedBytes, Project, OneFileAtATime;
    bytes := [];
    ghost var logs: seq<seq<Tagged>> := [];
    NothingAdded();
    var i := 0;
    while i < |runs|
      invariant i <= |runs|
      invariant RunsLogged(runs[..i], logs)
      invariant bytes == if i == 0 then [] else [Marker(runs[0].machine)] + AddedBytes(runs[..i], logs)
    {
      var file := new LogFile(bytes, runs[i].machine);
      ghost var before := if i == 0 then [] else AddedBytes(runs[..i], logs);
      assert file.bytes == [Marker(runs[0].machine)] + before;
      ghost var log := WriteSession(file, runs[i].schedule);
      bytes := file.bytes;
      Assoc([Marker(runs[0].machine)], before, EncodeTagged(runs[i].machine, log));
      AddedMore(runs[..i], logs, runs[i], log);
      assert runs[..i] + [runs[i]] == runs[..i + 1];
      assert i == 0 ==> AddedBytes(runs[..i], logs) == [] by { assert i == 0 ==> runs[..i] == []; }
      logs := logs + [log];
      i := i + 1;
    }
    assert runs[..|runs|] == runs;
    assert LeftBy(runs, bytes, logs);
  }

  lemma NothingAdded()
    ensures AddedBytes([], []) == []
  {
  }

  // ----- reading them back

  /** The calls of every thread, run by run. */
  ghost function CallsIn(runs: seq<Run>): (r: Runs)
    ensures |r| == |runs|
    ensures forall i, t: byte :: 0 <= i < |runs| ==> CallsOf(r[i], t) == Project(runs[i].schedule, t)
  {
    seq(|runs|, i requires 0 <= i < |runs| => map t: byte | 0 <= t < 256 :: Project(runs[i].schedule, t))
  }

  /** Every run that a machine of another byte order than the first has made sends nothing that depends on it. */
  ghost predicate OrdersFit(runs: seq<Run>) {
    forall i, t: byte :: 0 <= i < |runs| && runs[i].machine != runs[0].machine ==>
      AllPlain(Packets(NEWPEN, Project(runs[i].schedule, t)))
  }

  ghost predicate AllPlain(ps: seq<Packet>) {
    forall i :: 0 <= i < |ps| ==> Orderless(ps[i])
  }

  lemma {:induction false} PlainByThread(tps: seq<Tagged>)
    requires forall t: byte :: AllPlain(Project(tps, t))
    ensures AllOrderless(tps)
  {
    hide Orderless;
    if tps != [] {
      var (tid, p) := tps[0];
      assert Project(tps, tid)[0] == p && AllPlain(Project(tps, tid));
      forall t: byte ensures AllPlain(Project(tps[1..], t)) {
        assert AllPlain(Project(tps, t));
        if t == tid {
          assert Project(tps, t)[1..] == Project(tps[1..], t);
          assert forall i :: 0 <= i < |Project(tps[1..], t)| ==> Project(tps[1..], t)[i] == Project(tps, t)[i + 1];
        } else {
          assert Project(tps, t) == Project(tps[1..], t);
        }
      }
      PlainByThread(tps[1..]);
      assert forall i :: 0 < i < |tps| ==> tps[i] == tps[1..][i - 1];
    }
  }

  lemma {:induction false} AddedInOrder(order: Order, runs: seq<Run>, logs: seq<seq<Tagged>>)
    requires |logs| == |runs|
    requires forall i :: 0 <= i < |runs| ==> runs[i].machine == order || AllOrderless(logs[i])
    ensures AddedBytes(runs, logs) == EncodeTagged(order, Flat(logs))
  {
    hide EncodeTagged, AllOrderless;
    if runs == [] {
      EncodeNone(order);
    } else {
      AddedInOrder(order, runs[1..], logs[1..]);
      OrdersAgree(order, runs[0].machine, logs[0]);
      EncodeTaggedConcat(order, logs[0], Flat(logs[1..]));
    }
  }

  lemma FitInOrder(runs: seq<Run>, logs: seq<seq<Tagged>>)
    requires runs != [] && OrdersFit(runs) && RunsLogged(runs, logs)
    ensures AddedBytes(runs, logs) == EncodeTagged(runs[0].machine, Flat(logs))
  {
    hide AddedBytes, EncodeTagged, AllPlain, AllOrderless, Packets, Project;
    forall i | 0 <= i < |runs| ensures runs[i].machine == runs[0].machine || AllOrderless(logs[i]) {
      if runs[i].machine != runs[0].machine {
        forall t: byte ensures AllPlain(Project(logs[i], t)) {
          assert Project(logs[i], t) == Packets(NEWPEN, Project(runs[i].schedule, t));
        }
        PlainByThread(logs[i]);
      }
    }
    AddedInOrder(runs[0].machine, runs, logs);
  }

  /** `LogKeepsEveryRun` and `RunsKeptExactly` for these runs. */
  lemma ScheduleReads(cfg: Config, disk: Files, runs: seq<Run>, logs: seq<seq<Tagged>>)
    requires RunsLogged(runs, logs) && RunsUnderstood(cfg, CallsIn(runs))
    ensures var pass := Entries(cfg, disk, EMPTY, EncodeTagged(cfg.order, Flat(logs)));
      pass.ok && Recovers(cfg, disk, runs, logs, pass)
  {
    hide EncodeTagged, Entries, WrittenInRuns, Packets, RunsUnderstood, Survive, YieldsOf, Keepable, Project, GrantedTo,
      OneFileAtATime, AllKept, Lasting;
    var calls := CallsIn(runs);
    assert LogOf(logs, calls);
    LogKeepsEveryRun(cfg, disk, calls, logs, 0);
    var out := Entries(cfg, disk, EMPTY, EncodeTagged(cfg.order, Flat(logs))).out;
    forall t: byte
      ensures Project(out, t) == Survive(WrittenInRuns(cfg, RunsOf(calls, t)), GrantedTo(cfg, disk.Keys, Flat(logs), t))
      ensures YieldsOf(Project(out, t)) == YieldsOf(WrittenInRuns(cfg, RunsOf(calls, t)))
    {
      LogKeepsEveryRun(cfg, disk, calls, logs, t);
    }
    RunsKeptExactly(cfg, disk, calls, logs);
    FlatTurns(logs);
  }

  /** What is read from a file with these parts is what the calls mean, thread by thread and run by run: every
      entry, and the files granted. These are all of them if and only if they can be opened and, unless existing ones
      are overwritten, told apart; and all hold their data in the end if and only if moreover those that share a place
      agree. */
  ghost predicate Recovers(cfg: Config, disk: Files, runs: seq<Run>, logs: seq<seq<Tagged>>,
                           pass: Outcome)
  {
    var means := (t: byte) => WrittenInRuns(cfg, RunsOf(CallsIn(runs), t));
    && RunsLogged(runs, logs)
    && (forall t: byte :: Project(pass.out, t) == Survive(means(t), GrantedTo(cfg, disk.Keys, Flat(logs), t)))
    && (forall t: byte :: YieldsOf(Project(pass.out, t)) == YieldsOf(means(t)))
    && ((forall t: byte :: Project(pass.out, t) == means(t)) <==> Keepable(cfg, disk.Keys, means))
    && (AllKept(cfg, pass, means) <==> Lasting(cfg, disk.Keys, means))
  }

  /** Every thread's calls, run by run, can be read back under these options. */
  ghost predicate AllRunsClear(cfg: Config, runs: seq<Run>) {
    forall t: byte :: RunsClear(cfg, NEWLOG, RunsOf(CallsIn(runs), t))
  }

  lemma RunsClearUnderstood(cfg: Config, runs: seq<Run>)
    requires RunsSound(runs) && AllRunsClear(cfg, runs)
    ensures RunsUnderstood(cfg, CallsIn(runs))
  {
    hide AllSound, RunsClear, AllFramed;
    forall t: byte ensures RunsFramed(RunsOf(CallsIn(runs), t)) {
      forall i | 0 <= i < |runs| ensures AllFramed(RunsOf(CallsIn(runs), t)[i]) {
        SoundFramed(runs[i].machine, NEWPEN, Project(runs[i].schedule, t));
      }
    }
  }

  /** Several threads write a file, call by call in any order and run after run, and one reader reads it. */
  method WriteAndRead(runs: seq<Run>, extractFor: set<Name>, overwrite: bool, blocked: set<Name>,
                      links: map<Name, Name>, disk: Files, filter: Option<Name>)
    returns (out: seq<(byte, Output)>, ok: bool, left: Files)
    requires runs != [] && RunsSound(runs) && OrdersFit(runs)
    requires AllRunsClear(Config(runs[0].machine, extractFor, overwrite, blocked, links, filter), runs)
    ensures ok
    ensures exists logs ::
      Recovers(Config(runs[0].machine, extractFor, overwrite, blocked, links, filter), disk, runs, logs,
               Outcome(out, ok, left))
  {
    hide EncodeTagged, AddedBytes, Entries, RunsUnderstood, OrdersFit, RunsSound, RunsLogged, Recovers, AllRunsClear;
    ghost var cfg := Config(runs[0].machine, extractFor, overwrite, blocked, links, filter);
    RunsClearUnderstood(cfg, runs);
    var bytes := WriteRuns(runs);
    ghost var logs :| LeftBy(runs, bytes, logs);
    FitInOrder(runs, logs);
    var reader := new CBA(bytes, extractFor, overwrite, blocked, links, disk);
    assert bytes[1..] == EncodeTagged(runs[0].machine, Flat(logs));
    ScheduleReads(cfg, disk, runs, logs);
    out, ok := reader.Entries(filter);
    left := reader.disk;
  }
}
