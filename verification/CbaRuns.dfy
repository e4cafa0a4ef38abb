/** Several runs on one file: a run appends to what is there, and only an empty file gets the byte-order marker. */
module CbaRuns {
  import opened Sequences
  import opened Bytes
  import opened CbaFormat
  import opened CbaDecode
  import opened CbaFiles
  import opened CbaInterleave
  import opened CbaDisk
  import opened CbaCalls
  import opened CbaMeaning

  // ----- one thread over several runs

  function RunPackets(runs: seq<seq<Call>>): seq<Packet> {
    if runs == [] then [] else Packets(NEWPEN, runs[0]) + RunPackets(runs[1..])
  }

  ghost predicate RunsFramed(runs: seq<seq<Call>>) {
    forall i :: 0 <= i < |runs| ==> AllFramed(runs[i])
  }

  lemma {:induction false} RunsDeliver(cfg: Config, ts: State, log: Log, runs: seq<seq<Call>>)
    requires Tracks(ts, log) && RunsFramed(runs) && RunsClear(cfg, log, runs)
    ensures var ps, log' := RunPackets(runs), InterpretRuns(cfg, log, runs);
      && Legible(cfg, ts, ps)
      && log.out + Play(cfg, ts, ps).1 == log'.out
      && Tracks(Play(cfg, ts, ps).0, log')
    decreases |runs|
  {
    hide Play, Legible, AllFramed, AllClear, InterpretAll, Packets;
    if runs == [] {
      NothingPlayed(cfg, ts, Restart(log), NEWPEN);
    } else {
      var ps, rest := Packets(NEWPEN, runs[0]), RunPackets(runs[1..]);
      assert AllFramed(runs[0]) && RunsFramed(runs[1..]);
      RunDelivers(cfg, ts, Restart(log), NEWPEN, runs[0]);
      var log' := InterpretAll(cfg, Restart(log), runs[0]);
      var (ts', out) := Play(cfg, ts, ps);
      RunsDeliver(cfg, ts', log', runs[1..]);
      LegibleConcat(cfg, ts, ps, rest);
      PlayConcat(cfg, ts, ps, rest);
      Assoc(log.out, out, Play(cfg, ts', rest).1);
    }
  }

  /** A thread's calls in successive runs decode to what they mean, each run beginning where the one before ended. */
  lemma RunsRead(cfg: Config, runs: seq<seq<Call>>)
    requires RunsFramed(runs) && RunsClear(cfg, NEWLOG, runs)
    ensures var ps := RunPackets(runs);
      && Legible(cfg, FRESH, ps) && Play(cfg, FRESH, ps).0.stream == Closed
      && Reading(cfg, FRESH, ps) == WrittenInRuns(cfg, runs)
  {
    RunsDeliver(cfg, FRESH, NEWLOG, runs);
    var (ts, out) := Play(cfg, FRESH, RunPackets(runs));
    assert [] + out == out;
    RunEnds(cfg, ts, InterpretRuns(cfg, NEWLOG, runs), out);
  }

  // ----- runs that begin with a head

  /** The packets of a thread begin with a head, or there are none, if and only if it writes nothing before its first
      head. */
  lemma {:induction false} HeadFirstExactly(pen: Pen, calls: seq<Call>)
    requires pen.deferred == []
    ensures HeadFirst(calls) <==> Packets(pen, calls) == [] || Packets(pen, calls)[0].Head?
    decreases |calls|
  {
    if calls != [] {
      var (pen', ps) := Step(pen, calls[0]);
      if calls[0].CallHead? {
        HeldFirst(pen', calls[1..]);
      } else if calls[0].CallCode? || calls[0].CallFlush? {
        HeadFirstExactly(pen', calls[1..]);
      } else {
        assert ps != [] && !ps[0].Head?;
      }
    }
  }

  lemma {:induction false} HeldFirst(pen: Pen, calls: seq<Call>)
    requires pen.deferred != [] && pen.deferred[0].Head?
    ensures Packets(pen, calls) == [] || Packets(pen, calls)[0].Head?
    decreases |calls|
  {
    if calls != [] {
      var (pen', ps) := Step(pen, calls[0]);
      if ps == [] {
        HeldFirst(pen', calls[1..]);
      } else {
        assert ps[0] == pen.deferred[0];
      }
    }
  }

  function Prefixed(before: seq<Output>, log: Log): Log { log.(out := before + log.out) }

  lemma PrefixedStep(cfg: Config, before: seq<Output>, log: Log, call: Call)
    ensures Interpret(cfg, Prefixed(before, log), call) == Prefixed(before, Interpret(cfg, log, call))
    ensures Clear(cfg, Prefixed(before, log), call) <==> Clear(cfg, log, call)
  {
    hide TargetPath, EntryOf, DeferredText, Formatted, HeadName, FilePath, Whole;
    if log.pending.Some? {
      Assoc(before, log.out, EntryOf(cfg, log.name, log.events));
    }
    if call.CallFile? {
      var target := TargetPath(cfg, Commit(cfg, log).name, FilePath(call.path));
      Assoc(before, Commit(cfg, log).out, [Saved(target, Whole(call.parts))]);
    }
  }

  lemma {:induction false} PrefixedAll(cfg: Config, before: seq<Output>, log: Log, calls: seq<Call>)
    ensures InterpretAll(cfg, Prefixed(before, log), calls) == Prefixed(before, InterpretAll(cfg, log, calls))
    ensures AllClear(cfg, Prefixed(before, log), calls) <==> AllClear(cfg, log, calls)
    decreases |calls|
  {
    hide Interpret, Clear, Prefixed;
    if calls != [] {
      PrefixedStep(cfg, before, log, calls[0]);
      PrefixedAll(cfg, before, Interpret(cfg, log, calls[0]), calls[1..]);
    }
  }

  /** Nothing has been written since `old` but a head that waits, as it would behind nothing at all. */
  ghost predicate Waits(was: Log, log: Log, calls: seq<Call>) {
    && log.out == [] && log.name == [] && log.events == []
    && log.pending == was.pending && log.code == was.code
    && (log.pending.Some? || HeadFirst(calls))
  }

  lemma WaitsStep(cfg: Config, was: Log, log: Log, calls: seq<Call>)
    requires Waits(was, log, calls) && calls != []
    ensures var was', log' := Interpret(cfg, was, calls[0]), Interpret(cfg, log, calls[0]);
      && (Clear(cfg, was, calls[0]) <==> Clear(cfg, log, calls[0]))
      && ((Waits(was', log', calls[1..]) && Finish(cfg, was') == Finish(cfg, was))
          || was' == Prefixed(Finish(cfg, was), log'))
  {
    hide TargetPath, DeferredText, Formatted, HeadName, FilePath, Whole, Dict;
    assert EntryOf(cfg, log.name, log.events) == [];
    var all := Finish(cfg, was);
    assert all + [] == all;
    assert [] + EntryOf(cfg, log.name, log.events) == [];
  }

  /** A run that begins with a head closes the entry before it and then means what it means on its own. */
  lemma {:induction false} HeadFirstMeans(cfg: Config, was: Log, log: Log, calls: seq<Call>)
    requires Waits(was, log, calls)
    ensures Finish(cfg, InterpretAll(cfg, was, calls)) == Finish(cfg, was) + Finish(cfg, InterpretAll(cfg, log, calls))
    ensures AllClear(cfg, was, calls) <==> AllClear(cfg, log, calls)
    decreases |calls|
  {
    hide Interpret, Clear, Waits;
    var all := Finish(cfg, was);
    if calls == [] {
      WaitsNothing(cfg, was, log);
    } else {
      WaitsStep(cfg, was, log, calls);
      var was', log' := Interpret(cfg, was, calls[0]), Interpret(cfg, log, calls[0]);
      if was' == Prefixed(all, log') {
        PrefixedAll(cfg, all, log', calls[1..]);
        var end := InterpretAll(cfg, log', calls[1..]);
        Assoc(all, end.out, EntryOf(cfg, end.name, end.events));
      } else {
        HeadFirstMeans(cfg, was', log', calls[1..]);
      }
    }
  }

  lemma WaitsNothing(cfg: Config, was: Log, log: Log)
    requires Waits(was, log, [])
    ensures Finish(cfg, was) + Finish(cfg, log) == Finish(cfg, was)
  {
  }

  function WrittenApart(cfg: Config, runs: seq<seq<Call>>): seq<Output> {
    if runs == [] then [] else Written(cfg, runs[0]) + WrittenApart(cfg, runs[1..])
  }

  ghost predicate HeadsFirst(runs: seq<seq<Call>>) {
    forall i :: 0 <= i < |runs| ==> HeadFirst(runs[i])
  }

  ghost predicate EachClear(cfg: Config, runs: seq<seq<Call>>) {
    forall i :: 0 <= i < |runs| ==> AllClear(cfg, NEWLOG, runs[i])
  }

  lemma {:induction false} RunsFollow(cfg: Config, log: Log, runs: seq<seq<Call>>)
    requires HeadsFirst(runs)
    ensures Finish(cfg, InterpretRuns(cfg, log, runs)) == Finish(cfg, log) + WrittenApart(cfg, runs)
    ensures EachClear(cfg, runs) ==> RunsClear(cfg, log, runs)
    decreases |runs|
  {
    hide InterpretAll, AllClear, HeadFirst, Finish;
    if runs == [] {
      assert Finish(cfg, log) + [] == Finish(cfg, log);
    } else {
      assert HeadFirst(runs[0]);
      RunFollows(cfg, log, runs[0]);
      var log' := InterpretAll(cfg, Restart(log), runs[0]);
      RunsFollow(cfg, log', runs[1..]);
      Assoc(Finish(cfg, log), Written(cfg, runs[0]), WrittenApart(cfg, runs[1..]));
      if EachClear(cfg, runs) {
        assert AllClear(cfg, NEWLOG, runs[0]);
        assert forall i :: 0 <= i < |runs| - 1 ==> runs[1..][i] == runs[i + 1];
      }
    }
  }

  lemma RunFollows(cfg: Config, log: Log, calls: seq<Call>)
    requires HeadFirst(calls)
    ensures Finish(cfg, InterpretAll(cfg, Restart(log), calls)) == Finish(cfg, log) + Written(cfg, calls)
    ensures AllClear(cfg, Restart(log), calls) <==> AllClear(cfg, NEWLOG, calls)
  {
    HeadFirstMeans(cfg, Restart(log), NEWLOG, calls);
  }

  /** When every run begins with a head, the runs together mean what they mean one after the other. */
  lemma RunsApart(cfg: Config, runs: seq<seq<Call>>)
    requires HeadsFirst(runs)
    ensures WrittenInRuns(cfg, runs) == WrittenApart(cfg, runs)
    ensures EachClear(cfg, runs) ==> RunsClear(cfg, NEWLOG, runs)
  {
    RunsFollow(cfg, NEWLOG, runs);
    assert Finish(cfg, NEWLOG) == [];
    assert [] + WrittenApart(cfg, runs) == WrittenApart(cfg, runs);
  }

  // ----- several threads

  /** What a thread did in each of several runs. */
  type Runs = seq<map<byte, seq<Call>>>

  ghost function RunsOf(runs: Runs, t: byte): (r: seq<seq<Call>>)
    ensures |r| == |runs| && forall i :: 0 <= i < |runs| ==> r[i] == CallsOf(runs[i], t)
  {
    seq(|runs|, i requires 0 <= i < |runs| => CallsOf(runs[i], t))
  }

  /** Each part of the log is some interleaving of what the threads sent in that run. */
  ghost predicate LogOf(logs: seq<seq<Tagged>>, runs: Runs) {
    |logs| == |runs| && forall i :: 0 <= i < |logs| ==> Interleaves(logs[i], runs[i])
  }

  function Flat<T>(xs: seq<seq<T>>): seq<T> {
    if xs == [] then [] else xs[0] + Flat(xs[1..])
  }

  lemma {:induction false} FlatProjects(logs: seq<seq<Tagged>>, runs: Runs, t: byte)
    requires LogOf(logs, runs)
    ensures Project(Flat(logs), t) == RunPackets(RunsOf(runs, t))
    decreases |logs|
  {
    hide Project, Packets;
    if logs == [] {
      assert RunsOf(runs, t) == [];
      assert Project<Packet>([], t) == [] by { NoneOf(t); }
    } else {
      assert Interleaves(logs[0], runs[0]);
      assert RunsOf(runs, t)[1..] == RunsOf(runs[1..], t);
      FlatProjects(logs[1..], runs[1..], t);
      ProjectConcat(logs[0], Flat(logs[1..]), t);
      assert Project(logs[0], t) == Packets(NEWPEN, RunsOf(runs, t)[0]);
    }
  }

  lemma NoneOf(t: byte)
    ensures Project<Packet>([], t) == []
  {
  }

  ghost predicate RunsUnderstood(cfg: Config, runs: Runs) {
    forall t: byte :: RunsFramed(RunsOf(runs, t)) && RunsClear(cfg, NEWLOG, RunsOf(runs, t))
  }

  lemma RunsReadable(cfg: Config, runs: Runs, logs: seq<seq<Tagged>>)
    requires RunsUnderstood(cfg, runs) && LogOf(logs, runs)
    ensures Readable(cfg, EMPTY, Flat(logs)) && AllClosed(cfg, Flat(logs))
  {
    hide Reading, WrittenInRuns, RunPackets, Legible, Play, RunsClear, RunsFramed, Project;
    forall u: byte
      ensures Legible(cfg, EMPTY.Get(u), Project(Flat(logs), u))
      ensures Play(cfg, FRESH, Project(Flat(logs), u)).0.stream == Closed
    {
      FlatProjects(logs, runs, u);
      RunsRead(cfg, RunsOf(runs, u));
    }
  }

  lemma {:induction false} FlatTurns(logs: seq<seq<Tagged>>)
    requires forall i :: 0 <= i < |logs| ==> OneFileAtATime(None, logs[i])
    ensures OneFileAtATime(None, Flat(logs))
  {
    hide OneFileAtATime;
    if logs == [] {
      assert OneFileAtATime(None, []) by { NoTurns(); }
    } else {
      FlatTurns(logs[1..]);
      OneFileConcat(None, logs[0], Flat(logs[1..]));
    }
  }

  lemma NoTurns()
    ensures OneFileAtATime(None, [])
  {
  }

  /** The file keeps every run of every thread: one pass over a file that any number of runs have appended to yields
      for each thread exactly the entries its calls mean, run after run, and those of its files that the file system
      grants. */
  lemma LogKeepsEveryRun(cfg: Config, disk: Files, runs: Runs, logs: seq<seq<Tagged>>, t: byte)
    requires RunsUnderstood(cfg, runs) && LogOf(logs, runs)
    ensures var pass := Entries(cfg, disk, EMPTY, EncodeTagged(cfg.order, Flat(logs)));
      var means := WrittenInRuns(cfg, RunsOf(runs, t));
      && pass.ok
      && Project(pass.out, t) == Survive(means, GrantedTo(cfg, disk.Keys, Flat(logs), t))
      && YieldsOf(Project(pass.out, t)) == YieldsOf(means)
      && (HeadsFirst(RunsOf(runs, t)) ==> means == WrittenApart(cfg, RunsOf(runs, t)))
  {
    hide Entries, EncodeTagged, Survive, Reading, WrittenInRuns, WrittenApart, GrantedTo, YieldsOf, RunPackets, Legible,
      Play, RunsClear, RunsFramed, HeadsFirst;
    var tps := Flat(logs);
    RunsReadable(cfg, runs, logs);
    FreshPass(cfg, disk, tps, t);
    FlatProjects(logs, runs, t);
    RunsRead(cfg, RunsOf(runs, t));
    YieldsSurvive(WrittenInRuns(cfg, RunsOf(runs, t)), GrantedTo(cfg, disk.Keys, tps, t));
    if HeadsFirst(RunsOf(runs, t)) {
      RunsApart(cfg, RunsOf(runs, t));
    }
  }

  /** Every file of every run is stored if and only if they can all be opened and, unless existing ones are
      overwritten, told apart. When no two files overlap in the log, every file moreover holds its data in the end if
      and only if those that share a place agree. */
  lemma RunsKeptExactly(cfg: Config, disk: Files, runs: Runs, logs: seq<seq<Tagged>>)
    requires RunsUnderstood(cfg, runs) && LogOf(logs, runs)
    ensures var pass := Entries(cfg, disk, EMPTY, EncodeTagged(cfg.order, Flat(logs)));
      var means := (t: byte) => WrittenInRuns(cfg, RunsOf(runs, t));
      && ((forall t: byte :: Project(pass.out, t) == means(t)) <==> Keepable(cfg, disk.Keys, means))
      && (OneFileAtATime(None, Flat(logs)) ==> (AllKept(cfg, pass, means) <==> Lasting(cfg, disk.Keys, means)))
  {
    hide Readable, AllClosed, Entries, EncodeTagged, Reading, WrittenInRuns, Project, Keepable, RunPackets, Legible,
      Play, RunsClear, RunsFramed, AllKept, Lasting, OneFileAtATime;
    RunsReadable(cfg, runs, logs);
    var means := (t: byte) => WrittenInRuns(cfg, RunsOf(runs, t));
    forall t: byte ensures Reading(cfg, FRESH, Project(Flat(logs), t)) == means(t) {
      FlatProjects(logs, runs, t);
      RunsRead(cfg, RunsOf(runs, t));
    }
    KeptExactly(cfg, disk, Flat(logs), means);
    if OneFileAtATime(None, Flat(logs)) {
      LastingExactly(cfg, disk, Flat(logs), means);
    }
  }

  // ----- runs on machines of different byte order

  /** The integer has the same bytes in either order. */
  predicate Mirrored(k: nat, n: nat) {
    forall i :: 0 <= i < k ==> Enc(Little, k, n)[i] == Enc(Little, k, n)[k - 1 - i]
  }

  lemma {:induction false} EncBackwards(k: nat, n: nat, i: nat)
    requires i < k
    ensures Enc(Big, k, n)[i] == Enc(Little, k, n)[k - 1 - i]
  {
    if i < k - 1 {
      EncBackwards(k - 1, n / 256, i);
    }
  }

  lemma MirroredExactly(k: nat, n: nat)
    ensures Enc(Little, k, n) == Enc(Big, k, n) <==> Mirrored(k, n)
  {
    forall i: nat | i < k ensures Enc(Big, k, n)[i] == Enc(Little, k, n)[k - 1 - i] {
      EncBackwards(k, n, i);
    }
  }

  predicate OrderlessBody(p: Packet) {
    match p
    case Str(_, text) => Mirrored(2, |text|)
    case File(_, path) => Mirrored(2, |path|)
    case Chunk(data) => Mirrored(2, |data|)
    case Int32(_, num) => Pow256Values(); Mirrored(4, Unsigned(4, num))
    case Int64(_, wide) => Pow256Values(); Mirrored(8, Unsigned(8, wide))
    case _ => true
  }

  /** The code of the packet and its length or number are the same in either order. */
  predicate Orderless(p: Packet) {
    (p.Chunk? || p.code == 0 || Mirrored(4, p.code)) && OrderlessBody(p)
  }

  lemma BodyExactly(p: Packet)
    ensures |Body(Little, p)| == |Body(Big, p)|
    ensures Body(Little, p) == Body(Big, p) <==> OrderlessBody(p)
  {
    Pow256Values();
    hide Enc, Pow256, Mirrored;
    match p
    case Str(_, text) => MirroredExactly(2, |text|); SameTail(Enc(Little, 2, |text|), Enc(Big, 2, |text|), text);
    case File(_, path) => MirroredExactly(2, |path|); SameTail(Enc(Little, 2, |path|), Enc(Big, 2, |path|), path);
    case Chunk(data) => MirroredExactly(2, |data|); SameTail(Enc(Little, 2, |data|), Enc(Big, 2, |data|), data);
    case Int32(_, num) => MirroredExactly(4, Unsigned(4, num));
    case Int64(_, wide) => MirroredExactly(8, Unsigned(8, wide));
    case _ =>
  }

  lemma SameSplit<T>(a: seq<T>, b: seq<T>, c: seq<T>, d: seq<T>)
    requires |a| == |b|
    ensures a + c == b + d <==> a == b && c == d
  {
    assert (a + c)[..|a|] == a && (b + d)[..|b|] == b && (a + c)[|a|..] == c && (b + d)[|b|..] == d;
  }

  /** A packet has the same bytes in either order if and only if its numbers read the same backwards. */
  lemma OrderlessExactly(p: Packet)
    ensures |Encode(Little, p)| == |Encode(Big, p)|
    ensures Encode(Little, p) == Encode(Big, p) <==> Orderless(p)
  {
    hide Enc, Body, OrderlessBody, Mirrored;
    BodyExactly(p);
    if !p.Chunk? {
      SameSplit(Header(Little, Kind(p), p.code), Header(Big, Kind(p), p.code), Body(Little, p), Body(Big, p));
      MirroredExactly(4, p.code);
      if p.code != 0 {
        var kind: seq<byte> := [(Kind(p) + 0x80) as byte];
        SameSplit(kind, kind, Enc(Little, 4, p.code), Enc(Big, 4, p.code));
      }
    }
  }

  ghost predicate AllOrderless(tps: seq<Tagged>) {
    forall i :: 0 <= i < |tps| ==> Orderless(tps[i].1)
  }

  /** A run leaves in the file what a machine of the file's own byte order would have left if and only if its
      machine has that order or none of its packets depends on it. */
  lemma {:induction false} OrdersAgree(order: Order, machine: Order, tps: seq<Tagged>)
    ensures |EncodeTagged(order, tps)| == |EncodeTagged(machine, tps)|
    ensures EncodeTagged(order, tps) == EncodeTagged(machine, tps) <==> order == machine || AllOrderless(tps)
  {
    hide Encode, EncodeTagged, Orderless;
    if tps == [] {
      EncodeNone(order);
      EncodeNone(machine);
    } else {
      var (tid, p) := tps[0];
      OrdersAgree(order, machine, tps[1..]);
      EncodeTaggedFirst(order, tps);
      EncodeTaggedFirst(machine, tps);
      OrderlessExactly(p);
      SameSplit([tid] + Encode(order, p), [tid] + Encode(machine, p), EncodeTagged(order, tps[1..]),
                EncodeTagged(machine, tps[1..]));
      SameSplit([tid], [tid], Encode(order, p), Encode(machine, p));
      assert AllOrderless(tps) <==> Orderless(p) && AllOrderless(tps[1..]) by {
        assert forall i :: 0 < i < |tps| ==> tps[i] == tps[1..][i - 1];
      }
    }
  }

  lemma EncodeNone(order: Order)
    ensures EncodeTagged(order, []) == []
  {
  }

  lemma NumberBackwards()
    ensures Enc(Big, 4, 42) == Enc(Little, 4, 42 * 0x100_0000) == [0, 0, 0, 42]
  {
    hide Enc;
    forall i: nat | i < 4 ensures Enc(Big, 4, 42)[i] == Enc(Little, 4, 42)[3 - i] {
      EncBackwards(4, 42, i);
    }
    FourBytes(42, 0, 0, 0);
    FourBytes(0, 0, 0, 42);
  }

  /** For instance, a big-endian machine that appends the number 42 to a little-endian file leaves another one. */
  lemma OtherOrder(cfg: Config, disk: set<Name>, rest: seq<byte>)
    requires cfg.order == Little
    ensures ReadPacket(cfg, disk, FRESH, Encode(Big, Int32(0, 42)) + rest)
      == Parsed(Apply(cfg, false, FRESH, Int32(0, 42 * 0x100_0000)).0, [], |Encode(Big, Int32(0, 42))|)
  {
    var p := Int32(0, 42 * 0x100_0000);
    NumberBackwards();
    hide Enc, ReadPacket, Pow256;
    Pow256Values();
    assert Encode(Big, Int32(0, 42)) == Encode(Little, p);
    PacketRead(cfg, disk, FRESH, p, rest);
  }
}
