/** The configuration cscan runs: one producer, the scanner, and one worker. No wakeup is lost, the two come to
    rest after boundedly many steps, and the worker has then received what was queued. */
module QueueDelivery {
  import opened Ring
  import opened QueueProtocol

  const SCANNER: nat := 0
  const WORKER: nat := 1

  ghost predicate ScannerAndWorker<T(!new)>(s: State<T>) {
    s.threads.Keys == {SCANNER, WORKER} && s.threads[SCANNER].Producer? && s.threads[WORKER].Worker?
  }

  /** The thread has changed the queue under a condition the other may be asleep on, and has yet to signal. */
  predicate AboutToSignal(pc: Pc) {
    pc == Leaving(true) || pc == Signalling
  }

  /** The worker has met a stop item only as the last one, and then does not come back for more. */
  ghost predicate StopsOnce<T>(stop: T -> bool, th: Thread<T>)
    requires th.Worker?
  {
    && (forall i :: 0 <= i < |th.seen| - 1 ==> !stop(th.seen[i]))
    && (th.seen != [] && stop(th.seen[|th.seen| - 1]) ==> th.pc.Leaving? || th.pc in {Signalling, Finished})
    && (th.pc == Finished ==> th.seen != [] && stop(th.seen[|th.seen| - 1]))
  }

  /** No lost wakeup: a thread asleep while it could go on is about to be signalled. */
  ghost predicate NoLostWakeup<T(!new)>(s: State<T>)
    requires ScannerAndWorker(s)
  {
    && (s.threads[WORKER].pc == Asleep && !s.ring.Empty() ==> AboutToSignal(s.threads[SCANNER].pc))
    && (s.threads[SCANNER].pc == Asleep && !s.ring.Full() ==> AboutToSignal(s.threads[WORKER].pc))
  }

  ghost predicate Good<T(!new)>(stop: T -> bool, s: State<T>) {
    && Safe(s) && ScannerAndWorker(s) && NoLostWakeup(s)
    && StopsOnce(stop, s.threads[WORKER]) && s.threads[SCANNER].pc != Finished
  }

  lemma WakeupStep<T(!new)>(stop: T -> bool, s: State<T>, a: Action)
    requires Good(stop, s) && Enabled(s, a)
    ensures ScannerAndWorker(Do(stop, s, a)) && NoLostWakeup(Do(stop, s, a))
  {
    hide StopsOnce;
    if a.Test? && s.threads[a.t].Producer? && !s.ring.Full() {
      PutAppends(s.ring, s.threads[a.t].todo[0]);
    } else if a.Test? && s.threads[a.t].Worker? && !s.ring.Empty() {
      GetRemoves(s.ring);
    } else if a.Signal? && a.woken < 0 {
      assert !Waits(s, a.t, SCANNER) && !Waits(s, a.t, WORKER);
    }
  }

  lemma StopStep<T(!new)>(stop: T -> bool, s: State<T>, a: Action)
    requires Good(stop, s) && Enabled(s, a)
    ensures var s' := Do(stop, s, a);
      ScannerAndWorker(s') && StopsOnce(stop, s'.threads[WORKER]) && s'.threads[SCANNER].pc != Finished
  {
    hide NoLostWakeup, Ring.Get, Ring.Put, Ring.Contents, Ring.Full, Ring.Empty;
    if a.t == WORKER {
      WorkerStops(stop, s, a);
    } else {
      hide StopsOnce;
      assert StopsOnce(stop, s.threads[WORKER]);
      if a.Signal? && a.woken >= 0 {
        StopsAwake(stop, s.threads[WORKER], Woken);
      }
    }
  }

  lemma WorkerStops<T(!new)>(stop: T -> bool, s: State<T>, a: Action)
    requires Good(stop, s) && Enabled(s, a) && a.t == WORKER
    ensures var s' := Do(stop, s, a);
      ScannerAndWorker(s') && StopsOnce(stop, s'.threads[WORKER]) && s'.threads[SCANNER].pc != Finished
  {
    hide NoLostWakeup, Ring.Get, Ring.Put, Ring.Contents, Ring.Full, Ring.Empty;
  }

  lemma StopsAwake<T>(stop: T -> bool, th: Thread<T>, pc: Pc)
    requires th.Worker? && StopsOnce(stop, th) && th.pc == Asleep && pc == Woken
    ensures StopsOnce(stop, Worker(th.seen, pc))
  {
  }

  lemma GoodStep<T(!new)>(stop: T -> bool, s: State<T>, a: Action)
    requires Good(stop, s) && Enabled(s, a)
    ensures Good(stop, Do(stop, s, a))
  {
    hide Do, StopsOnce, NoLostWakeup, Enabled;
    SafeStep(stop, s, a);
    WakeupStep(stop, s, a);
    StopStep(stop, s, a);
  }

  /** Both sleeping is impossible, and so is one sleeping while it could go on with no signal coming. */
  lemma NeverBothAsleep<T(!new)>(stop: T -> bool, s: State<T>)
    requires Good(stop, s)
    ensures !(s.threads[SCANNER].pc == Asleep && s.threads[WORKER].pc == Asleep)
  {
  }

  lemma {:induction false} AlwaysGood<T(!new)>(stop: T -> bool, s: State<T>, acts: seq<Action>, s': State<T>)
    requires Good(stop, s) && Runs(stop, s, acts, s')
    ensures Good(stop, s')
    decreases |acts|
  {
    if acts != [] {
      GoodStep(stop, s, acts[0]);
      AlwaysGood(stop, Do(stop, s, acts[0]), acts[1..], s');
    }
  }

  lemma InitGood<T(!new)>(stop: T -> bool, s: State<T>, scripts: map<nat, seq<T>>)
    requires Init(s, scripts) && ScannerAndWorker(s)
    ensures Good(stop, s)
  {
  }

  // ----- coming to rest

  /** Nothing can happen any more, except a spurious wakeup. */
  ghost predicate AtRest<T(!new)>(s: State<T>) {
    forall a: Action :: Enabled(s, a) ==> a.Spurious?
  }

  lemma NotInside<T(!new)>(s: State<T>, t: nat, other: nat)
    requires Safe(s) && ScannerAndWorker(s) && AtRest(s) && {t, other} == {SCANNER, WORKER} && t != other
    ensures var pc := s.threads[t].pc; pc != Holding && !pc.Leaving? && pc != Signalling
  {
    hide Ring.Valid;
    assert !Enabled(s, Test(t)) && !Enabled(s, Unlock(t));
    assert !Enabled(s, Signal(t, -1)) && !Enabled(s, Signal(t, other));
  }

  lemma RestPositions<T(!new)>(stop: T -> bool, s: State<T>)
    requires Good(stop, s) && AtRest(s)
    ensures var p, w := s.threads[SCANNER], s.threads[WORKER];
      && ((p.pc == Idle && p.todo == []) || (p.pc == Asleep && s.ring.Full()))
      && (w.pc == Finished || (w.pc == Asleep && s.ring.Empty()))
  {
    hide Ring.Valid;
    NotInside(s, SCANNER, WORKER);
    NotInside(s, WORKER, SCANNER);
    assert s.holder == FREE;
    assert !Enabled(s, Lock(SCANNER)) && !Enabled(s, Lock(WORKER));
  }

  /** What is in a list up to and with its first stop item. */
  function UpTo<T>(stop: T -> bool, xs: seq<T>): seq<T> {
    if xs == [] then [] else if stop(xs[0]) then [xs[0]] else [xs[0]] + UpTo(stop, xs[1..])
  }

  lemma {:induction false} UpToPrefix<T>(stop: T -> bool, seen: seq<T>, rest: seq<T>)
    requires forall i :: 0 <= i < |seen| - 1 ==> !stop(seen[i])
    requires rest == [] || (seen != [] && stop(seen[|seen| - 1]))
    ensures seen == UpTo(stop, seen + rest)
  {
    if seen != [] {
      assert (seen + rest)[1..] == seen[1..] + rest;
      if !stop(seen[0]) {
        UpToPrefix(stop, seen[1..], rest);
      } else {
        assert |seen| == 1;
        assert seen == [seen[0]];
      }
    }
  }

  lemma {:induction false} ByAll<T>(log: seq<(nat, T)>, t: nat)
    requires forall i :: 0 <= i < |log| ==> log[i].0 == t
    ensures By(log, t) == Values(log)
  {
    if log != [] {
      ByAll(log[..|log| - 1], t);
      assert Values(log) == Values(log[..|log| - 1]) + [log[|log| - 1].1];
    }
  }

  lemma {:induction false} ByNone<T>(log: seq<(nat, T)>, t: nat)
    requires By(log, t) == []
    ensures forall i :: 0 <= i < |log| ==> log[i].0 != t
  {
    if log != [] {
      ByNone(log[..|log| - 1], t);
      forall i | 0 <= i < |log| ensures log[i].0 != t {
        if i < |log| - 1 { assert log[i] == log[..|log| - 1][i]; }
      }
    }
  }

  /** With one producer and one worker, what the worker saw, what is held and what is still to put make up the
      script. */
  lemma ScriptSplit<T(!new)>(s: State<T>, scripts: map<nat, seq<T>>)
    requires Fifo(s, scripts) && ScannerAndWorker(s)
    ensures scripts[SCANNER] == s.threads[WORKER].seen + s.ring.Contents() + s.threads[SCANNER].todo
  {
    hide Ring.Contents;
    ByNone(s.puts, WORKER);
    ByNone(s.gots, SCANNER);
    ByAll(s.puts, SCANNER);
    ByAll(s.gots, WORKER);
  }

  /** The queue keeps the capacity it was made with. */
  lemma {:induction false} SameCapacity<T(!new)>(stop: T -> bool, s: State<T>, acts: seq<Action>, s': State<T>)
    requires Safe(s) && Runs(stop, s, acts, s')
    ensures |s'.ring.items| == |s.ring.items|
    decreases |acts|
  {
    if acts != [] {
      SafeStep(stop, s, acts[0]);
      SameCapacity(stop, Do(stop, s, acts[0]), acts[1..], s');
    }
  }

  ghost predicate Delivered<T(!new)>(stop: T -> bool, s: State<T>, script: seq<T>, capacity: nat)
    requires ScannerAndWorker(s)
  {
    && s.threads[WORKER].seen == UpTo(stop, script)
    && (s.threads[SCANNER].todo == [] <==> |script| - |UpTo(stop, script)| <= capacity)
    && ((exists i :: 0 <= i < |script| && stop(script[i])) ==> s.threads[WORKER].pc == Finished)
  }

  lemma DeliveredAtRest<T(!new)>(stop: T -> bool, s: State<T>, scripts: map<nat, seq<T>>)
    requires Good(stop, s) && Fifo(s, scripts) && AtRest(s)
    ensures Delivered(stop, s, scripts[SCANNER], |s.ring.items|)
  {
    hide Ring.Contents, AtRest, Enabled, By, Values;
    RestPositions(stop, s);
    ScriptSplit(s, scripts);
    var seen, held, todo := s.threads[WORKER].seen, s.ring.Contents(), s.threads[SCANNER].todo;
    assert scripts[SCANNER] == seen + (held + todo);
    UpToPrefix(stop, seen, held + todo);
  }

  /** Delivery: whenever the two have come to rest, the worker has received the script up to its first stop item,
      in order and once each; and the scanner is through with its script exactly when what the worker left fits
      in the queue as it was made. */
  lemma Delivery<T(!new)>(stop: T -> bool, init: State<T>, acts: seq<Action>, s: State<T>, scripts: map<nat, seq<T>>)
    requires Init(init, scripts) && ScannerAndWorker(init) && Runs(stop, init, acts, s) && AtRest(s)
    ensures ScannerAndWorker(s) && Delivered(stop, s, scripts[SCANNER], |init.ring.items|)
  {
    hide AtRest, Init, Safe, NoLostWakeup, StopsOnce, Delivered;
    InitFifo(init, scripts);
    SameCapacity(stop, init, acts, s);
    hide Fifo;
    AlwaysFifo(stop, init, acts, s, scripts);
    InitGood(stop, init, scripts);
    AlwaysGood(stop, init, acts, s);
    DeliveredAtRest(stop, s, scripts);
  }

  // ----- and they do come to rest

  /** Steps a thread can still take, with `n` operations ahead of it. A signal moves the sleeper up by three. */
  function Rank(pc: Pc, n: nat): int {
    10 * n + match pc
      case Idle => 0
      case Woken => -1
      case Holding => -2
      case Asleep => -4
      case Leaving(_) => 5
      case Signalling => 4
      case Finished => 0
  }

  function Measure<T>(s: State<T>, total: nat): int
    requires s.threads.Keys == {SCANNER, WORKER} && s.threads[SCANNER].Producer? && s.threads[WORKER].Worker?
    requires |s.threads[WORKER].seen| <= total
  {
    Rank(s.threads[SCANNER].pc, |s.threads[SCANNER].todo|)
      + Rank(s.threads[WORKER].pc, total - |s.threads[WORKER].seen| + 1)
  }

  /** Every step that is not a spurious wakeup uses up some of the measure. */
  lemma MeasureDrops<T(!new)>(stop: T -> bool, s: State<T>, a: Action, total: nat)
    requires Good(stop, s) && Enabled(s, a) && !a.Spurious?
    requires |s.threads[WORKER].seen| + s.ring.Len() <= total
    ensures var s' := Do(stop, s, a);
      ScannerAndWorker(s') && |s'.threads[WORKER].seen| <= total && 0 <= Measure(s', total) < Measure(s, total)
  {
    GoodStep(stop, s, a);
  }

  lemma {:induction false} RunsShort<T(!new)>(stop: T -> bool, s: State<T>, acts: seq<Action>, s': State<T>,
                                             scripts: map<nat, seq<T>>)
    requires Good(stop, s) && Fifo(s, scripts) && Runs(stop, s, acts, s')
    requires forall i :: 0 <= i < |acts| ==> !acts[i].Spurious?
    ensures |s.threads[WORKER].seen| <= |scripts[SCANNER]|
    ensures |acts| <= Measure(s, |scripts[SCANNER]|)
    decreases |acts|
  {
    ScriptSplit(s, scripts);
    if acts == [] {
      RankNonNegative(stop, s, |scripts[SCANNER]|);
    } else {
      GoodStep(stop, s, acts[0]);
      FifoStep(stop, s, acts[0], scripts);
      MeasureDrops(stop, s, acts[0], |scripts[SCANNER]|);
      RunsShort(stop, Do(stop, s, acts[0]), acts[1..], s', scripts);
    }
  }

  lemma RankNonNegative<T(!new)>(stop: T -> bool, s: State<T>, total: nat)
    requires Good(stop, s) && |s.threads[WORKER].seen| <= total
    ensures Measure(s, total) >= 0
  {
  }

  /** Without spurious wakeups, a run of `n` queued items stops within 20 n + 10 steps, so it does come to rest. */
  lemma ComesToRest<T(!new)>(stop: T -> bool, init: State<T>, acts: seq<Action>, s: State<T>,
                             scripts: map<nat, seq<T>>)
    requires Init(init, scripts) && ScannerAndWorker(init) && Runs(stop, init, acts, s)
    requires forall i :: 0 <= i < |acts| ==> !acts[i].Spurious?
    ensures |acts| <= 20 * |scripts[SCANNER]| + 10
  {
    InitFifo(init, scripts);
    InitGood(stop, init, scripts);
    RunsShort(stop, init, acts, s, scripts);
  }
}
