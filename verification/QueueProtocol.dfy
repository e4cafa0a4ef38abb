/** The queue shared by threads: lock, two condition variables, and signals sent after unlocking. A thread is
    either a producer with items still to put, or a worker that gets items until it meets one to stop at. */
module QueueProtocol {
  import opened Sequences
  import opened Ring

  /** Where a thread is. `Leaving` still holds the lock, with the operation done; `wake` says whether it found the
      queue empty (a put) or full (a get). `Signalling` has unlocked and is about to signal. */
  datatype Pc = Idle | Holding | Asleep | Woken | Leaving(wake: bool) | Signalling | Finished

  datatype Thread<T> =
    | Producer(todo: seq<T>, pc: Pc)
    | Worker(seen: seq<T>, pc: Pc)

  datatype State<T> = State(ring: Ring<T>, holder: int, threads: map<nat, Thread<T>>,
                            puts: seq<(nat, T)>, gots: seq<(nat, T)>)

  /** Nobody holds the lock. */
  const FREE := -1

  datatype Action = Lock(t: nat) | Test(t: nat) | Unlock(t: nat) | Signal(t: nat, woken: int) | Spurious(t: nat)

  /** The thread asleep that a signal of `t` may wake: workers sleep on not_empty, producers on not_full. */
  predicate Waits<T>(s: State<T>, t: nat, u: nat)
    requires t in s.threads
  {
    u in s.threads && s.threads[u].pc == Asleep && s.threads[u].Producer? != s.threads[t].Producer?
  }

  ghost predicate Enabled<T(!new)>(s: State<T>, a: Action) {
    && a.t in s.threads
    && var th := s.threads[a.t];
      match a
      case Lock(t) => s.holder == FREE && (th.pc == Woken || (th.pc == Idle && (th.Producer? ==> th.todo != [])))
      case Test(t) => th.pc == Holding
      case Unlock(t) => th.pc.Leaving?
      case Signal(t, u) => th.pc == Signalling && (if u >= 0 then Waits(s, t, u) else forall v :: !Waits(s, t, v))
      case Spurious(t) => th.pc == Asleep
  }

  /** Where a thread goes when its operation is over. */
  function Home<T>(stop: T -> bool, th: Thread<T>): Pc {
    if th.Worker? && th.seen != [] && stop(th.seen[|th.seen| - 1]) then Finished else Idle
  }

  function Move<T>(s: State<T>, t: nat, pc: Pc): State<T>
    requires t in s.threads
  {
    s.(threads := s.threads[t := s.threads[t].(pc := pc)])
  }

  /** What a producer does with the lock: sleep if the queue is full, else put. */
  function TestPut<T>(s: State<T>, t: nat): State<T>
    requires t in s.threads && s.threads[t].Producer? && s.threads[t].todo != [] && s.ring.Valid()
  {
    if s.ring.Full() then Move(s, t, Asleep).(holder := FREE)
    else
      var item := s.threads[t].todo[0];
      s.(ring := s.ring.Put(item), puts := s.puts + [(t, item)],
         threads := s.threads[t := Producer(s.threads[t].todo[1..], Leaving(s.ring.Empty()))])
  }

  /** What a worker does with the lock: sleep if the queue is empty, else get. */
  function TestGet<T>(s: State<T>, t: nat): State<T>
    requires t in s.threads && s.threads[t].Worker? && s.ring.Valid()
  {
    if s.ring.Empty() then Move(s, t, Asleep).(holder := FREE)
    else
      var item := s.ring.items[s.ring.start];
      s.(ring := s.ring.Get(), gots := s.gots + [(t, item)],
         threads := s.threads[t := Worker(s.threads[t].seen + [item], Leaving(s.ring.Full()))])
  }

  ghost function Do<T(!new)>(stop: T -> bool, s: State<T>, a: Action): State<T>
    requires Safe(s) && Enabled(s, a)
  {
    match a
    case Lock(t) => Move(s, t, Holding).(holder := t)
    case Test(t) => if s.threads[t].Producer? then TestPut(s, t) else TestGet(s, t)
    case Unlock(t) =>
      Move(s, t, if s.threads[t].pc.wake then Signalling else Home(stop, s.threads[t])).(holder := FREE)
    case Signal(t, u) =>
      var s' := Move(s, t, Home(stop, s.threads[t]));
      if u >= 0 then Move(s', u, Woken) else s'
    case Spurious(t) => Move(s, t, Woken)
  }

  // ----- any number of producers and workers

  function Values<T>(log: seq<(nat, T)>): seq<T> {
    seq(|log|, i requires 0 <= i < |log| => log[i].1)
  }

  /** The items of thread `t` in a log, in order. */
  function By<T>(log: seq<(nat, T)>, t: nat): seq<T> {
    if log == [] then []
    else By(log[..|log| - 1], t) + if log[|log| - 1].0 == t then [log[|log| - 1].1] else []
  }

  /** The lock has one holder; a thread about to put has something to put. */
  ghost predicate Safe<T(!new)>(s: State<T>) {
    && s.ring.Valid()
    && (s.holder == FREE || s.holder in s.threads)
    && (forall t :: t in s.threads ==> (s.threads[t].pc == Holding || s.threads[t].pc.Leaving? <==> s.holder == t))
    && (forall t :: t in s.threads && s.threads[t].Producer? && s.threads[t].pc in {Holding, Asleep, Woken} ==>
          s.threads[t].todo != [])
  }

  /** The queue is FIFO and loses nothing: what was got, then what is held, is what was put, in lock order; each
      producer's puts follow its script, and each worker has seen exactly its gets. */
  ghost predicate Fifo<T(!new)>(s: State<T>, scripts: map<nat, seq<T>>) {
    && Safe(s)
    && Values(s.puts) == Values(s.gots) + s.ring.Contents()
    && (forall i :: 0 <= i < |s.puts| ==> s.puts[i].0 in s.threads)
    && (forall i :: 0 <= i < |s.gots| ==> s.gots[i].0 in s.threads)
    && (forall t :: t in s.threads ==> match s.threads[t]
          case Producer(todo, _) => t in scripts && By(s.puts, t) + todo == scripts[t] && By(s.gots, t) == []
          case Worker(seen, _) => By(s.gots, t) == seen && By(s.puts, t) == [])
  }

  /** No thread has begun; the queue is new, with any capacity of at least one. */
  ghost predicate Init<T(!new)>(s: State<T>, scripts: map<nat, seq<T>>) {
    && s.ring.Valid() && s.ring.start == -1 && s.ring.next == 0
    && s.holder == FREE && s.puts == [] && s.gots == []
    && (forall t :: t in s.threads ==> s.threads[t].pc == Idle && match s.threads[t]
          case Producer(todo, _) => t in scripts && scripts[t] == todo
          case Worker(seen, _) => seen == [])
  }

  /** Some run of enabled actions leads from `s` to `s'`. */
  ghost predicate Runs<T(!new)>(stop: T -> bool, s: State<T>, acts: seq<Action>, s': State<T>)
    decreases |acts|
  {
    if acts == [] then s == s'
    else Safe(s) && Enabled(s, acts[0]) && Runs(stop, Do(stop, s, acts[0]), acts[1..], s')
  }

  lemma ByAdd<T>(log: seq<(nat, T)>, e: (nat, T), t: nat)
    ensures By(log + [e], t) == By(log, t) + if e.0 == t then [e.1] else []
  {
    assert (log + [e])[..|log|] == log;
  }

  lemma SafeStep<T(!new)>(stop: T -> bool, s: State<T>, a: Action)
    requires Safe(s) && Enabled(s, a)
    ensures Safe(Do(stop, s, a))
  {
    if a.Test? {
      var th := s.threads[a.t];
      if th.Producer? && !s.ring.Full() {
        PutAppends(s.ring, th.todo[0]);
      } else if th.Worker? && !s.ring.Empty() {
        GetRemoves(s.ring);
      }
    }
  }

  lemma FifoPut<T(!new)>(stop: T -> bool, s: State<T>, t: nat, scripts: map<nat, seq<T>>)
    requires Fifo(s, scripts) && Enabled(s, Test(t)) && s.threads[t].Producer? && !s.ring.Full()
    ensures Fifo(Do(stop, s, Test(t)), scripts)
  {
    hide Ring.Contents, Ring.Put, By;
    SafeStep(stop, s, Test(t));
    var item := s.threads[t].todo[0];
    var s' := Do(stop, s, Test(t));
    PutAppends(s.ring, item);
    assert Values(s'.puts) == Values(s.puts) + [item];
    forall u: nat ensures By(s'.puts, u) == By(s.puts, u) + if u == t then [item] else [] {
      ByAdd(s.puts, (t, item), u);
    }
    Assoc(By(s.puts, t), [item], s'.threads[t].todo);
    assert [item] + s'.threads[t].todo == s.threads[t].todo;
    Assoc(Values(s.gots), s.ring.Contents(), [item]);
  }

  lemma FifoGet<T(!new)>(stop: T -> bool, s: State<T>, t: nat, scripts: map<nat, seq<T>>)
    requires Fifo(s, scripts) && Enabled(s, Test(t)) && s.threads[t].Worker? && !s.ring.Empty()
    ensures Fifo(Do(stop, s, Test(t)), scripts)
  {
    hide Ring.Contents, Ring.Get, By;
    SafeStep(stop, s, Test(t));
    var item := s.ring.items[s.ring.start];
    var s' := Do(stop, s, Test(t));
    GetRemoves(s.ring);
    assert Values(s'.gots) == Values(s.gots) + [item];
    forall u: nat ensures By(s'.gots, u) == By(s.gots, u) + if u == t then [item] else [] {
      ByAdd(s.gots, (t, item), u);
    }
    Assoc(Values(s.gots), [item], s'.ring.Contents());
  }

  lemma FifoStep<T(!new)>(stop: T -> bool, s: State<T>, a: Action, scripts: map<nat, seq<T>>)
    requires Fifo(s, scripts) && Enabled(s, a)
    ensures Fifo(Do(stop, s, a), scripts)
  {
    hide Ring.Contents, By;
    SafeStep(stop, s, a);
    if a.Test? && s.threads[a.t].Producer? && !s.ring.Full() {
      FifoPut(stop, s, a.t, scripts);
    } else if a.Test? && s.threads[a.t].Worker? && !s.ring.Empty() {
      FifoGet(stop, s, a.t, scripts);
    }
  }

  /** Linearizable FIFO: every state of every run, of any number of producers and workers, is FIFO. */
  lemma {:induction false} AlwaysFifo<T(!new)>(stop: T -> bool, s: State<T>, acts: seq<Action>, s': State<T>,
                                              scripts: map<nat, seq<T>>)
    requires Fifo(s, scripts) && Runs(stop, s, acts, s')
    ensures Fifo(s', scripts)
    decreases |acts|
  {
    if acts != [] {
      FifoStep(stop, s, acts[0], scripts);
      AlwaysFifo(stop, Do(stop, s, acts[0]), acts[1..], s', scripts);
    }
  }

  lemma InitFifo<T(!new)>(s: State<T>, scripts: map<nat, seq<T>>)
    requires Init(s, scripts)
    ensures Fifo(s, scripts)
  {
  }
}
