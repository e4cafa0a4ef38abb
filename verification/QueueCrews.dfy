/** The queue with any number of producers and workers: exactly when a thread can be left asleep for good although it
    could go on. cscan runs one of each. */
module QueueCrews {
  import opened Ring
  import opened QueueProtocol
  import opened QueueDelivery
  import opened Results
  import opened ResultDelivery

  /** Everything is at rest, and a worker is asleep with something in the queue, or a producer with room in it. */
  ghost predicate Stuck<T(!new)>(s: State<T>) {
    AtRest(s) && exists t :: LeftAsleep(s, t)
  }

  ghost predicate LeftAsleep<T>(s: State<T>, t: nat) {
    && t in s.threads && s.threads[t].pc == Asleep
    && if s.threads[t].Producer? then !s.ring.Full() else !s.ring.Empty()
  }

  /** Producers are numbered from 0, workers behind them. */
  ghost predicate Staff<T(!new)>(s: State<T>, producers: nat, workers: nat) {
    && (forall t :: t in s.threads <==> 0 <= t < producers + workers)
    && (forall t :: t in s.threads ==> (s.threads[t].Producer? <==> t < producers))
  }

  /** Some run of such a crew on a queue of this capacity ends stuck. */
  ghost predicate CanGetStuck(capacity: nat, producers: nat, workers: nat) {
    exists init: State<Target>, scripts, acts, s ::
      GetsStuck(capacity, producers, workers, init, scripts, acts, s)
  }

  ghost predicate GetsStuck(capacity: nat, producers: nat, workers: nat, init: State<Target>,
                            scripts: map<nat, seq<Target>>, acts: seq<Action>, s: State<Target>)
  {
    && Init(init, scripts) && |init.ring.items| == capacity && Staff(init, producers, workers)
    && Runs(IsPill, init, acts, s) && Stuck(s)
  }

  // ----- at rest

  lemma HolderCanMove<T(!new)>(s: State<T>)
    requires Safe(s)
    ensures s.holder == FREE || exists a :: Enabled(s, a) && !a.Spurious?
  {
    if s.holder != FREE {
      assert Enabled(s, if s.threads[s.holder].pc == Holding then Test(s.holder) else Unlock(s.holder));
    }
  }

  lemma RestInside<T(!new)>(s: State<T>, t: nat)
    requires Safe(s) && AtRest(s) && t in s.threads
    ensures var pc := s.threads[t].pc; pc != Holding && !pc.Leaving? && pc != Signalling && pc != Woken
    ensures s.holder == FREE
  {
    hide Ring.Valid;
    assert !Enabled(s, Test(t)) && !Enabled(s, Unlock(t)) && !Enabled(s, Lock(t));
    if u: nat :| Waits(s, t, u) {
      assert !Enabled(s, Signal(t, u));
    } else {
      assert !Enabled(s, Signal(t, -1));
    }
    HolderCanMove(s);
  }

  // ----- capacity one: every put and every get signals

  /** A worker that will test the queue, or a producer that will wake one. */
  ghost predicate WorkerComing<T>(s: State<T>, t: nat) {
    && t in s.threads
    && if s.threads[t].Producer? then AboutToSignal(s.threads[t].pc) else s.threads[t].pc in {Woken, Holding}
  }

  ghost predicate ProducerComing<T>(s: State<T>, t: nat) {
    && t in s.threads
    && if s.threads[t].Worker? then AboutToSignal(s.threads[t].pc) else s.threads[t].pc in {Woken, Holding}
  }

  /** Whoever could go on is served: someone is on the way for it. */
  ghost predicate Served<T(!new)>(s: State<T>) {
    && |s.ring.items| == 1
    && ((exists t :: LeftAsleep(s, t) && s.threads[t].Worker?) ==> exists t :: WorkerComing(s, t))
    && ((exists t :: LeftAsleep(s, t) && s.threads[t].Producer?) ==> exists t :: ProducerComing(s, t))
  }

  lemma ServedWorkers<T(!new)>(stop: T -> bool, s: State<T>, a: Action, u: nat)
    requires Safe(s) && Served(s) && Enabled(s, a)
    requires var s' := Do(stop, s, a); LeftAsleep(s', u) && s'.threads[u].Worker?
    ensures exists t :: WorkerComing(Do(stop, s, a), t)
  {
    hide Ring.Contents;
    var s' := Do(stop, s, a);
    if a.Test? {
      if s.threads[a.t].Producer? && !s.ring.Full() {
        assert WorkerComing(s', a.t);
      } else {
        assert LeftAsleep(s, u);
        var t :| WorkerComing(s, t);
        assert WorkerComing(s', t);
      }
    } else {
      assert LeftAsleep(s, u);
      var t :| WorkerComing(s, t);
      if a.Signal? && a.t == t && s.threads[t].Producer? {
        assert Waits(s, t, u);
        assert WorkerComing(s', a.woken);
      } else {
        assert WorkerComing(s', t);
      }
    }
  }

  lemma ServedProducers<T(!new)>(stop: T -> bool, s: State<T>, a: Action, u: nat)
    requires Safe(s) && Served(s) && Enabled(s, a)
    requires var s' := Do(stop, s, a); LeftAsleep(s', u) && s'.threads[u].Producer?
    ensures exists t :: ProducerComing(Do(stop, s, a), t)
  {
    hide Ring.Contents;
    var s' := Do(stop, s, a);
    if a.Test? {
      if s.threads[a.t].Worker? && !s.ring.Empty() {
        assert ProducerComing(s', a.t);
      } else {
        assert LeftAsleep(s, u);
        var t :| ProducerComing(s, t);
        assert ProducerComing(s', t);
      }
    } else {
      assert LeftAsleep(s, u);
      var t :| ProducerComing(s, t);
      if a.Signal? && a.t == t && s.threads[t].Worker? {
        assert Waits(s, t, u);
        assert ProducerComing(s', a.woken);
      } else {
        assert ProducerComing(s', t);
      }
    }
  }

  lemma ServedStep<T(!new)>(stop: T -> bool, s: State<T>, a: Action)
    requires Safe(s) && Served(s) && Enabled(s, a)
    ensures Safe(Do(stop, s, a)) && Served(Do(stop, s, a))
  {
    SafeStep(stop, s, a);
    var s' := Do(stop, s, a);
    assert |s'.ring.items| == 1;
    hide Do, Enabled, Safe, WorkerComing, ProducerComing;
    if u :| LeftAsleep(s', u) && s'.threads[u].Worker? {
      ServedWorkers(stop, s, a, u);
    }
    if u :| LeftAsleep(s', u) && s'.threads[u].Producer? {
      ServedProducers(stop, s, a, u);
    }
  }

  lemma {:induction false} AlwaysServed<T(!new)>(stop: T -> bool, s: State<T>, acts: seq<Action>, s': State<T>)
    requires Safe(s) && Served(s) && Runs(stop, s, acts, s')
    ensures Safe(s') && Served(s')
    decreases |acts|
  {
    if acts != [] {
      ServedStep(stop, s, acts[0]);
      AlwaysServed(stop, Do(stop, s, acts[0]), acts[1..], s');
    }
  }

  /** On a queue of capacity one no thread of any crew is left asleep. */
  lemma OneSlotServes<T(!new)>(stop: T -> bool, init: State<T>, scripts: map<nat, seq<T>>, acts: seq<Action>,
                               s: State<T>)
    requires Init(init, scripts) && |init.ring.items| == 1 && Runs(stop, init, acts, s)
    ensures !Stuck(s)
  {
    InitFifo(init, scripts);
    assert forall t :: !LeftAsleep(init, t);
    AlwaysServed(stop, init, acts, s);
    if AtRest(s) {
      forall t: nat ensures !WorkerComing(s, t) && !ProducerComing(s, t) {
        if t in s.threads {
          RestInside(s, t);
        }
      }
    }
  }

  /** One producer and one worker are never left asleep. */
  lemma PairServed<T(!new)>(stop: T -> bool, init: State<T>, scripts: map<nat, seq<T>>, acts: seq<Action>, s: State<T>)
    requires Init(init, scripts) && Staff(init, 1, 1) && Runs(stop, init, acts, s)
    ensures !Stuck(s)
  {
    assert init.threads.Keys == {SCANNER, WORKER};
    InitGood(stop, init, scripts);
    AlwaysGood(stop, init, acts, s);
    if AtRest(s) {
      RestPositions(stop, s);
    }
  }

  // ----- building runs

  lemma {:induction false} RunsJoin<T(!new)>(stop: T -> bool, s: State<T>, acts: seq<Action>, m: State<T>,
                                             acts': seq<Action>, s': State<T>)
    requires Runs(stop, s, acts, m) && Runs(stop, m, acts', s')
    ensures Runs(stop, s, acts + acts', s')
    decreases |acts|
  {
    hide Do, Enabled, Safe;
    if acts == [] {
      assert [] + acts' == acts';
    } else {
      assert (acts + acts')[1..] == acts[1..] + acts';
      RunsJoin(stop, Do(stop, s, acts[0]), acts[1..], m, acts', s');
    }
  }

  lemma OneMore<T(!new)>(stop: T -> bool, s: State<T>, acts: seq<Action>, m: State<T>, a: Action)
    requires Runs(stop, s, acts, m) && Safe(m) && Enabled(m, a)
    ensures Runs(stop, s, acts + [a], Do(stop, m, a)) && Safe(Do(stop, m, a))
  {
    SafeStep(stop, m, a);
    hide Do, Enabled, Safe;
    assert [a][1..] == [];
    assert Runs(stop, m, [a], Do(stop, m, a));
    RunsJoin(stop, s, acts, m, [a], Do(stop, m, a));
  }

  lemma NoActs<T(!new)>(stop: T -> bool, s: State<T>)
    ensures Runs(stop, s, [], s)
  {
  }

  lemma LockAndTest<T(!new)>(stop: T -> bool, s: State<T>, t: nat) returns (acts: seq<Action>)
    requires Safe(s) && Enabled(s, Lock(t))
    ensures var m := Do(stop, s, Lock(t));
      && Safe(m) && Enabled(m, Test(t)) && Safe(Do(stop, m, Test(t)))
      && Runs(stop, s, acts, Do(stop, m, Test(t)))
  {
    NoActs(stop, s);
    OneMore(stop, s, [], s, Lock(t));
    var m := Do(stop, s, Lock(t));
    assert Enabled(m, Test(t));
    OneMore(stop, s, [] + [Lock(t)], m, Test(t));
    acts := [] + [Lock(t)] + [Test(t)];
  }

  lemma FallsAsleep<T(!new)>(stop: T -> bool, s: State<T>, t: nat) returns (acts: seq<Action>)
    requires Safe(s) && Enabled(s, Lock(t))
    requires if s.threads[t].Worker? then s.ring.Empty() else s.ring.Full()
    ensures Runs(stop, s, acts, Move(s, t, Asleep)) && Safe(Move(s, t, Asleep))
  {
    acts := LockAndTest(stop, s, t);
    assert Do(stop, Do(stop, s, Lock(t)), Test(t)) == Move(s, t, Asleep);
  }

  /** The state after a put or a get of thread `t` that is over, the thread being at `pc`. */
  ghost function AfterPut<T>(s: State<T>, t: nat, pc: Pc): State<T>
    requires t in s.threads && s.threads[t].Producer? && s.threads[t].todo != []
    requires s.ring.Valid() && !s.ring.Full()
  {
    var item := s.threads[t].todo[0];
    s.(ring := s.ring.Put(item), puts := s.puts + [(t, item)],
       threads := s.threads[t := Producer(s.threads[t].todo[1..], pc)])
  }

  ghost function AfterGet<T>(s: State<T>, t: nat, pc: Pc): State<T>
    requires t in s.threads && s.threads[t].Worker? && s.ring.Valid() && !s.ring.Empty()
  {
    var item := s.ring.items[s.ring.start];
    s.(ring := s.ring.Get(), gots := s.gots + [(t, item)],
       threads := s.threads[t := Worker(s.threads[t].seen + [item], pc)])
  }

  /** Where a worker goes after getting this item. */
  function Then<T>(stop: T -> bool, item: T): Pc { if stop(item) then Finished else Idle }

  ghost predicate CanPut<T(!new)>(s: State<T>, t: nat) {
    Safe(s) && Enabled(s, Lock(t)) && s.threads[t].Producer? && s.threads[t].todo != [] && !s.ring.Full()
  }

  ghost predicate CanGet<T(!new)>(s: State<T>, t: nat) {
    Safe(s) && Enabled(s, Lock(t)) && s.threads[t].Worker? && !s.ring.Empty()
  }

  lemma PutDone<T(!new)>(stop: T -> bool, s: State<T>, t: nat) returns (acts: seq<Action>)
    requires CanPut(s, t)
    ensures var m := AfterPut(s, t, if s.ring.Empty() then Signalling else Idle);
      Runs(stop, s, acts, m) && Safe(m)
  {
    hide Ring.Put, Ring.Valid, Runs;
    acts := LockAndTest(stop, s, t);
    var m := Do(stop, Do(stop, s, Lock(t)), Test(t));
    assert m == AfterPut(s, t, Leaving(s.ring.Empty())).(holder := t);
    OneMore(stop, s, acts, m, Unlock(t));
    assert Do(stop, m, Unlock(t)) == AfterPut(s, t, if s.ring.Empty() then Signalling else Idle);
    acts := acts + [Unlock(t)];
  }

  lemma GetDone<T(!new)>(stop: T -> bool, s: State<T>, t: nat) returns (acts: seq<Action>)
    requires CanGet(s, t)
    ensures var m := AfterGet(s, t, if s.ring.Full() then Signalling else Then(stop, s.ring.items[s.ring.start]));
      Runs(stop, s, acts, m) && Safe(m)
  {
    hide Ring.Get, Runs;
    acts := LockAndTest(stop, s, t);
    var m := Do(stop, Do(stop, s, Lock(t)), Test(t));
    assert m == AfterGet(s, t, Leaving(s.ring.Full())).(holder := t);
    OneMore(stop, s, acts, m, Unlock(t));
    assert Do(stop, m, Unlock(t))
      == AfterGet(s, t, if s.ring.Full() then Signalling else Then(stop, s.ring.items[s.ring.start]));
    acts := acts + [Unlock(t)];
  }

  /** A put or a get that wakes nobody. */
  lemma PutsAlone<T(!new)>(stop: T -> bool, s: State<T>, t: nat) returns (acts: seq<Action>)
    requires CanPut(s, t) && (s.ring.Empty() ==> forall v :: !Waits(s, t, v))
    ensures Runs(stop, s, acts, AfterPut(s, t, Idle)) && Safe(AfterPut(s, t, Idle))
  {
    hide Ring.Put, Runs;
    acts := PutDone(stop, s, t);
    if s.ring.Empty() {
      var m := AfterPut(s, t, Signalling);
      forall v: nat ensures !Waits(m, t, v) {
        assert !Waits(s, t, v);
      }
      OneMore(stop, s, acts, m, Signal(t, -1));
      assert Do(stop, m, Signal(t, -1)) == AfterPut(s, t, Idle);
      acts := acts + [Signal(t, -1)];
    }
  }

  lemma GetsAlone<T(!new)>(stop: T -> bool, s: State<T>, t: nat) returns (acts: seq<Action>)
    requires CanGet(s, t) && (s.ring.Full() ==> forall v :: !Waits(s, t, v))
    ensures var s' := AfterGet(s, t, Then(stop, s.ring.items[s.ring.start]));
      Runs(stop, s, acts, s') && Safe(s')
  {
    hide Ring.Get, Runs;
    acts := GetDone(stop, s, t);
    if s.ring.Full() {
      var m := AfterGet(s, t, Signalling);
      forall v: nat ensures !Waits(m, t, v) {
        assert !Waits(s, t, v);
      }
      OneMore(stop, s, acts, m, Signal(t, -1));
      assert Do(stop, m, Signal(t, -1)) == AfterGet(s, t, Then(stop, s.ring.items[s.ring.start]));
      acts := acts + [Signal(t, -1)];
    }
  }

  /** A put into an empty queue, or a get from a full one, that wakes `u`. */
  lemma PutsAndWakes<T(!new)>(stop: T -> bool, s: State<T>, t: nat, u: nat) returns (acts: seq<Action>)
    requires CanPut(s, t) && s.ring.Empty() && Waits(s, t, u)
    ensures var s' := Move(AfterPut(s, t, Idle), u, Woken); Runs(stop, s, acts, s') && Safe(s')
  {
    hide Ring.Put, Runs;
    acts := PutDone(stop, s, t);
    var m := AfterPut(s, t, Signalling);
    OneMore(stop, s, acts, m, Signal(t, u));
    assert Do(stop, m, Signal(t, u)) == Move(AfterPut(s, t, Idle), u, Woken);
    acts := acts + [Signal(t, u)];
  }

  lemma GetsAndWakes<T(!new)>(stop: T -> bool, s: State<T>, t: nat, u: nat) returns (acts: seq<Action>)
    requires CanGet(s, t) && s.ring.Full() && Waits(s, t, u)
    ensures var s' := Move(AfterGet(s, t, Then(stop, s.ring.items[s.ring.start])), u, Woken);
      Runs(stop, s, acts, s') && Safe(s')
  {
    hide Ring.Get, Runs;
    acts := GetDone(stop, s, t);
    var m := AfterGet(s, t, Signalling);
    OneMore(stop, s, acts, m, Signal(t, u));
    assert Do(stop, m, Signal(t, u)) == Move(AfterGet(s, t, Then(stop, s.ring.items[s.ring.start])), u, Woken);
    acts := acts + [Signal(t, u)];
  }

  // ----- two workers

  /** A queue on which nothing has been put. */
  ghost function NewRing(capacity: nat): Ring<Target>
    requires capacity >= 1
  {
    Ring(seq(capacity, _ => PILL), -1, 0)
  }

  /** What the first two producers, or a further one, have to put. */
  ghost function ScriptOf(t: nat, first: seq<Target>, second: seq<Target>): seq<Target> {
    if t == 0 then first else if t == 1 then second else []
  }

  ghost function NewThread(t: nat, producers: nat, first: seq<Target>, second: seq<Target>): Thread<Target> {
    if t < producers then Producer(ScriptOf(t, first, second), Idle) else Worker([], Idle)
  }

  ghost function NewCrew(capacity: nat, producers: nat, workers: nat, first: seq<Target>, second: seq<Target>)
    : State<Target>
    requires capacity >= 1
  {
    State(NewRing(capacity), FREE,
          map t: nat | 0 <= t < producers + workers :: NewThread(t, producers, first, second), [], [])
  }

  ghost function NewScripts(producers: nat, first: seq<Target>, second: seq<Target>): map<nat, seq<Target>> {
    map t: nat | 0 <= t < producers :: ScriptOf(t, first, second)
  }

  lemma NewCrewStarts(capacity: nat, producers: nat, workers: nat, first: seq<Target>, second: seq<Target>)
    requires capacity >= 1
    ensures var init := NewCrew(capacity, producers, workers, first, second);
      && Init(init, NewScripts(producers, first, second)) && Safe(init)
      && |init.ring.items| == capacity && Staff(init, producers, workers)
  {
  }

  /** All workers have gone to sleep on the empty queue. */
  ghost predicate WorkersAsleep(init: State<Target>, s: State<Target>, producers: nat, asleep: nat) {
    && s == init.(threads := s.threads) && s.threads.Keys == init.threads.Keys
    && forall t :: t in init.threads ==>
         s.threads[t] == if producers <= t < producers + asleep then init.threads[t].(pc := Asleep) else init.threads[t]
  }

  lemma {:induction false} AllFallAsleep(init: State<Target>, producers: nat, workers: nat, asleep: nat)
    returns (acts: seq<Action>, s: State<Target>)
    requires Safe(init) && Staff(init, producers, workers) && init.ring.Empty() && init.holder == FREE
    requires asleep <= workers && forall t :: t in init.threads ==> init.threads[t].pc == Idle
    ensures Runs(IsPill, init, acts, s) && Safe(s) && WorkersAsleep(init, s, producers, asleep)
    decreases asleep
  {
    if asleep == 0 {
      NoActs(IsPill, init);
      acts, s := [], init;
    } else {
      hide Runs, Init, Safe, Enabled, WorkersAsleep;
      var m, acts1;
      acts1, m := AllFallAsleep(init, producers, workers, asleep - 1);
      var t := producers + asleep - 1;
      NextAsleep(init, m, producers, workers, asleep - 1);
      var acts2 := FallsAsleep(IsPill, m, t);
      s := Move(m, t, Asleep);
      RunsJoin(IsPill, init, acts1, m, acts2, s);
      acts := acts1 + acts2;
    }
  }

  lemma NextAsleep(init: State<Target>, m: State<Target>, producers: nat, workers: nat, asleep: nat)
    requires Staff(init, producers, workers) && init.ring.Empty() && init.holder == FREE && asleep < workers
    requires forall t :: t in init.threads ==> init.threads[t].pc == Idle
    requires WorkersAsleep(init, m, producers, asleep)
    ensures var t := producers + asleep;
      && Enabled(m, Lock(t)) && m.threads[t].Worker? && m.ring.Empty()
      && WorkersAsleep(init, Move(m, t, Asleep), producers, asleep + 1)
  {
  }

  lemma PutCounts<T>(r: Ring<T>, item: T)
    requires r.Valid() && !r.Full()
    ensures var r' := r.Put(item); r'.Valid() && r'.Len() == r.Len() + 1 && |r'.items| == |r.items|
    ensures r.Put(item).Contents() == r.Contents() + [item]
  {
    PutAppends(r, item);
    hide Ring.Contents;
    assert |r.Put(item).Contents()| == |r.Contents()| + 1;
  }

  lemma GetCounts<T>(r: Ring<T>)
    requires r.Valid() && !r.Empty()
    ensures var r' := r.Get(); r'.Valid() && r'.Len() == r.Len() - 1 && |r'.items| == |r.items|
    ensures r.Contents() == [r.items[r.start]] + r.Get().Contents()
  {
    GetRemoves(r);
    hide Ring.Contents;
    assert |r.Contents()| == 1 + |r.Get().Contents()|;
  }

  /** All workers sleep, the first producer puts a pill for each of two, the second put signals nobody since the
      queue is not empty, and all but the first worker sleep on for good although there is a pill in the queue. */
  lemma WorkersHang(capacity: nat, producers: nat, workers: nat)
    requires capacity >= 2 && producers >= 1 && workers >= 2
    ensures CanGetStuck(capacity, producers, workers)
  {
    hide Ring.Put, Ring.Get, Ring.Contents, Runs, Safe;
    var init := NewCrew(capacity, producers, workers, [PILL, PILL], []);
    var scripts := NewScripts(producers, [PILL, PILL], []);
    NewCrewStarts(capacity, producers, workers, [PILL, PILL], []);
    var w := producers;
    var a1, s1 := AllFallAsleep(init, producers, workers, workers);
    var a2, s2 := FirstPill(s1, w);
    var a3, s3 := SecondPill(s2, w);
    var a4, s4 := PillTaken(s3, w);
    RunsJoin(IsPill, init, a1, s1, a2, s2);
    RunsJoin(IsPill, init, a1 + a2, s2, a3, s3);
    RunsJoin(IsPill, init, a1 + a2 + a3, s3, a4, s4);
    assert LeftAsleep(s4, w + 1);
    NoneCanMove(s4, w, Worker([PILL], Finished));
    assert GetsStuck(capacity, producers, workers, init, scripts, a1 + a2 + a3 + a4, s4);
  }

  /** Thread 0 has `todo` to put, the other producers nothing; worker `w` is as given, the others asleep. */
  ghost predicate Scene(s: State<Target>, todo: seq<Target>, w: nat, worker: Thread<Target>) {
    && Safe(s) && s.ring.Valid() && s.holder == FREE && 0 < w && w in s.threads && w + 1 in s.threads
    && 0 in s.threads && s.threads[0] == Producer(todo, Idle)
    && (forall t :: t in s.threads && 0 < t < w ==> s.threads[t] == Producer([], Idle))
    && worker.Worker? && s.threads[w] == worker
    && (forall t :: t in s.threads && t > w ==> s.threads[t] == Worker([], Asleep))
  }

  lemma FirstPill(s: State<Target>, w: nat) returns (acts: seq<Action>, s': State<Target>)
    requires Scene(s, [PILL, PILL], w, Worker([], Asleep)) && s.ring.Empty() && |s.ring.items| >= 2
    ensures Runs(IsPill, s, acts, s') && Scene(s', [PILL], w, Worker([], Woken))
    ensures s'.ring.Contents() == [PILL] && |s'.ring.items| == |s.ring.items|
  {
    hide Runs, Safe;
    PutCounts(s.ring, PILL);
    assert s.ring.Contents() + [PILL] == [PILL];
    assert CanPut(s, 0);
    acts := PutsAndWakes(IsPill, s, 0, w);
    s' := Move(AfterPut(s, 0, Idle), w, Woken);
  }

  lemma SecondPill(s: State<Target>, w: nat) returns (acts: seq<Action>, s': State<Target>)
    requires Scene(s, [PILL], w, Worker([], Woken)) && s.ring.Contents() == [PILL] && |s.ring.items| >= 2
    ensures Runs(IsPill, s, acts, s') && Scene(s', [], w, Worker([], Woken))
    ensures s'.ring.Contents() == [PILL, PILL]
  {
    hide Runs, Safe;
    PutCounts(s.ring, PILL);
    assert CanPut(s, 0);
    acts := PutsAlone(IsPill, s, 0);
    s' := AfterPut(s, 0, Idle);
  }

  lemma PillTaken(s: State<Target>, w: nat) returns (acts: seq<Action>, s': State<Target>)
    requires Scene(s, [], w, Worker([], Woken)) && s.ring.Contents() == [PILL, PILL]
    ensures Runs(IsPill, s, acts, s') && Scene(s', [], w, Worker([PILL], Finished))
    ensures s'.ring.Len() == 1
  {
    hide Runs, Safe;
    GetCounts(s.ring);
    assert s.ring.items[s.ring.start] == PILL by {
      assert s.ring.Contents()[0] == s.ring.items[s.ring.start];
    }
    assert CanGet(s, w);
    acts := GetsAlone(IsPill, s, w);
    s' := AfterGet(s, w, Finished);
    assert [] + [PILL] == [PILL];
  }

  lemma NoneCanMove(s: State<Target>, w: nat, worker: Thread<Target>)
    requires Scene(s, [], w, worker) && worker.pc == Finished
    ensures AtRest(s)
  {
    hide Ring.Valid;
  }

  // ----- two producers

  ghost function Copies(n: nat): (r: seq<Target>)
    ensures |r| == n && forall i :: 0 <= i < n ==> r[i] == RESULT
  {
    if n == 0 then [] else [RESULT] + Copies(n - 1)
  }

  const RESULT := Target(1, 1)

  /** Enough to fill a queue and one more; the worker stops at the second item. */
  ghost function Overfull(capacity: nat): seq<Target>
    requires capacity >= 2
  {
    [RESULT, PILL] + Copies(capacity - 1)
  }

  /** Two producers with something to put, the others with nothing, and one worker behind them. */
  ghost predicate Stage(s: State<Target>, first: Thread<Target>, second: Thread<Target>, w: nat,
                        worker: Thread<Target>)
  {
    && Safe(s) && s.ring.Valid() && s.holder == FREE && w >= 2
    && (forall t :: t in s.threads <==> 0 <= t <= w)
    && first.Producer? && second.Producer? && worker.Worker?
    && s.threads[0] == first && s.threads[1] == second && s.threads[w] == worker
    && (forall t :: 2 <= t < w ==> s.threads[t] == Producer([], Idle))
  }

  lemma {:induction false} FillsUp(s: State<Target>, todo: seq<Target>, second: Thread<Target>, w: nat, n: nat)
    returns (acts: seq<Action>, s': State<Target>)
    requires Stage(s, Producer(todo, Idle), second, w, Worker([], Idle)) && second.pc == Idle
    requires n <= |todo| && s.ring.Len() + n <= |s.ring.items|
    ensures Runs(IsPill, s, acts, s') && Stage(s', Producer(todo[n..], Idle), second, w, Worker([], Idle))
    ensures |s'.ring.items| == |s.ring.items| && s'.ring.Contents() == s.ring.Contents() + todo[..n]
    decreases n
  {
    hide Runs, Safe, Ring.Contents, Ring.Put;
    if n == 0 {
      NoActs(IsPill, s);
      acts, s' := [], s;
      assert todo[0..] == todo && todo[..0] == [] && s.ring.Contents() + [] == s.ring.Contents();
    } else {
      PutCounts(s.ring, todo[0]);
      assert CanPut(s, 0);
      var acts1 := PutsAlone(IsPill, s, 0);
      var m := AfterPut(s, 0, Idle);
      var acts2;
      acts2, s' := FillsUp(m, todo[1..], second, w, n - 1);
      RunsJoin(IsPill, s, acts1, m, acts2, s');
      acts := acts1 + acts2;
      assert todo[1..][n - 1..] == todo[n..] && todo[..n] == [todo[0]] + todo[1..][..n - 1];
      assert s.ring.Contents() + ([todo[0]] + todo[1..][..n - 1]) == s.ring.Contents() + [todo[0]] + todo[1..][..n - 1];
    }
  }

  /** The queue is full; both producers go to sleep. */
  lemma BothSleep(s: State<Target>, w: nat) returns (acts: seq<Action>, s': State<Target>)
    requires Stage(s, Producer([RESULT], Idle), Producer([RESULT], Idle), w, Worker([], Idle)) && s.ring.Full()
    ensures Runs(IsPill, s, acts, s') && s'.ring == s.ring
    ensures Stage(s', Producer([RESULT], Asleep), Producer([RESULT], Asleep), w, Worker([], Idle))
  {
    hide Runs, Safe;
    var acts1 := FallsAsleep(IsPill, s, 0);
    var m := Move(s, 0, Asleep);
    var acts2 := FallsAsleep(IsPill, m, 1);
    s' := Move(m, 1, Asleep);
    RunsJoin(IsPill, s, acts1, m, acts2, s');
    acts := acts1 + acts2;
  }

  /** The worker gets two items; only the first get finds the queue full and signals. */
  lemma TwoTaken(s: State<Target>, w: nat) returns (acts: seq<Action>, s': State<Target>)
    requires Stage(s, Producer([RESULT], Asleep), Producer([RESULT], Asleep), w, Worker([], Idle)) && s.ring.Full()
    requires |s.ring.items| >= 2 && s.ring.Contents()[0] == RESULT && s.ring.Contents()[1] == PILL
    ensures Runs(IsPill, s, acts, s')
    ensures Stage(s', Producer([RESULT], Woken), Producer([RESULT], Asleep), w, Worker([RESULT, PILL], Finished))
    ensures s'.ring.Len() == |s.ring.items| - 2 && |s'.ring.items| == |s.ring.items|
  {
    hide Runs, Safe, Ring.Contents, Ring.Get;
    GetCounts(s.ring);
    assert CanGet(s, w);
    var acts1 := GetsAndWakes(IsPill, s, w, 0);
    var m := Move(AfterGet(s, w, Idle), 0, Woken);
    assert [] + [RESULT] == [RESULT];
    GetCounts(m.ring);
    assert s.ring.Contents()[1] == m.ring.Contents()[0];
    assert CanGet(m, w);
    var acts2 := GetsAlone(IsPill, m, w);
    s' := AfterGet(m, w, Finished);
    assert [RESULT] + [PILL] == [RESULT, PILL];
    RunsJoin(IsPill, s, acts1, m, acts2, s');
    acts := acts1 + acts2;
  }

  /** The producer that was woken puts its last item. */
  lemma OneMorePut(s: State<Target>, w: nat, worker: Thread<Target>) returns (acts: seq<Action>, s': State<Target>)
    requires Stage(s, Producer([RESULT], Woken), Producer([RESULT], Asleep), w, worker) && worker.pc == Finished
    requires s.ring.Len() + 2 <= |s.ring.items|
    ensures Runs(IsPill, s, acts, s') && !s'.ring.Full()
    ensures Stage(s', Producer([], Idle), Producer([RESULT], Asleep), w, worker)
  {
    hide Runs, Safe, Ring.Contents, Ring.Put;
    PutCounts(s.ring, RESULT);
    assert CanPut(s, 0);
    acts := PutsAlone(IsPill, s, 0);
    s' := AfterPut(s, 0, Idle);
  }

  lemma OneLeft(s: State<Target>, w: nat, worker: Thread<Target>)
    requires Stage(s, Producer([], Idle), Producer([RESULT], Asleep), w, worker) && worker.pc == Finished
    ensures AtRest(s)
  {
    hide Ring.Valid;
  }

  lemma StageOfNew(capacity: nat, producers: nat, first: seq<Target>, second: seq<Target>)
    requires capacity >= 1 && producers >= 2
    ensures var init := NewCrew(capacity, producers, 1, first, second);
      && Stage(init, Producer(first, Idle), Producer(second, Idle), producers, Worker([], Idle))
      && init.ring.Contents() == [] && init.ring.Len() == 0
  {
    NewCrewStarts(capacity, producers, 1, first, second);
  }

  /** Two producers sleep on the full queue, the worker takes two items, of which only the first get signals, and
      stops; the producer woken puts its last item, and the other sleeps on for good although there is room. */
  lemma ProducersHang(capacity: nat, producers: nat)
    requires capacity >= 2 && producers >= 2
    ensures CanGetStuck(capacity, producers, 1)
  {
    hide Ring.Put, Ring.Get, Ring.Contents, Runs, Safe;
    var todo := Overfull(capacity);
    var init, scripts := NewCrew(capacity, producers, 1, todo, [RESULT]), NewScripts(producers, todo, [RESULT]);
    var w := producers;
    NewCrewStarts(capacity, producers, 1, todo, [RESULT]);
    StageOfNew(capacity, producers, todo, [RESULT]);
    var a1, s1 := FillsUp(init, todo, Producer([RESULT], Idle), w, capacity);
    assert todo[capacity..] == [RESULT] && todo[..capacity][0] == RESULT && todo[..capacity][1] == PILL;
    assert [] + todo[..capacity] == todo[..capacity];
    FullAt(s1.ring);
    var a2, s2 := BothSleep(s1, w);
    var a3, s3 := TwoTaken(s2, w);
    var a4, s4 := OneMorePut(s3, w, Worker([RESULT, PILL], Finished));
    RunsJoin(IsPill, init, a1, s1, a2, s2);
    RunsJoin(IsPill, init, a1 + a2, s2, a3, s3);
    RunsJoin(IsPill, init, a1 + a2 + a3, s3, a4, s4);
    OneLeft(s4, w, Worker([RESULT, PILL], Finished));
    assert LeftAsleep(s4, 1);
    assert GetsStuck(capacity, producers, 1, init, scripts, a1 + a2 + a3 + a4, s4);
  }

  lemma FullAt<T>(r: Ring<T>)
    requires r.Valid()
    ensures |r.Contents()| == r.Len() && (r.Full() <==> r.Len() == |r.items|)
  {
  }

  // ----- exactly when

  /** A crew can leave a thread asleep that could go on if and only if the queue has room for two and there are two
      producers or two workers. */
  lemma StuckExactly(capacity: nat, producers: nat, workers: nat)
    requires capacity >= 1 && producers >= 1 && workers >= 1
    ensures CanGetStuck(capacity, producers, workers) <==> capacity >= 2 && (producers >= 2 || workers >= 2)
  {
    hide Runs, Init, Staff, Stuck;
    if capacity >= 2 && workers >= 2 {
      WorkersHang(capacity, producers, workers);
    } else if capacity >= 2 && producers >= 2 {
      ProducersHang(capacity, producers);
    } else if init, scripts, acts, s :| GetsStuck(capacity, producers, workers, init, scripts, acts, s) {
      if capacity == 1 {
        OneSlotServes(IsPill, init, scripts, acts, s);
      } else {
        PairServed(IsPill, init, scripts, acts, s);
      }
    }
  }
}
