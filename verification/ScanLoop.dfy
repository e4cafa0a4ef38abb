/** The scanning thread: fill the table of pending connections at a bounded pace, wait for events, reap those,
    reap what has timed out. The process-wide counters and the queue of results are fields of the scanner. */
module ScanLoop {
  import opened Sequences
  import opened Results
  import opened QueueProtocol
  import opened QueueDelivery
  import opened ResultDelivery
  import opened ScanHistory
  import K = Kernel
  import L = SocketList

  // ----- deadlines

  function Deadline(entries: seq<L.Entry>, fd: int): nat {
    if 0 <= fd < |entries| then entries[fd].timeout else 0
  }

  ghost predicate Sorted(entries: seq<L.Entry>, fds: seq<int>) {
    forall i, j :: 0 <= i <= j < |fds| ==> Deadline(entries, fds[i]) <= Deadline(entries, fds[j])
  }

  /** The descriptors whose time is not up, in order. */
  function Later(entries: seq<L.Entry>, fds: seq<int>, now: nat): seq<int> {
    if fds == [] then []
    else (if Deadline(entries, fds[0]) > now then [fds[0]] else []) + Later(entries, fds[1..], now)
  }

  lemma {:induction false} LaterAll(entries: seq<L.Entry>, fds: seq<int>, now: nat)
    requires forall i :: 0 <= i < |fds| ==> Deadline(entries, fds[i]) > now
    ensures Later(entries, fds, now) == fds
  {
    if fds != [] {
      LaterAll(entries, fds[1..], now);
    }
  }

  // ----- pacing

  /** Successive send times kept in `lastPacket` lie at least `interval` apart. */
  ghost predicate Paced(stamps: seq<nat>, interval: nat) {
    forall i :: 0 <= i < |stamps| - 1 ==> stamps[i] + interval <= stamps[i + 1]
  }

  lemma PacedMore(stamps: seq<nat>, interval: nat, stamp: nat)
    requires Paced(stamps, interval) && stamps != [] && stamps[|stamps| - 1] + interval <= stamp
    ensures Paced(stamps + [stamp], interval)
  {
  }

  /** n sends after a given one are stamped no sooner than n intervals after it. */
  lemma {:induction false} PacedGap(stamps: seq<nat>, interval: nat, i: nat, j: nat)
    requires Paced(stamps, interval) && i <= j < |stamps|
    ensures stamps[i] + (j - i) * interval <= stamps[j]
    decreases j - i
  {
    if i < j {
      PacedGap(stamps, interval, i, j - 1);
      assert stamps[j - 1] + interval <= stamps[j];
      assert (j - i) * interval == (j - 1 - i) * interval + interval;
    }
  }

  lemma PacedWithin(stamps: seq<nat>, interval: nat, us: nat)
    requires Paced(stamps, interval) && stamps != [] && stamps[|stamps| - 1] <= us
    ensures forall i, j :: 0 <= i <= j < |stamps| ==> stamps[i] + (j - i) * interval <= stamps[j] <= us
  {
    forall i, j | 0 <= i <= j < |stamps| ensures stamps[i] + (j - i) * interval <= stamps[j] <= us {
      PacedGap(stamps, interval, i, j);
      PacedGap(stamps, interval, j, |stamps| - 1);
      assert (|stamps| - 1 - j) * interval >= 0;
    }
  }

  /** Attempt i was made when its stamp was reached or later, and the stamp is not older than the clock when the slot
      was asked for; the first stamp is from before all of them. */
  ghost predicate InSlots(asked: seq<nat>, stamps: seq<nat>, sends: seq<Send>) {
    && |asked| == |sends| && |stamps| == |sends| + 1
    && forall i :: 0 <= i < |sends| ==> asked[i] <= stamps[i + 1] <= sends[i].at
  }

  lemma SlotTaken(asked: seq<nat>, stamps: seq<nat>, sends: seq<Send>, clock: nat, stamp: nat, send: Send)
    requires InSlots(asked, stamps, sends) && clock <= stamp <= send.at
    ensures InSlots(asked + [clock], stamps + [stamp], sends + [send])
  {
  }

  /** An attempt n sends after a given one is made at least n intervals after the clock that one's slot was asked by. */
  lemma SendsApart(asked: seq<nat>, stamps: seq<nat>, sends: seq<Send>, interval: nat, i: nat, j: nat)
    requires InSlots(asked, stamps, sends) && Paced(stamps, interval) && i <= j < |sends|
    ensures asked[i] + (j - i) * interval <= sends[j].at
  {
    PacedGap(stamps, interval, i + 1, j + 1);
  }

  lemma AllApart(asked: seq<nat>, stamps: seq<nat>, sends: seq<Send>, interval: nat)
    requires InSlots(asked, stamps, sends) && Paced(stamps, interval)
    ensures |asked| == |sends|
    ensures forall i, j :: 0 <= i <= j < |sends| ==> asked[i] + (j - i) * interval <= sends[j].at
  {
    forall i, j | 0 <= i <= j < |sends| ensures asked[i] + (j - i) * interval <= sends[j].at {
      SendsApart(asked, stamps, sends, interval, i, j);
    }
  }

  // ----- what events report

  /** The targets that the events report as open: writable, without error, and not the canary. */
  function Reported(events: seq<K.Event>, entries: seq<L.Entry>, canaryIp: nat, canaryPort: int): seq<Target> {
    if events == [] then []
    else
      var e := events[|events| - 1];
      Reported(events[..|events| - 1], entries, canaryIp, canaryPort)
        + if e.writable && !e.failed && 0 <= e.fd < |entries| && !IsCanary(entries[e.fd], canaryIp, canaryPort)
          then [Target(entries[e.fd].ip, entries[e.fd].port)] else []
  }

  predicate IsCanary(e: L.Entry, canaryIp: nat, canaryPort: int) {
    canaryIp != 0 && e.ip == canaryIp && e.port == canaryPort
  }

  /** The entry is that of this attempt: it has its target, and `timeout` milliseconds from when it was made. */
  predicate ListedAs(entry: L.Entry, send: Send, timeout: nat) {
    Target(entry.ip, entry.port) == send.target && entry.timeout >= send.at / 1000 + timeout
  }

  /** Every descriptor stands for the attempt known for it. */
  ghost predicate ListedIn(entries: seq<L.Entry>, fds: seq<int>, open: map<int, Send>, timeout: nat) {
    forall i :: 0 <= i < |fds| ==>
      && 0 <= fds[i] < |entries| && fds[i] in open && ListedAs(entries[fds[i]], open[fds[i]], timeout)
  }

  /** Only links differ. */
  predicate SamePayload(a: L.Entry, b: L.Entry) {
    a.timeout == b.timeout && a.ip == b.ip && a.port == b.port
  }

  ghost predicate OthersKept(was: seq<L.Entry>, now: seq<L.Entry>, fd: int) {
    |was| == |now| && forall e :: 0 <= e < |was| && e != fd ==> SamePayload(was[e], now[e])
  }

  lemma ListedMore(was: seq<L.Entry>, now: seq<L.Entry>, fds: seq<int>, open: map<int, Send>, timeout: nat, fd: int,
                   send: Send)
    requires ListedIn(was, fds, open, timeout) && OthersKept(was, now, fd) && fd !in fds
    requires 0 <= fd < |now| && ListedAs(now[fd], send, timeout)
    ensures ListedIn(now, fds + [fd], open[fd := send], timeout)
  {
  }

  /** Fewer descriptors, and no other attempts, but for descriptors not listed. */
  lemma ListedLess(was: seq<L.Entry>, now: seq<L.Entry>, fds: seq<int>, rest: seq<int>, open: map<int, Send>,
                   left: map<int, Send>, timeout: nat)
    requires ListedIn(was, fds, open, timeout) && Kept(was, now)
    requires forall fd :: fd in rest ==> fd in fds && fd in left && (fd in open ==> left[fd] == open[fd])
    ensures ListedIn(now, rest, left, timeout)
  {
    forall i | 0 <= i < |rest|
      ensures 0 <= rest[i] < |now| && rest[i] in left && ListedAs(now[rest[i]], left[rest[i]], timeout)
    {
      var fd := rest[i];
      assert fd in rest;
      assert fd in fds;
      var k :| 0 <= k < |fds| && fds[k] == rest[i];
      assert SamePayload(was[fds[k]], now[fds[k]]);
    }
  }

  ghost predicate Kept(was: seq<L.Entry>, now: seq<L.Entry>) {
    |was| == |now| && forall e :: 0 <= e < |was| ==> SamePayload(was[e], now[e])
  }

  function Members(fds: seq<int>): set<int> { set i | 0 <= i < |fds| :: fds[i] }

  /** The descriptors not in `gone`, in order. */
  function Except(fds: seq<int>, gone: set<int>): seq<int> {
    if fds == [] then [] else (if fds[0] in gone then [] else [fds[0]]) + Except(fds[1..], gone)
  }

  lemma {:induction false} ExceptNone(fds: seq<int>)
    ensures Except(fds, {}) == fds
  {
    if fds != [] {
      ExceptNone(fds[1..]);
    }
  }

  lemma {:induction false} ExceptSame(fds: seq<int>, gone: set<int>, fd: int)
    requires fd !in fds
    ensures Except(fds, gone + {fd}) == Except(fds, gone)
  {
    if fds != [] {
      ExceptSame(fds[1..], gone, fd);
    }
  }

  lemma {:induction false} ExceptMembers(fds: seq<int>, gone: set<int>, fd: int)
    ensures fd in Except(fds, gone) <==> fd in fds && fd !in gone
  {
    if fds != [] {
      ExceptMembers(fds[1..], gone, fd);
      assert fd in fds <==> fd == fds[0] || fd in fds[1..];
    }
  }

  /** Taking one more descriptor out of what is left. */
  lemma {:induction false} ExceptOne(fds: seq<int>, gone: set<int>, i: nat)
    requires Distinct(fds) && i < |Except(fds, gone)|
    ensures L.Without(Except(fds, gone), i) == Except(fds, gone + {Except(fds, gone)[i]})
  {
    var first, rest := fds[0], Except(fds[1..], gone);
    DistinctRest(fds);
    if first in gone {
      ExceptOne(fds[1..], gone, i);
    } else if i == 0 {
      assert Except(fds, gone)[0] == first;
      ExceptSame(fds[1..], gone, first);
      assert L.Without([first] + rest, 0) == rest;
    } else {
      var x := rest[i - 1];
      assert Except(fds, gone)[i] == x;
      ExceptOne(fds[1..], gone, i - 1);
      ExceptMembers(fds[1..], gone, x);
      assert first != x;
      WithoutBehind(first, rest, i);
    }
  }

  lemma DistinctRest(fds: seq<int>)
    requires Distinct(fds) && fds != []
    ensures Distinct(fds[1..]) && fds[0] !in fds[1..]
  {
  }

  lemma WithoutBehind(first: int, rest: seq<int>, i: nat)
    requires 1 <= i <= |rest|
    ensures L.Without([first] + rest, i) == [first] + L.Without(rest, i - 1)
  {
    assert ([first] + rest)[..i] == [first] + rest[..i - 1];
    assert ([first] + rest)[i + 1..] == rest[i..];
  }

  lemma MembersIn(fds: seq<int>, fd: int)
    ensures fd in Members(fds) <==> fd in fds
  {
    if fd in fds {
      var i :| 0 <= i < |fds| && fds[i] == fd;
    }
  }

  lemma MembersWithout(fds: seq<int>, i: nat)
    requires Distinct(fds) && i < |fds|
    ensures Members(L.Without(fds, i)) == Members(fds) - {fds[i]}
  {
    var rest := L.Without(fds, i);
    forall fd ensures fd in Members(rest) <==> fd in Members(fds) && fd != fds[i] {
      if fd in Members(fds) && fd != fds[i] {
        var k :| 0 <= k < |fds| && fds[k] == fd;
        assert rest[if k < i then k else k - 1] == fd;
      }
    }
  }

  lemma {:induction false} MembersCount(fds: seq<int>)
    requires Distinct(fds)
    ensures |Members(fds)| == |fds|
  {
    if fds != [] {
      var n := |fds| - 1;
      MembersCount(fds[..n]);
      assert Members(fds) == Members(fds[..n]) + {fds[n]};
    }
  }

  /** On a sorted list the entries whose time is up come first. */
  lemma {:induction false} LaterSplit(entries: seq<L.Entry>, fds: seq<int>, k: nat, now: nat)
    requires k <= |fds|
    requires forall i :: 0 <= i < k ==> Deadline(entries, fds[i]) <= now
    requires forall i :: k <= i < |fds| ==> Deadline(entries, fds[i]) > now
    ensures Later(entries, fds, now) == fds[k..]
  {
    if k == 0 {
      LaterAll(entries, fds, now);
    } else {
      LaterSplit(entries, fds[1..], k - 1, now);
      assert fds[1..][k - 1..] == fds[k..];
    }
  }

  class Scanner {
    const kernel: K.Kernel
    const list: L.SocketList
    const maxPending: nat
    const connectTimeout: nat
    const connectInterval: nat
    const canaryIp: nat
    const canaryPort: int
    const canaryAfter: nat
    const bindIp: nat
    const bindPort: int
    const bindRetries: int

    var packetsSent: nat
    var eventCount: nat
    var resultCount: nat
    var lastPacket: nat
    var results: seq<Target>  // what has been queued for the worker

    ghost var timedOut: nat
    ghost var stamps: seq<nat>  // every value of `lastPacket`
    ghost var asked: seq<nat>  // the clock whenever a slot was asked for
    ghost var drawn: seq<Target>  // the targets picked, whether sent to or not

    constructor (kernel: K.Kernel, list: L.SocketList, maxPending: nat, connectTimeout: nat, connectInterval: nat,
                 canaryIp: nat, canaryPort: int, canaryAfter: nat, bindIp: nat, bindPort: int, bindRetries: int)
      requires maxPending >= 1 && kernel.Valid() && kernel.open == {} && list.Valid() && list.fds == []
      requires kernel.history == []
      ensures Valid() && Truthful() && Sending() && this.kernel == kernel && this.list == list && results == []
    {
      this.kernel, this.list := kernel, list;
      this.maxPending, this.connectTimeout, this.connectInterval := maxPending, connectTimeout, connectInterval;
      this.canaryIp, this.canaryPort, this.canaryAfter := canaryIp, canaryPort, canaryAfter;
      this.bindIp, this.bindPort, this.bindRetries := bindIp, bindPort, bindRetries;
      packetsSent, eventCount, resultCount, lastPacket := 0, 0, 0, 0;
      results, timedOut, stamps, asked, drawn := [], 0, [0], [], [];
    }

    ghost predicate Shape()
      reads list, list.entries, kernel`ledger, kernel`open, kernel`watched
    {
      && list.Valid() && kernel.Valid()
      && maxPending >= 1
    }

    /** The loop invariant of the scan. */
    ghost predicate Valid()
      reads this`packetsSent, this`eventCount, this`resultCount, this`results, this`timedOut, this`stamps,
            this`lastPacket, list, list.entries, kernel`ledger, kernel`open, kernel`watched, kernel`us
    {
      Accounts({}, 0)
    }

    /** The invariant while the attempts in `loose` are open but not in the list, and `owed` probes are neither
        in the list nor counted as an event or a timeout. */
    ghost predicate Accounts(loose: set<int>, owed: int)
      reads this`packetsSent, this`eventCount, this`resultCount, this`results, this`timedOut, this`stamps,
            this`lastPacket, list, list.entries, kernel`ledger, kernel`open, kernel`watched, kernel`us
    {
      && Shape() && Timely() && Pacing()
      && Members(list.fds) + loose == kernel.open && Members(list.fds) !! loose
      && |list.fds| <= maxPending
      && packetsSent == eventCount + |list.fds| + timedOut + owed
      && resultCount == |results|
    }

    /** The list is in the order of deadlines, none further off than the connect timeout. */
    ghost predicate Timely()
      reads list, list.entries, kernel`us
    {
      && Sorted(list.entries[..], list.fds)
      && (forall i :: 0 <= i < |list.fds| ==>
            Deadline(list.entries[..], list.fds[i]) <= kernel.us / 1000 + connectTimeout)
    }

    ghost predicate Pacing()
      reads this`stamps, this`lastPacket, kernel`us
    {
      && Paced(stamps, connectInterval)
      && stamps != [] && lastPacket == stamps[|stamps| - 1]
      && lastPacket <= kernel.us
    }

    function Canary(): Target { Target(canaryIp, canaryPort) }

    /** What the kernel's answers so far say was found, and is in progress. */
    ghost function SeenSoFar(): Findings
      reads kernel`history
    {
      Seen(kernel.history, Canary())
    }

    /** Every pending probe is listed under the target it was sent to, and has its time from then on. */
    ghost predicate Listed(open: map<int, Send>)
      reads list, list.entries
    {
      ListedIn(list.entries[..], list.fds, open, connectTimeout)
    }

    /** What was queued is exactly what was found. */
    ghost predicate Queued()
      reads this`results, kernel`history
    {
      results == SeenSoFar().found
    }

    /** No probe has been given up before its time. */
    ghost predicate Waited()
      reads kernel`history
    {
      Patient(kernel.history, Canary(), connectTimeout)
    }

    ghost predicate Truthful()
      reads this`results, kernel`history, list, list.entries
    {
      Queued() && Listed(SeenSoFar().open) && Waited()
    }

    /** The targets picked, but for the canary's turn, when it is the canary's. */
    ghost predicate AimedAt(sends: seq<Send>, drawn: seq<Target>) {
      && |sends| == |drawn|
      && forall n :: 0 <= n < |drawn| ==>
           sends[n].target == if canaryIp != 0 && n == canaryAfter then Target(canaryIp, canaryPort) else drawn[n]
    }

    /** Every attempt went to the target picked for it, but for the canary's turn. */
    ghost predicate Aimed()
      reads this, kernel`history
    {
      packetsSent == |Sends(kernel.history)| && AimedAt(Sends(kernel.history), drawn)
    }

    /** Every attempt was made in a slot of its own, behind the time for which the slot was asked. */
    ghost predicate Slotted()
      reads this, kernel`history
    {
      connectInterval > 0 ==> InSlots(asked, stamps, Sends(kernel.history))
    }

    ghost predicate Sending()
      reads this, kernel`history
    {
      Aimed() && Slotted()
    }

    method QueueResult(ip: nat, port: int)
      modifies this`results, this`resultCount
      ensures results == old(results) + [Target(ip, port)] && resultCount == old(resultCount) + 1
    {
      results := results + [Target(ip, port)];
      resultCount := resultCount + 1;
    }

    /** Waits for the next send slot. `now` is what the clock said; the slot is an interval behind the last one or, if
        that is past, now, and it is slept for exactly as long as it takes. The stored time may lag behind the clock
        but never runs ahead of it. */
    method CheckConnectInterval() returns (ghost now: nat)
      requires Valid()
      modifies this`lastPacket, this`stamps, this`asked, kernel`us, kernel`naps
      ensures Valid()
      ensures old(kernel.us) <= now <= kernel.us
      ensures var due := old(lastPacket) + connectInterval;
        && lastPacket >= due && lastPacket >= now && (lastPacket == due || lastPacket == now)
        && kernel.naps == old(kernel.naps) + (if now < due then [K.Nap(now, due - now)] else [])
      ensures lastPacket >= old(kernel.us) && lastPacket <= kernel.us
      ensures stamps == old(stamps) + [lastPacket] && asked == old(asked) + [old(kernel.us)]
    {
      hide Shape, Members, Sorted, Paced, Deadline;
      asked := asked + [kernel.us];
      var clock := kernel.GetUs();
      now := clock;
      if lastPacket + connectInterval > clock {
        kernel.USleep(lastPacket + connectInterval - clock);
        clock := lastPacket + connectInterval;
      }
      PacedMore(stamps, connectInterval, clock);
      lastPacket := clock;
      stamps := stamps + [clock];
      DeadlinesStay(old(kernel.us), kernel.us);
    }

    lemma DeadlinesStay(before: nat, after: nat)
      requires before <= after
      ensures before / 1000 <= after / 1000
    {
    }

    /** The process goes on after this answer: no socket error but an address in use, and a descriptor that is
        neither too big for the table nor 0, which the encoding of the answer confuses with an error. */
    predicate Survives(a: K.Attempt) {
      match a
      case Broken(clash) => clash
      case InProgress(fd) => 0 < fd < list.size
      case _ => true
    }

    /** How many ports a socket is tried on at most: none when there is nothing to bind to, and port 0 only once. */
    function MostBinds(): nat {
      if (bindIp == 0 && bindPort == 0) || bindRetries <= 0 then 0
      else if bindPort <= 0 && -bindPort < bindRetries then 1 - bindPort
      else bindRetries
    }

    /** Ports asked for one after the other from `bindPort` on: each but the last was in use. `ok` says that the
        process goes on: with a port bound, or with none when all are in use. */
    ghost predicate BoundAs(tried: seq<(int, K.Binding)>, ok: bool) {
      && |tried| <= MostBinds()
      && (forall i :: 0 <= i < |tried| ==> tried[i].0 == bindPort + i)
      && (forall i :: 0 <= i < |tried| - 1 ==> tried[i].1 == K.InUse)
      && (ok <==> tried == [] || tried[|tried| - 1].1 != K.BindFailed)
      && (ok && (tried == [] || tried[|tried| - 1].1 != K.Bound) ==> |tried| == MostBinds())
    }

    /** Gives the socket a port, if the options ask for one. */
    method BindSocket() returns (ok: bool)
      modifies kernel`binds
      ensures old(kernel.binds) <= kernel.binds
      ensures BoundAs(kernel.binds[|old(kernel.binds)|..], ok)
    {
      ghost var start := |kernel.binds|;
      ok := true;
      assert kernel.binds[start..] == [];
      if bindIp != 0 || bindPort != 0 {
        var port := bindPort;
        while port < bindPort + bindRetries
          invariant bindPort <= port && |kernel.binds| == start + (port - bindPort)
          invariant old(kernel.binds) <= kernel.binds && port - bindPort <= MostBinds()
          invariant bindPort < port && bindPort <= 0 ==> port <= 0
          invariant forall i :: start <= i < |kernel.binds| ==> kernel.binds[i] == (bindPort + i - start, K.InUse)
          decreases bindPort + bindRetries - port
        {
          var b := kernel.Bind(port);
          if b == K.Bound {
            return true;
          }
          if b != K.InUse {
            return false;
          }
          if port == 0 {
            break;
          }
          port := port + 1;
        }
      }
    }

    /** The socket of one probe, ready to connect. The process gives up if there is none or `bind` fails for another
        reason than the port being in use. */
    method Setup() returns (ok: bool)
      modifies kernel`sockets, kernel`binds
      ensures SetUp(old(kernel.binds), ok)
      ensures |kernel.sockets| == |old(kernel.sockets)| + 1
    {
      ok := kernel.Socket();
      if ok {
        ok := BindSocket();
      } else {
        assert kernel.binds[|kernel.binds|..] == [];
      }
    }

    /** The last socket asked for was there and has been bound, or else one of the two failed. */
    ghost predicate SetUp(binds: seq<(int, K.Binding)>, ok: bool)
      reads kernel`binds, kernel`sockets
    {
      && binds <= kernel.binds && kernel.sockets != []
      && if kernel.sockets[|kernel.sockets| - 1] then BoundAs(kernel.binds[|binds|..], ok)
         else !ok && kernel.binds == binds
    }

    /** The state in which a process ends that could not set up a socket: nothing was sent. */
    ghost predicate NotSent(sent: nat, results: seq<Target>, history: seq<K.Happening>, alive: bool)
      reads this`packetsSent, this`results, kernel`history
    {
      !alive && packetsSent == sent && this.results == results && kernel.history == history
    }

    /** The answer to an attempt on `chosen`, the only thing that happened since `history`, at `since` or later. */
    ghost predicate Answered(history: seq<K.Happening>, chosen: Target, since: nat)
      reads kernel`history, kernel`us
    {
      && |kernel.history| == |history| + 1 && history <= kernel.history
      && kernel.history[|history|].Tried? && kernel.history[|history|].target == chosen
      && since <= kernel.history[|history|].at <= kernel.us
    }

    /** The answer given last. */
    ghost function Answer(): K.Attempt
      requires kernel.history != [] && kernel.history[|kernel.history| - 1].Tried?
      reads kernel`history
    {
      kernel.history[|kernel.history| - 1].answer
    }

    /** One probe. Returns its descriptor if it is left in progress, else -1; `alive` is false if the process gave
        up, and `sent` if it did so before connecting. */
    method TryConnect(target: Target) returns (tfd: int, alive: bool, ghost sent: bool)
      requires Valid() && Truthful() && |list.fds| < maxPending
      modifies this`packetsSent, this`eventCount, this`resultCount, this`results, list, list.entries, kernel
      ensures SetUp(old(kernel.binds), sent)
      ensures !sent ==> NotSent(old(packetsSent), old(results), old(kernel.history), alive)
      ensures sent ==> packetsSent == old(packetsSent) + 1
      ensures kernel.us >= old(kernel.us) && kernel.waits == old(kernel.waits)
      ensures Queued()
      ensures sent ==> Answered(old(kernel.history), Chosen(old(packetsSent), target), old(kernel.us))
      ensures sent ==>
        var answer, chosen := Answer(), Chosen(old(packetsSent), target);
        && alive == Survives(answer)
        && results == old(results) + (if answer.Ready? then [chosen] else [])
        && (alive ==> tfd == if answer.InProgress? then answer.fd as int else -1)
        && (alive && tfd >= 0 ==> Entered(tfd, chosen))
      ensures alive ==> Valid() && Truthful() && kernel.watched == old(kernel.watched)
      ensures alive ==> list.fds == old(list.fds) + if tfd >= 0 then [tfd] else []
      ensures alive ==> kernel.open == old(kernel.open) + if tfd >= 0 then {tfd} else {}
    {
      hide Seen, ListedIn, Patient, L.Linked, L.SocketList.Valid, K.Ledger.Balanced, K.Ledger.Open, Paced, Members,
        Sorted, BoundAs;
      var chosen := target;
      if canaryIp != 0 && packetsSent == canaryAfter {
        chosen := Target(canaryIp, canaryPort);
      }
      var ready := Setup();
      sent := ready;
      if !ready {
        return -1, false, false;
      }
      tfd, alive := Connect(chosen);
    }

    /** The attempt itself; one left in progress is not in the list yet. */
    method Attempt(chosen: Target) returns (attempt: K.Attempt)
      requires Valid() && Truthful()
      modifies this`packetsSent, kernel`us, kernel`open, kernel`ledger, kernel`history
      ensures packetsSent == old(packetsSent) + 1 && kernel.us >= old(kernel.us)
      ensures Answered(old(kernel.history), chosen, old(kernel.us)) && Answer() == attempt
      ensures Accounts(if attempt.InProgress? then {attempt.fd as int} else {}, 1)
      ensures kernel.open == old(kernel.open) + if attempt.InProgress? then {attempt.fd as int} else {}
      ensures attempt.InProgress? ==> attempt.fd !in list.fds
      ensures Waited() && Listed(old(SeenSoFar()).open)
      ensures SeenSoFar() == See(old(SeenSoFar()), kernel.history[|old(kernel.history)|], Canary())
    {
      hide Seen, ListedIn, Patient, L.Linked, L.SocketList.Valid, K.Ledger.Balanced, K.Ledger.Open, Paced, Members,
        Sorted, Deadline;
      attempt := kernel.Connect(chosen);
      ghost var h := K.Tried(chosen, attempt, kernel.us);
      SeenMore(old(kernel.history), h, Canary());
      PatientMore(old(kernel.history), h, Canary(), connectTimeout);
      DeadlinesStay(old(kernel.us), kernel.us);
      packetsSent := packetsSent + 1;
      if attempt.InProgress? {
        MembersIn(list.fds, attempt.fd);
      }
    }

    /** The probe once its socket is set up. */
    method Connect(chosen: Target) returns (tfd: int, alive: bool)
      requires Valid() && Truthful() && |list.fds| < maxPending
      modifies this`packetsSent, this`eventCount, this`resultCount, this`results, list, list.entries, kernel`us,
               kernel`open, kernel`ledger, kernel`history
      ensures packetsSent == old(packetsSent) + 1
      ensures kernel.us >= old(kernel.us)
      ensures Answered(old(kernel.history), chosen, old(kernel.us)) && Queued()
      ensures var answer := Answer();
        && alive == Survives(answer)
        && results == old(results) + (if answer.Ready? then [chosen] else [])
        && (alive ==> tfd == if answer.InProgress? then answer.fd as int else -1)
        && (alive && tfd >= 0 ==> Entered(tfd, chosen))
      ensures alive ==> Valid() && Truthful() && kernel.watched == old(kernel.watched)
      ensures alive ==> list.fds == old(list.fds) + if tfd >= 0 then [tfd] else []
      ensures alive ==> kernel.open == old(kernel.open) + if tfd >= 0 then {tfd} else {}
    {
      hide Seen, ListedIn, Patient, Shape, Timely, Pacing, Members;
      var attempt := Attempt(chosen);
      ghost var was, at := list.entries[..], kernel.us;
      ghost var sentAt := kernel.history[|old(kernel.history)|].at;
      var sock := match attempt
        case Refused => -1
        case Broken(_) => -2
        case Ready => 0
        case InProgress(fd) => -(fd as int) - 2;
      if sock >= -2 {
        eventCount := eventCount + 1;
      }
      if sock == -2 {
        return -1, attempt.Broken? && attempt.clash;
      }
      if sock == -1 {
        return -1, true;
      }
      if sock >= 0 {
        QueueResult(chosen.ip, chosen.port);
        return -1, true;
      }
      sock := -sock - 2;
      if sock >= list.size {
        return -1, false;
      }
      AddPending(sock, chosen.ip, chosen.port);
      DeadlinesStay(sentAt, kernel.us);
      ListedMore(was, list.entries[..], old(list.fds), old(SeenSoFar()).open, connectTimeout, sock,
                 Send(chosen, sentAt));
      return sock, true;
    }

    /** The table has this target for the descriptor, and a deadline one connect timeout from now. */
    ghost predicate Entered(fd: int, target: Target)
      reads list, list.entries, kernel`us
    {
      && 0 <= fd < list.entries.Length
      && Target(list.entries[fd].ip, list.entries[fd].port) == target
      && list.entries[fd].timeout == kernel.us / 1000 + connectTimeout
    }

    method AddPending(sock: int, ip: nat, port: int)
      requires 0 <= sock < list.size && Accounts({sock}, 1) && |list.fds| < maxPending
      modifies list, list.entries, kernel`us
      ensures Valid() && list.fds == old(list.fds) + [sock] && kernel.us >= old(kernel.us)
      ensures Entered(sock, Target(ip, port))
      ensures OthersKept(old(list.entries[..]), list.entries[..], sock) && sock !in old(list.fds)
    {
      hide L.Linked, K.Ledger.Balanced, Paced, Members, Sorted;
      var now := kernel.GetMs();
      DeadlinesStay(old(kernel.us), kernel.us);
      MembersIn(list.fds, sock);
      list.InRange();
      ghost var was := list.entries[..];
      list.Add(sock, ip, port, now + connectTimeout);
      AddedMember(old(list.fds), sock);
      forall e | 0 <= e < |was| && e != sock ensures list.entries[e].timeout == was[e].timeout {
        assert list.Payload(e) == (was[e].timeout, was[e].ip, was[e].port);
      }
      assert OthersKept(was, list.entries[..], sock) by {
        forall e | 0 <= e < |was| && e != sock ensures SamePayload(was[e], list.entries[e]) {
          assert list.Payload(e) == (was[e].timeout, was[e].ip, was[e].port);
        }
      }
      AddedLast(was, list.entries[..], old(list.fds), sock);
    }

    lemma AddedLast(was: seq<L.Entry>, entries: seq<L.Entry>, fds: seq<int>, fd: int)
      requires |was| == |entries| && fd !in fds && 0 <= fd < |entries|
      requires forall i :: 0 <= i < |fds| ==> 0 <= fds[i] < |entries|
      requires forall e :: 0 <= e < |was| && e != fd ==> entries[e].timeout == was[e].timeout
      requires Sorted(was, fds) && forall i :: 0 <= i < |fds| ==> Deadline(was, fds[i]) <= entries[fd].timeout
      ensures Sorted(entries, fds + [fd])
      ensures forall i :: 0 <= i < |fds| ==> Deadline(entries, fds[i]) == Deadline(was, fds[i])
    {
    }

    /** Closes a pending probe and takes it out of the list. */
    method Drop(fd: int, ghost i: nat, ghost owed: int) returns (next: int)
      requires Accounts({}, owed) && i < |list.fds| && list.fds[i] == fd
      modifies list, list.entries, kernel`open, kernel`watched, kernel`ledger, kernel`history
      ensures Accounts({}, owed + 1)
      ensures list.fds == L.Without(old(list.fds), i) && next == L.Behind(old(list.fds), i)
      ensures Kept(old(list.entries[..]), list.entries[..])
      ensures kernel.watched == old(kernel.watched) - {fd}
      ensures kernel.history == old(kernel.history) + [K.Closed(fd, kernel.us)]
    {
      hide L.Linked, K.Ledger.Balanced, K.Ledger.Close, Paced, Members, Sorted;
      list.InRange();
      MembersIn(list.fds, fd);
      ghost var was := list.entries[..];
      kernel.Close(fd);
      next := list.Del(fd);
      forall e | 0 <= e < |was| ensures SamePayload(was[e], list.entries[e]) {
        assert list.Payload(e) == (was[e].timeout, was[e].ip, was[e].port);
      }
      MembersWithout(old(list.fds), i);
      DroppedOne(was, list.entries[..], old(list.fds), i);
    }

    lemma DroppedOne(was: seq<L.Entry>, entries: seq<L.Entry>, fds: seq<int>, i: nat)
      requires Kept(was, entries) && i < |fds| && Sorted(was, fds)
      ensures Sorted(entries, L.Without(fds, i))
      ensures forall fd :: Deadline(entries, fd) == Deadline(was, fd)
    {
      var rest := L.Without(fds, i);
      assert forall k :: 0 <= k < |rest| ==> rest[k] == fds[if k < i then k else k + 1];
    }

    lemma AddedMember(fds: seq<int>, fd: int)
      ensures Members(fds + [fd]) == Members(fds) + {fd}
    {
      hide Members;
      forall x ensures x in Members(fds + [fd]) <==> x in Members(fds) + {fd} {
        MembersIn(fds, x);
        MembersIn(fds + [fd], x);
      }
    }

    /** The target of the probe sent after `sent` others: the canary's turn comes once. */
    function Chosen(sent: nat, target: Target): Target {
      if canaryIp != 0 && sent == canaryAfter then Target(canaryIp, canaryPort) else target
    }

    /** Every pending probe is registered for events. */
    ghost predicate Watching()
      reads kernel
    {
      kernel.watched == kernel.open
    }

    lemma Facts()
      requires Valid()
      ensures kernel.Valid() && kernel.open == Members(list.fds)
      ensures list.numSockets == |list.fds| <= maxPending && maxPending >= 1
      ensures Distinct(list.fds) && Sorted(list.entries[..], list.fds)
      ensures list.firstFd == if list.fds == [] then L.NIL else list.fds[0]
      ensures forall i :: 0 <= i < |list.fds| ==> 0 <= list.fds[i] < list.entries.Length
    {
      list.InRange();
    }

    /** One turn of the filling loop: wait for the slot, probe, register the probe for events. */
    method Probe(target: Target) returns (alive: bool, ghost sent: bool)
      requires Valid() && Truthful() && Sending() && Watching() && |list.fds| < maxPending
      modifies this`packetsSent, this`eventCount, this`resultCount, this`results, this`lastPacket, this`stamps,
               this`asked, this`drawn, list, list.entries, kernel
      ensures kernel.us >= old(kernel.us) && kernel.waits == old(kernel.waits)
      ensures SetUp(old(kernel.binds), sent)
      ensures !sent ==> NotSent(old(packetsSent), old(results), old(kernel.history), alive)
      ensures sent ==> packetsSent == old(packetsSent) + 1
      ensures alive ==> Valid() && Truthful() && Sending() && Watching()
      ensures Queued()
      ensures sent ==> Answered(old(kernel.history), Chosen(old(packetsSent), target), old(kernel.us))
      ensures sent ==>
        var answer := Answer();
        && alive == Survives(answer)
        && results == old(results) + if answer.Ready? then [Chosen(old(packetsSent), target)] else []
      ensures if connectInterval > 0 then stamps == old(stamps) + [lastPacket] else stamps == old(stamps)
    {
      hide Seen, Sends, ListedIn, Patient, InSlots, Accounts, SetUp, AimedAt, Entered;
      ghost var past := kernel.history;
      if connectInterval > 0 {
        ghost var _ := CheckConnectInterval();
      }
      var tfd;
      tfd, alive, sent := TryConnect(target);
      if sent {
        SendAdded(past, kernel.history, old(drawn), target);
        drawn := drawn + [target];
        if connectInterval > 0 {
          SlotTaken(old(asked), old(stamps), Sends(past), old(kernel.us), lastPacket, LastSend());
        }
      }
      if alive && tfd >= 0 {
        Register(tfd);
      }
    }

    /** `epoll_ctl` for the probe just sent. */
    method Register(fd: int)
      requires Valid() && fd in kernel.open && kernel.open == kernel.watched + {fd}
      modifies kernel`watched
      ensures Valid() && Watching()
    {
      hide Sorted, Paced, K.Ledger.Balanced, L.Linked, Members;
      kernel.Watch(fd);
    }

    ghost function LastSend(): Send
      requires kernel.history != [] && kernel.history[|kernel.history| - 1].Tried?
      reads kernel`history
    {
      var h := kernel.history[|kernel.history| - 1];
      Send(h.target, h.at)
    }

    /** One more attempt, at the target chosen for it. */
    lemma SendAdded(past: seq<K.Happening>, history: seq<K.Happening>, drawn: seq<Target>, target: Target)
      requires |history| == |past| + 1 && past <= history && history[|past|].Tried?
      requires AimedAt(Sends(past), drawn) && history[|past|].target == Chosen(|Sends(past)|, target)
      ensures AimedAt(Sends(history), drawn + [target])
      ensures var h := history[|past|]; Sends(history) == Sends(past) + [Send(h.target, h.at)]
    {
      hide Sends;
      assert history == past + [history[|past|]];
      SeenMore(past, history[|past|], Canary());
    }

    /** With pacing, one stamp for every probe sent; a process that ends may have stamped one it could not send. */
    ghost predicate Stamped(since: int, sent: int, alive: bool)
      reads this
    {
      connectInterval > 0 ==>
        var stamped, probes := |stamps| - since, packetsSent - sent;
        stamped == probes || (!alive && stamped == probes + 1)
    }

    /** Sends probes until the table is full; follows the run for at most `budget` attempts. */
    method Fill(budget: nat) returns (left: nat, alive: bool)
      requires Valid() && Truthful() && Sending() && Watching()
      modifies this`packetsSent, this`eventCount, this`resultCount, this`results, this`lastPacket, this`stamps,
               this`asked, this`drawn, list, list.entries, kernel
      ensures kernel.us >= old(kernel.us) && kernel.waits == old(kernel.waits)
      ensures left <= budget && (alive ==> packetsSent == old(packetsSent) + (budget - left))
      ensures Queued()
      ensures alive ==> Valid() && Truthful() && Sending() && Watching() && (|list.fds| == maxPending || left == 0)
      ensures old(stamps) <= stamps && old(results) <= results
      ensures Stamped(|old(stamps)|, old(packetsSent), alive)
    {
      hide Accounts, Watching, SetUp, Queued, Listed, Waited, Aimed, Slotted;
      left, alive := budget, true;
      while alive && left > 0 && list.numSockets < maxPending
        invariant left <= budget && (alive ==> packetsSent == old(packetsSent) + (budget - left))
        invariant Queued() && (alive ==> Valid() && Truthful() && Sending() && Watching())
        invariant kernel.us >= old(kernel.us) && kernel.waits == old(kernel.waits)
        invariant old(stamps) <= stamps && old(results) <= results
        invariant Stamped(|old(stamps)|, old(packetsSent), alive)
      {
        Facts();
        var ip: nat :| ip >= 0;
        var port: int := *;
        ghost var sent;
        alive, sent := Probe(Target(ip, port));
        left := left - 1;
      }
      if alive {
        Facts();
      }
    }

    /** How long to wait for events: until the earliest deadline of all, and never longer than the connect
        timeout. */
    method WaitTime() returns (now: nat, timeout: nat)
      requires Valid() && list.fds != []
      modifies kernel`us
      ensures Valid() && now == kernel.us / 1000 && kernel.us >= old(kernel.us)
      ensures timeout <= connectTimeout
      ensures forall fd :: fd in list.fds ==> Deadline(list.entries[..], fd) >= now + timeout || timeout == 0
      ensures exists fd ::
        fd in list.fds
        && timeout == if Deadline(list.entries[..], fd) > now then Deadline(list.entries[..], fd) - now else 0
    {
      hide Paced, K.Ledger.Balanced, L.Linked, Members;
      list.InRange();
      now := kernel.GetMs();
      DeadlinesStay(old(kernel.us), kernel.us);
      timeout := 0;
      var first := list.firstFd;
      assert first == list.fds[0];
      if list.entries[first].timeout > now {
        timeout := list.entries[first].timeout - now;
      }
      assert Deadline(list.entries[..], first) == list.entries[first].timeout;
      forall fd | fd in list.fds ensures Deadline(list.entries[..], fd) >= Deadline(list.entries[..], first) {
        var i :| 0 <= i < |list.fds| && list.fds[i] == fd;
      }
    }

    /** Counts an event and queues its probe if that is open; the probe is not closed yet. */
    method CountEvent(e: K.Event)
      requires Valid() && 0 <= e.fd < list.entries.Length
      modifies this`eventCount, this`resultCount, this`results
      ensures Accounts({}, -1)
      ensures eventCount == old(eventCount) + 1
      ensures results == old(results) + Reported([e], list.entries[..], canaryIp, canaryPort)
    {
      hide Sorted, Paced, K.Ledger.Balanced, L.Linked, Members, Reported;
      ReportedOne(e, list.entries[..], canaryIp, canaryPort);
      var ok := e.writable && !e.failed;
      if canaryIp != 0 && list.entries[e.fd].ip == canaryIp && list.entries[e.fd].port == canaryPort {
        // the canary only logs a failure
      } else if ok {
        QueueResult(list.entries[e.fd].ip, list.entries[e.fd].port);
      }
      eventCount := eventCount + 1;
    }

    /** Closes the probe an event came for, and queues it if it is open. */
    method ReapEvent(e: K.Event, ghost i: nat)
      requires Valid() && i < |list.fds| && list.fds[i] == e.fd
      modifies this`eventCount, this`resultCount, this`results, list, list.entries,
               kernel`open, kernel`watched, kernel`ledger, kernel`history
      ensures Valid() && (old(Watching()) ==> Watching())
      ensures list.fds == L.Without(old(list.fds), i)
      ensures Kept(old(list.entries[..]), list.entries[..])
      ensures eventCount == old(eventCount) + 1
      ensures kernel.history == old(kernel.history) + [K.Closed(e.fd, kernel.us)]
      ensures results == old(results) + Reported([e], old(list.entries[..]), canaryIp, canaryPort)
    {
      hide Accounts, K.Ledger.Balanced, L.Linked, Members, Reported, SamePayload;
      Facts();
      CountEvent(e);
      var _ := Drop(e.fd, i, -1);
      Facts();
      MembersWithout(old(list.fds), i);
    }

    /** Closes every probe an event came for, and queues those that are open. */
    method ReapEvents(events: seq<K.Event>)
      requires Valid() && K.Proper(events, kernel.open) && Waited()
      requires forall i :: 0 <= i < |events| ==> events[i].fd !in SeenSoFar().open
      modifies this`eventCount, this`resultCount, this`results, list, list.entries,
               kernel`open, kernel`watched, kernel`ledger, kernel`history
      ensures Valid() && (old(Watching()) ==> Watching())
      ensures list.fds == Except(old(list.fds), EventFds(events))
      ensures results == old(results) + Reported(events, old(list.entries[..]), canaryIp, canaryPort)
      ensures eventCount == old(eventCount) + |events|
      ensures Kept(old(list.entries[..]), list.entries[..])
      ensures SeenSoFar() == old(SeenSoFar()) && Sends(kernel.history) == old(Sends(kernel.history)) && Waited()
    {
      hide Accounts, Watching, Reported, L.Linked, Members, Seen, Sends, Patient;
      Facts();
      ghost var was, fds := list.entries[..], list.fds;
      var n := 0;
      ExceptNone(fds);
      assert EventFds(events[..0]) == {};
      NoneReported(was, canaryIp, canaryPort);
      while n < |events|
        invariant 0 <= n <= |events|
        invariant Valid() && (old(Watching()) ==> Watching())
        invariant Kept(was, list.entries[..])
        invariant list.fds == Except(fds, EventFds(events[..n]))
        invariant results == old(results) + Reported(events[..n], was, canaryIp, canaryPort)
        invariant eventCount == old(eventCount) + n
        invariant SeenSoFar() == old(SeenSoFar()) && Sends(kernel.history) == old(Sends(kernel.history)) && Waited()
      {
        var e := events[n];
        StillListed(fds, events, n);
        ghost var i :| 0 <= i < |list.fds| && list.fds[i] == e.fd;
        ghost var here := list.entries[..];
        ghost var past := kernel.history;
        ReapEvent(e, i);
        ClosedAfterReport(past, e.fd, kernel.us, Canary(), connectTimeout);
        ExceptOne(fds, EventFds(events[..n]), i);
        ReportedSame([e], was, here, canaryIp, canaryPort);
        ReportedNext(events, n, was, canaryIp, canaryPort);
        KeptOn(was, here, list.entries[..]);
        n := n + 1;
      }
      assert events[..|events|] == events;
    }

    /** Closes the first probe of the list as timed out. */
    method ExpireFirst() returns (next: int)
      requires Valid() && list.fds != [] && Waited() && Listed(SeenSoFar().open)
      requires Deadline(list.entries[..], list.firstFd) <= kernel.us / 1000
      modifies this`timedOut, list, list.entries, kernel`open, kernel`watched, kernel`ledger, kernel`history
      ensures Valid() && (old(Watching()) ==> Watching())
      ensures list.fds == old(list.fds)[1..] && next == list.firstFd && timedOut == old(timedOut) + 1
      ensures Kept(old(list.entries[..]), list.entries[..])
      ensures GaveUp(old(kernel.history))
    {
      hide Sorted, Paced, K.Ledger.Balanced, K.Ledger.Close, L.Linked, Members, Seen, Sends, Patient;
      list.InRange();
      ghost var fd, was := list.firstFd, list.entries[..];
      ghost var open := SeenSoFar().open;
      assert fd == list.fds[0];
      timedOut := timedOut + 1;
      next := Drop(list.firstFd, 0, -1);
      MembersWithout(old(list.fds), 0);
      SeenMore(old(kernel.history), K.Closed(fd, kernel.us), Canary());
      PatientMore(old(kernel.history), K.Closed(fd, kernel.us), Canary(), connectTimeout);
      RestListed(was, list.entries[..], old(list.fds), open, connectTimeout);
    }

    /** Since `history` probes have been given up in time; nothing was found or sent. */
    ghost predicate GaveUp(history: seq<K.Happening>)
      reads this, kernel`history, list, list.entries
    {
      && Waited() && Listed(SeenSoFar().open) && SeenSoFar().found == Seen(history, Canary()).found
      && Sends(kernel.history) == Sends(history)
    }

    /** Closes the probes at the front of the list whose time is up: on a sorted list, all of those and no other. */
    method ReapExpired() returns (now: nat)
      requires Valid() && Waited() && Listed(SeenSoFar().open)
      modifies this`timedOut, list, list.entries, kernel`us, kernel`open, kernel`watched, kernel`ledger, kernel`history
      ensures Valid() && (old(Watching()) ==> Watching())
      ensures now == kernel.us / 1000 && kernel.us >= old(kernel.us)
      ensures list.fds == Later(old(list.entries[..]), old(list.fds), now)
      ensures timedOut == old(timedOut) + |old(list.fds)| - |list.fds|
      ensures Kept(old(list.entries[..]), list.entries[..])
      ensures forall fd :: fd in list.fds ==> Deadline(list.entries[..], fd) > now
      ensures GaveUp(old(kernel.history))
    {
      hide Accounts, Watching, Later, Sorted, L.Linked, Seen, Sends, ListedIn, Patient;
      now := Now();
      Facts();
      ghost var was, fds, k := list.entries[..], list.fds, 0;
      var fd := list.firstFd;
      while fd != L.NIL && list.entries[fd].timeout <= now
        invariant Valid() && (old(Watching()) ==> Watching())
        invariant now == kernel.us / 1000 && kernel.us >= old(kernel.us)
        invariant k <= |fds| && list.fds == fds[k..] && fd == list.firstFd
        invariant fd == if k < |fds| then fds[k] else L.NIL
        invariant k < |fds| ==> 0 <= fd < list.entries.Length
        invariant timedOut == old(timedOut) + k
        invariant Kept(was, list.entries[..])
        invariant forall i :: 0 <= i < k ==> Deadline(was, fds[i]) <= now
        invariant GaveUp(old(kernel.history))
        decreases |fds| - k
      {
        ghost var here := list.entries[..];
        assert Deadline(here, fd) == Deadline(was, fd) == list.entries[fd].timeout;
        fd := ExpireFirst();
        Facts();
        KeptOn(was, here, list.entries[..]);
        k := k + 1;
      }
      assert k < |fds| ==> Deadline(list.entries[..], fds[k]) == list.entries[fd].timeout;
      RestLater(was, list.entries[..], fds, k, now);
    }

    method Now() returns (now: nat)
      requires Valid()
      modifies kernel`us
      ensures Valid() && (old(Watching()) ==> Watching())
      ensures now == kernel.us / 1000 && kernel.us >= old(kernel.us)
    {
      hide Paced, K.Ledger.Balanced, L.Linked, Members, Sorted;
      now := kernel.GetMs();
      DeadlinesStay(old(kernel.us), kernel.us);
    }

    method Wait(timeout: nat) returns (events: seq<K.Event>)
      requires Valid()
      modifies kernel`us, kernel`history, kernel`waits
      ensures Valid() && K.Proper(events, kernel.watched) && kernel.us >= old(kernel.us)
      ensures kernel.history == old(kernel.history) + K.Tell(events)
      ensures kernel.waits == old(kernel.waits) + [K.Wait(old(kernel.us), maxPending, timeout, kernel.watched)]
    {
      hide Paced, K.Ledger.Balanced, L.Linked, Members, Sorted;
      events := kernel.EpollWait(maxPending, timeout);
      DeadlinesStay(old(kernel.us), kernel.us);
    }

    /** A wait for as many events as there may be probes, from `now` until the earliest deadline of all probes watched,
        and not at all when that is past. */
    ghost predicate UntilFirst(w: K.Wait, entries: seq<L.Entry>, now: nat) {
      && w.limit == maxPending && w.timeout <= connectTimeout && now <= w.at / 1000
      && (forall fd :: fd in w.watched ==> Deadline(entries, fd) >= now + w.timeout || w.timeout == 0)
      && (exists fd ::
            fd in w.watched && w.timeout == if Deadline(entries, fd) > now then Deadline(entries, fd) - now else 0)
    }

    /** The wait of a round: its length is taken from the table. */
    method Await() returns (events: seq<K.Event>, ghost now: nat)
      requires Valid() && Watching() && list.fds != []
      modifies kernel`us, kernel`history, kernel`waits
      ensures Valid() && Watching() && K.Proper(events, kernel.watched) && kernel.us >= old(kernel.us)
      ensures kernel.history == old(kernel.history) + K.Tell(events)
      ensures old(kernel.us) / 1000 <= now
      ensures |kernel.waits| == |old(kernel.waits)| + 1 && old(kernel.waits) <= kernel.waits
      ensures UntilFirst(kernel.waits[|old(kernel.waits)|], list.entries[..], now)
    {
      hide Accounts, L.Linked, K.Ledger.Balanced, Members, Sorted;
      var clock, timeout := WaitTime();
      now := clock;
      DeadlinesStay(old(kernel.us), kernel.us);
      Facts();
      forall fd ensures fd in kernel.watched <==> fd in list.fds {
        MembersIn(list.fds, fd);
      }
      events := Wait(timeout);
    }

    /** The scanning thread, until it is told to stop, gives up, or `budget` is used up. Whatever the kernel
        answers, the books balance whenever it can be looked at between rounds. */
    method ConnThread(budget: nat) returns (alive: bool)
      requires Valid() && Truthful() && Sending() && Watching()
      modifies this, list, list.entries, kernel
      ensures alive ==> Valid() && Truthful() && Sending() && Watching()
      ensures results == Seen(kernel.history, Canary()).found
      ensures alive ==> packetsSent == eventCount + |list.fds| + timedOut && |list.fds| <= maxPending
      ensures alive ==> kernel.ledger.born == |list.fds| + |kernel.ledger.ended|
      ensures old(stamps) <= stamps && old(results) <= results
      ensures Stamped(|old(stamps)|, old(packetsSent), alive)
    {
      hide Accounts, Watching, Listed, Waited, Aimed, Slotted, Seen;
      var left, done := budget, false;
      alive := true;
      while alive && !done && left > 0
        invariant Queued() && (alive ==> Valid() && Truthful() && Sending() && Watching())
        invariant old(stamps) <= stamps && old(results) <= results
        invariant Stamped(|old(stamps)|, old(packetsSent), alive)
      {
        var full;
        left, alive, full := Round(left);
        done := *;
      }
      if alive {
        Conserved();
      }
    }

    /** A scan from its start to its end: the scanning thread, and then the poison pill for the worker. The modules
        run on exactly what the scan found, if none of it has address 0. */
    method Scan(budget: nat) returns (alive: bool, ghost found: seq<Target>)
      requires Valid() && Truthful() && Sending() && Watching() && results == []
      modifies this, list, list.entries, kernel
      ensures alive ==> found == Seen(kernel.history, Canary()).found
      ensures alive ==> results == Script(found) && RunsModulesOn(results, found)
    {
      hide Accounts, Watching, RunsModulesOn, Stamped, Listed, Waited, Aimed, Slotted, Seen;
      alive := ConnThread(budget);
      found := results;
      if alive {
        QueueResult(0, 0);
        QueuedDelivers(found);
      }
    }

    /** Between rounds: every probe sent was answered, timed out or is pending; every attempt left in progress is
        in the list exactly once or was closed exactly once; and the sends were paced: one n sends after another is made
        at least n intervals after the clock by which the other's slot was asked for. */
    lemma Conserved()
      requires Valid() && Sending()
      ensures packetsSent == eventCount + |list.fds| + timedOut
      ensures |list.fds| <= maxPending
      ensures kernel.ledger.Balanced() && Members(list.fds) == kernel.ledger.pending.Keys
      ensures kernel.ledger.born == |list.fds| + |kernel.ledger.ended|
      ensures forall i, j :: 0 <= i <= j < |stamps| ==> stamps[i] + (j - i) * connectInterval <= stamps[j] <= kernel.us
      ensures var sends := Sends(kernel.history);
        connectInterval > 0 ==>
          |asked| == |sends|
          && forall i, j :: 0 <= i <= j < |sends| ==> asked[i] + (j - i) * connectInterval <= sends[j].at
    {
      hide Members, Paced, L.Linked, Sorted, Sends;
      list.InRange();
      MembersCount(list.fds);
      assert |kernel.ledger.pending| == |kernel.ledger.pending.Keys|;
      PacedWithin(stamps, connectInterval, kernel.us);
      if connectInterval > 0 {
        AllApart(asked, stamps, Sends(kernel.history), connectInterval);
      }
    }

    /** Reaps the events just delivered and what has timed out. */
    method Reap(events: seq<K.Event>, ghost past: seq<K.Happening>) returns (now: nat)
      requires Valid() && Watching() && K.Proper(events, kernel.watched)
      requires kernel.history == past + K.Tell(events)
      requires results == Seen(past, Canary()).found && Listed(Seen(past, Canary()).open)
      requires Patient(past, Canary(), connectTimeout)
      modifies this`timedOut, this`eventCount, this`resultCount, this`results, list, list.entries,
               kernel`us, kernel`open, kernel`watched, kernel`ledger, kernel`history
      ensures Valid() && Truthful() && Watching() && old(results) <= results
      ensures now == kernel.us / 1000 && forall fd :: fd in list.fds ==> Deadline(list.entries[..], fd) > now
      ensures Sends(kernel.history) == Sends(past) && Kept(old(list.entries[..]), list.entries[..])
    {
      hide Accounts, Later, Reported, K.Ledger.Balanced, L.Linked, Members, Except, Sorted, Seen, Sends, Patient,
        ListedIn, Kept;
      Facts();
      ghost var was, fds := list.entries[..], list.fds;
      TellSeen(past, events, was, fds, connectTimeout, canaryIp, canaryPort);
      TellSends(past, events, Canary(), connectTimeout);
      ghost var open, gone := Seen(past, Canary()).open, EventFds(events);
      assert forall i :: 0 <= i < |events| ==> events[i].fd in gone;
      ReapEvents(events);
      ghost var between := list.entries[..];
      StillOpen(was, between, fds, gone, connectTimeout, open);
      now := ReapExpired();
      KeptOn(was, between, list.entries[..]);
    }

    /** One round of the scan: fill, wait, reap events, reap what has timed out. `full` says that the round went
        through, with `budget` left to fill the table; nothing is then pending whose time is up. */
    method Round(budget: nat) returns (left: nat, alive: bool, full: bool)
      requires Valid() && Truthful() && Sending() && Watching() && budget > 0
      modifies this, list, list.entries, kernel
      ensures left < budget && (alive && !full ==> left == 0)
      ensures Queued()
      ensures alive ==> Valid() && Truthful() && Sending() && Watching()
      ensures alive && full ==> forall fd :: fd in list.fds ==> Deadline(list.entries[..], fd) > kernel.us / 1000
      ensures alive && full ==>
        && |kernel.waits| == |old(kernel.waits)| + 1 && old(kernel.waits) <= kernel.waits
        && exists clock :: old(kernel.us) / 1000 <= clock
             && UntilFirst(kernel.waits[|old(kernel.waits)|], list.entries[..], clock)
      ensures old(stamps) <= stamps && old(results) <= results
      ensures Stamped(|old(stamps)|, old(packetsSent), alive)
    {
      hide Accounts, Later, Reported, K.Ledger.Balanced, L.Linked, Members, Except, Sorted, Seen, Sends, ListedIn,
        Patient, InSlots, UntilFirst, Kept;
      full := false;
      left, alive := Fill(budget);
      if !alive {
        left := if left == budget then left - 1 else left;
        return;
      }
      Facts();
      if list.numSockets < maxPending {
        return;
      }
      full := true;
      ghost var past := kernel.history;
      DeadlinesStay(old(kernel.us), kernel.us);
      var events;
      ghost var clock;
      events, clock := Await();
      ghost var was := list.entries[..];
      var now := Reap(events, past);
      SameWait(kernel.waits[|old(kernel.waits)|], was, list.entries[..], clock);
      left := if left == budget then left - 1 else left;
    }

    lemma SameWait(w: K.Wait, was: seq<L.Entry>, entries: seq<L.Entry>, now: nat)
      requires UntilFirst(w, was, now) && Kept(was, entries)
      ensures UntilFirst(w, entries, now)
    {
      forall fd ensures Deadline(entries, fd) == Deadline(was, fd) {
        if 0 <= fd < |was| {
          assert SamePayload(was[fd], entries[fd]);
        }
      }
    }
  }

  lemma RestListed(was: seq<L.Entry>, now: seq<L.Entry>, fds: seq<int>, open: map<int, Send>, timeout: nat)
    requires ListedIn(was, fds, open, timeout) && Kept(was, now) && fds != [] && Distinct(fds)
    ensures ListedIn(now, fds[1..], open - {fds[0]}, timeout)
  {
    ListedLess(was, now, fds, fds[1..], open, open - {fds[0]}, timeout);
  }

  /** The descriptors left by the events are still listed, and no event has come for them. */
  lemma StillOpen(was: seq<L.Entry>, entries: seq<L.Entry>, fds: seq<int>, gone: set<int>, timeout: nat,
                  open: map<int, Send>)
    requires ListedIn(was, fds, open, timeout) && Kept(was, entries)
    ensures ListedIn(entries, Except(fds, gone), open - gone, timeout)
  {
    var rest := Except(fds, gone);
    forall fd | fd in rest ensures fd in fds && fd in open - gone {
      ExceptMembers(fds, gone, fd);
      var k :| 0 <= k < |fds| && fds[k] == fd;
      assert fds[k] in open;
    }
    ListedLess(was, entries, fds, rest, open, open - gone, timeout);
  }

  /** The events report what the list says about their descriptors. */
  lemma {:induction false} TellSeen(past: seq<K.Happening>, events: seq<K.Event>, entries: seq<L.Entry>, fds: seq<int>,
                                    timeout: nat, canaryIp: nat, canaryPort: int)
    requires ListedIn(entries, fds, Seen(past, Target(canaryIp, canaryPort)).open, timeout)
    requires K.Proper(events, Members(fds))
    ensures var before, after := Seen(past, Target(canaryIp, canaryPort)),
                                 Seen(past + K.Tell(events), Target(canaryIp, canaryPort));
      && after.found == before.found + Reported(events, entries, canaryIp, canaryPort)
      && after.open == before.open - EventFds(events)
    decreases |events|
  {
    hide Seen, Members;
    var canary := Target(canaryIp, canaryPort);
    var before := Seen(past, canary);
    if events == [] {
      assert past + K.Tell(events) == past;
      assert EventFds(events) == {};
      assert before.found + [] == before.found;
    } else {
      var n := |events| - 1;
      var e, rest := events[n], events[..n];
      TellSeen(past, rest, entries, fds, timeout, canaryIp, canaryPort);
      assert past + K.Tell(events) == (past + K.Tell(rest)) + [K.Told(e)];
      SeenMore(past + K.Tell(rest), K.Told(e), canary);
      ReportedNext(events, n, entries, canaryIp, canaryPort);
      assert events[..n + 1] == events;
      MembersIn(fds, e.fd);
      var k :| 0 <= k < |fds| && fds[k] == e.fd;
      assert e.fd in before.open && e.fd !in EventFds(rest);
      ReportedOne(e, entries, canaryIp, canaryPort);
      Assoc(before.found, Reported(rest, entries, canaryIp, canaryPort), Reported([e], entries, canaryIp, canaryPort));
    }
  }

  /** Whenever a scanner that queues `script` and its worker have come to rest, the modules have run on what was
      found up to the first address 0, in order and once each, and the worker has stopped. */
  ghost predicate RunsModulesOn(script: seq<Target>, found: seq<Target>) {
    forall init, scripts, acts, s ::
      Init<Target>(init, scripts) && ScannerAndWorker(init) && SCANNER in scripts && scripts[SCANNER] == script
      && Runs(IsPill, init, acts, s) && AtRest(s)
      ==>
        && ScannerAndWorker(s) && s.threads[WORKER].pc == Finished
        && Executed(s.threads[WORKER].seen) == BeforeZero(found)
        && (Executed(s.threads[WORKER].seen) == found <==> forall i :: 0 <= i < |found| ==> found[i].ip != 0)
  }

  lemma QueuedDelivers(found: seq<Target>)
    ensures RunsModulesOn(Script(found), found)
  {
    hide Runs, AtRest, Init, BeforeZero, Executed;
    forall init, scripts, acts, s |
      Init<Target>(init, scripts) && ScannerAndWorker(init) && SCANNER in scripts && scripts[SCANNER] == Script(found)
      && Runs(IsPill, init, acts, s) && AtRest(s)
      ensures ScannerAndWorker(s) && s.threads[WORKER].pc == Finished
      ensures Executed(s.threads[WORKER].seen) == BeforeZero(found)
      ensures Executed(s.threads[WORKER].seen) == found <==> forall i :: 0 <= i < |found| ==> found[i].ip != 0
    {
      ResultsExecuted(found, init, acts, s, scripts);
    }
  }

  lemma RestLater(was: seq<L.Entry>, now_: seq<L.Entry>, fds: seq<int>, k: nat, now: nat)
    requires Kept(was, now_) && Sorted(was, fds) && k <= |fds|
    requires forall i :: 0 <= i < k ==> Deadline(was, fds[i]) <= now
    requires k < |fds| ==> Deadline(now_, fds[k]) > now
    ensures fds[k..] == Later(was, fds, now)
    ensures forall fd :: fd in fds[k..] ==> Deadline(now_, fd) > now
  {
    LaterSplit(was, fds, k, now);
  }

  function EventFds(events: seq<K.Event>): set<int> { set i | 0 <= i < |events| :: events[i].fd }

  lemma NoneReported(entries: seq<L.Entry>, canaryIp: nat, canaryPort: int)
    ensures Reported([], entries, canaryIp, canaryPort) == []
  {
  }

  lemma ReportedOne(e: K.Event, entries: seq<L.Entry>, canaryIp: nat, canaryPort: int)
    requires 0 <= e.fd < |entries|
    ensures Reported([e], entries, canaryIp, canaryPort)
      == if e.writable && !e.failed && !IsCanary(entries[e.fd], canaryIp, canaryPort)
         then [Target(entries[e.fd].ip, entries[e.fd].port)] else []
  {
    assert [e][..0] == [];
  }

  lemma {:induction false} ReportedSame(events: seq<K.Event>, was: seq<L.Entry>, now: seq<L.Entry>,
                                        canaryIp: nat, canaryPort: int)
    requires Kept(was, now)
    ensures Reported(events, was, canaryIp, canaryPort) == Reported(events, now, canaryIp, canaryPort)
  {
    if events != [] {
      ReportedSame(events[..|events| - 1], was, now, canaryIp, canaryPort);
    }
  }

  /** The next event: its descriptor joins those gone, its report those made. */
  lemma ReportedNext(events: seq<K.Event>, n: nat, entries: seq<L.Entry>, canaryIp: nat, canaryPort: int)
    requires n < |events|
    ensures EventFds(events[..n + 1]) == EventFds(events[..n]) + {events[n].fd}
    ensures Reported(events[..n + 1], entries, canaryIp, canaryPort)
      == Reported(events[..n], entries, canaryIp, canaryPort) + Reported([events[n]], entries, canaryIp, canaryPort)
  {
    var upTo := events[..n + 1];
    assert upTo[..n] == events[..n] && upTo[n] == events[n];
    assert [events[n]][..0] == [];
    forall fd | fd in EventFds(events[..n]) + {events[n].fd} ensures fd in EventFds(upTo) {
      if fd in EventFds(events[..n]) {
        var i :| 0 <= i < n && events[i].fd == fd;
        assert upTo[i].fd == fd;
      }
    }
  }

  lemma KeptOn(a: seq<L.Entry>, b: seq<L.Entry>, c: seq<L.Entry>)
    requires Kept(a, b) && Kept(b, c)
    ensures Kept(a, c)
  {
  }

  /** A descriptor with an event still to handle is still in the list. */
  lemma StillListed(fds: seq<int>, events: seq<K.Event>, n: nat)
    requires K.Proper(events, Members(fds)) && n < |events|
    ensures events[n].fd in Except(fds, EventFds(events[..n]))
  {
    MembersIn(fds, events[n].fd);
    ExceptMembers(fds, EventFds(events[..n]), events[n].fd);
  }
}
