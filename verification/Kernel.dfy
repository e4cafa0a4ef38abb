/** The operating system as the scanner sees it: a clock that never goes back, sockets it hands out, readiness
    events, and a ledger of every connection attempt left in progress. Its answers are arbitrary within that. */
module Kernel {
  import opened Results

  datatype Event = Event(fd: int, writable: bool, failed: bool)

  /** What `socket4_try_connect` says: refused, broken (`clash` when the address was in use), connected at once,
      or in progress. */
  datatype Attempt = Refused | Broken(clash: bool) | Ready | InProgress(fd: nat)

  /** A connection attempt and its answer, an event delivered, or a descriptor closed; `at` is the clock. */
  datatype Happening = Tried(target: Target, answer: Attempt, at: nat) | Told(e: Event) | Closed(fd: int, at: nat)

  /** How long the scanner asked to sleep, in microseconds, and when. */
  datatype Nap = Nap(at: nat, length: nat)

  /** A wait for events: the clock when it began, how many events and milliseconds at most, and the descriptors. */
  datatype Wait = Wait(at: nat, limit: nat, timeout: nat, watched: set<int>)

  /** Events in the order they are delivered. */
  function Tell(events: seq<Event>): (r: seq<Happening>)
    ensures |r| == |events| && forall i :: 0 <= i < |r| ==> r[i] == Told(events[i])
  {
    seq(|events|, i requires 0 <= i < |events| => Told(events[i]))
  }

  /** What `bind` says. */
  datatype Binding = Bound | InUse | BindFailed

  /** Attempts in progress are numbered as they are made. `pending` holds the number for each open descriptor,
      `ended` those closed, in order. */
  datatype Ledger = Ledger(born: nat, pending: map<int, nat>, ended: seq<nat>) {
    /** Every attempt is either pending under one descriptor or was closed once, never both. */
    ghost predicate Balanced() {
      && (forall fd :: fd in pending ==> pending[fd] < born && pending[fd] !in ended)
      && (forall fd, fd' :: fd in pending && fd' in pending && fd != fd' ==> pending[fd] != pending[fd'])
      && (forall i, j :: 0 <= i < j < |ended| ==> ended[i] != ended[j])
      && (forall n :: n in ended ==> n < born)
      && |pending| + |ended| == born
    }

    function Open(fd: int): Ledger {
      Ledger(born + 1, pending[fd := born], ended)
    }

    function Close(fd: int): Ledger
      requires fd in pending
    {
      Ledger(born, pending - {fd}, ended + [pending[fd]])
    }
  }

  lemma OpenBalanced(l: Ledger, fd: int)
    requires l.Balanced() && fd !in l.pending
    ensures l.Open(fd).Balanced()
  {
  }

  lemma CloseBalanced(l: Ledger, fd: int)
    requires l.Balanced() && fd in l.pending
    ensures l.Close(fd).Balanced()
  {
    var l' := l.Close(fd);
    assert l'.pending.Keys == l.pending.Keys - {fd};
    assert |l'.pending| == |l'.pending.Keys| && |l.pending| == |l.pending.Keys|;
  }

  class Kernel {
    var us: nat
    var open: set<int>     // descriptors of attempts in progress
    var watched: set<int>  // those registered for events
    ghost var ledger: Ledger
    ghost var history: seq<Happening>  // every attempt, event and closing so far
    ghost var naps: seq<Nap>
    ghost var waits: seq<Wait>
    ghost var sockets: seq<bool>  // whether each `socket` gave one
    ghost var binds: seq<(int, Binding)>  // every port asked for, and the answer

    ghost predicate Valid()
      reads this`ledger, this`open, this`watched
    {
      ledger.Balanced() && open == ledger.pending.Keys && watched <= open
    }

    constructor ()
      ensures Valid() && open == {} && ledger == Ledger(0, map[], []) && history == []
    {
      var start: nat :| start >= 0;
      us, open, watched, ledger, history := start, {}, {}, Ledger(0, map[], []), [];
      sockets, binds, naps, waits := [], [], [], [];
    }

    /** The monotonic clock, in microseconds. */
    method GetUs() returns (now: nat)
      modifies this`us
      ensures now == us && us >= old(us)
    {
      var passed: nat :| passed >= 0;
      us := us + passed;
      now := us;
    }

    method GetMs() returns (now: nat)
      modifies this`us
      ensures now == us / 1000 && us >= old(us)
    {
      var passed: nat :| passed >= 0;
      us := us + passed;
      now := us / 1000;
    }

    /** Sleeps at least as long as asked. */
    method USleep(d: nat)
      modifies this`us, this`naps
      ensures us >= old(us) + d && naps == old(naps) + [Nap(old(us), d)]
    {
      naps := naps + [Nap(us, d)];
      var more: nat :| more >= 0;
      us := us + d + more;
    }

    /** `socket`. */
    method Socket() returns (ok: bool)
      modifies this`sockets
      ensures sockets == old(sockets) + [ok]
    {
      ok := *;
      sockets := sockets + [ok];
    }

    /** `bind` to a port. */
    method Bind(port: int) returns (b: Binding)
      modifies this`binds
      ensures binds == old(binds) + [(port, b)]
    {
      b := *;
      binds := binds + [(port, b)];
    }

    /** A connection attempt. One in progress gets a descriptor that no other pending attempt has. */
    method Connect(target: Target) returns (a: Attempt)
      requires Valid()
      modifies this`us, this`open, this`ledger, this`history
      ensures Valid() && us >= old(us) && history == old(history) + [Tried(target, a, us)]
      ensures a.InProgress? ==> a.fd !in old(open) && open == old(open) + {a.fd as int}
      ensures a.InProgress? ==> ledger == old(ledger).Open(a.fd)
      ensures !a.InProgress? ==> open == old(open) && ledger == old(ledger)
    {
      var passed: nat :| passed >= 0;
      us := us + passed;
      a := *;
      if a.InProgress? && a.fd in open {
        a := Refused;
      } else if a.InProgress? {
        OpenBalanced(ledger, a.fd);
        open := open + {a.fd as int};
        ledger := ledger.Open(a.fd);
      }
      history := history + [Tried(target, a, us)];
    }

    /** `epoll_ctl` with EPOLL_CTL_ADD. */
    method Watch(fd: int)
      requires Valid() && fd in open
      modifies this`watched
      ensures Valid() && watched == old(watched) + {fd}
    {
      watched := watched + {fd};
    }

    /** Closing an attempt in progress also takes it off the watch list. */
    method Close(fd: int)
      requires Valid() && fd in open
      modifies this`open, this`watched, this`ledger, this`history
      ensures Valid() && open == old(open) - {fd} && watched == old(watched) - {fd}
      ensures ledger == old(ledger).Close(fd) && history == old(history) + [Closed(fd, us)]
    {
      CloseBalanced(ledger, fd);
      open, watched := open - {fd}, watched - {fd};
      ledger := ledger.Close(fd);
      history := history + [Closed(fd, us)];
    }

    /** Up to `limit` events, for distinct watched descriptors, within `timeout` milliseconds or later. An
        interrupted wait reports none. */
    method EpollWait(limit: nat, timeout: nat) returns (events: seq<Event>)
      modifies this`us, this`history, this`waits
      ensures us >= old(us) && history == old(history) + Tell(events)
      ensures waits == old(waits) + [Wait(old(us), limit, timeout, watched)]
      ensures |events| <= limit && Proper(events, watched)
    {
      waits := waits + [Wait(us, limit, timeout, watched)];
      var passed: nat :| passed >= 0;
      us := us + passed;
      events := *;
      if |events| > limit || !Proper(events, watched) {
        events := [];
      }
      history := history + Tell(events);
    }
  }

  predicate Proper(events: seq<Event>, watched: set<int>) {
    && (forall i :: 0 <= i < |events| ==> events[i].fd in watched)
    && (forall i, j :: 0 <= i < j < |events| ==> events[i].fd != events[j].fd)
  }
}
