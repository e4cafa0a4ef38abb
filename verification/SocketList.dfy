/** Pending sockets: a doubly linked list threaded through an array indexed by file descriptor, so that any
    descriptor is found and removed at once and the whole is walked in the order it was added. */
module SocketList {
  import opened Sequences

  datatype Entry = Entry(prev: int, next: int, timeout: nat, ip: nat, port: int)

  /** No descriptor. */
  const NIL := -1

  /** The descriptor before or behind place `i`. */
  function Before(fds: seq<int>, i: nat): int
    requires i < |fds|
  {
    if i == 0 then NIL else fds[i - 1]
  }

  function Behind(fds: seq<int>, i: nat): int
    requires i < |fds|
  {
    if i == |fds| - 1 then NIL else fds[i + 1]
  }

  function Without<T>(s: seq<T>, i: nat): seq<T>
    requires i < |s|
  {
    s[..i] + s[i + 1..]
  }

  /** The entry at place `i` points at its neighbours. */
  ghost predicate LinkedAt(entries: seq<Entry>, fds: seq<int>, i: nat)
    requires i < |fds|
  {
    && 0 <= fds[i] < |entries|
    && entries[fds[i]].prev == Before(fds, i) && entries[fds[i]].next == Behind(fds, i)
  }

  /** The links of `entries` run through `fds` both ways. */
  ghost predicate Linked(entries: seq<Entry>, fds: seq<int>) {
    && Distinct(fds)
    && (forall i :: 0 <= i < |fds| ==> 0 <= fds[i] < |entries|)
    && (forall i {:trigger LinkedAt(entries, fds, i)} :: 0 <= i < |fds| ==> LinkedAt(entries, fds, i))
  }

  // ----- walking the list

  /** The descriptors met from `fd` on by following `next` links, for as long as `fuel` lasts. */
  function Forward(entries: seq<Entry>, fd: int, fuel: nat): seq<int>
    decreases fuel
  {
    if fuel == 0 || !(0 <= fd < |entries|) then [] else [fd] + Forward(entries, entries[fd].next, fuel - 1)
  }

  function Backward(entries: seq<Entry>, fd: int, fuel: nat): seq<int>
    decreases fuel
  {
    if fuel == 0 || !(0 <= fd < |entries|) then [] else Backward(entries, entries[fd].prev, fuel - 1) + [fd]
  }

  lemma {:induction false} ForwardReads(entries: seq<Entry>, fds: seq<int>, i: nat, fuel: nat)
    requires Linked(entries, fds) && i < |fds| && fuel >= |fds| - i
    ensures Forward(entries, fds[i], fuel) == fds[i..]
    decreases |fds| - i
  {
    assert LinkedAt(entries, fds, i);
    if i < |fds| - 1 {
      ForwardReads(entries, fds, i + 1, fuel - 1);
    }
    assert fds[i..] == [fds[i]] + fds[i + 1..];
  }

  lemma {:induction false} BackwardReads(entries: seq<Entry>, fds: seq<int>, i: nat, fuel: nat)
    requires Linked(entries, fds) && i < |fds| && fuel >= i + 1
    ensures Backward(entries, fds[i], fuel) == fds[..i + 1]
    decreases i
  {
    assert LinkedAt(entries, fds, i);
    if i > 0 {
      BackwardReads(entries, fds, i - 1, fuel - 1);
    }
    assert fds[..i + 1] == fds[..i] + [fds[i]];
  }

  /** Walking forwards from the first descriptor and backwards from the last reads the same list, and both walks
      end by themselves: no fuel beyond its length makes them longer. */
  lemma WalksAgree(entries: seq<Entry>, fds: seq<int>, fuel: nat)
    requires Linked(entries, fds) && fuel >= |fds|
    ensures var first := if fds == [] then NIL else fds[0];
      var last := if fds == [] then NIL else fds[|fds| - 1];
      Forward(entries, first, fuel) == fds && Backward(entries, last, fuel) == fds
  {
    if fds != [] {
      ForwardReads(entries, fds, 0, fuel);
      BackwardReads(entries, fds, |fds| - 1, fuel);
    }
  }

  // ----- adding and removing

  /** The entries after `fd`, with contents `e`, has been put behind the last of `fds`. */
  function Appended(entries: seq<Entry>, fds: seq<int>, fd: int, e: Entry): seq<Entry>
    requires 0 <= fd < |entries| && forall i :: 0 <= i < |fds| ==> 0 <= fds[i] < |entries|
  {
    var s := entries[fd := e];
    if fds == [] then s else s[fds[|fds| - 1] := s[fds[|fds| - 1]].(next := fd)]
  }

  lemma LinkLast(entries: seq<Entry>, fds: seq<int>, fd: int, e: Entry)
    requires Linked(entries, fds) && 0 <= fd < |entries| && fd !in fds
    requires e.next == NIL && e.prev == if fds == [] then NIL else fds[|fds| - 1]
    ensures Linked(Appended(entries, fds, fd, e), fds + [fd])
  {
    var fds', entries' := fds + [fd], Appended(entries, fds, fd, e);
    forall i | 0 <= i < |fds'| ensures LinkedAt(entries', fds', i) {
      if i < |fds| {
        assert LinkedAt(entries, fds, i);
      }
    }
  }

  /** The entries after the neighbours of place `i` have been pointed at each other. */
  function Bypassed(entries: seq<Entry>, fds: seq<int>, i: nat): seq<Entry>
    requires i < |fds| && forall k :: 0 <= k < |fds| ==> 0 <= fds[k] < |entries|
  {
    var s := if i == 0 then entries else entries[fds[i - 1] := entries[fds[i - 1]].(next := Behind(fds, i))];
    if i == |fds| - 1 then s else s[fds[i + 1] := s[fds[i + 1]].(prev := Before(fds, i))]
  }

  lemma UnlinkAt(entries: seq<Entry>, fds: seq<int>, i: nat)
    requires Linked(entries, fds) && i < |fds|
    ensures Linked(Bypassed(entries, fds, i), Without(fds, i))
  {
    var fds', entries' := Without(fds, i), Bypassed(entries, fds, i);
    assert forall k :: 0 <= k < |fds'| ==> fds'[k] == fds[if k < i then k else k + 1];
    forall k | 0 <= k < |fds'| ensures LinkedAt(entries', fds', k) {
      UnlinkOne(entries, fds, i, k);
    }
  }

  lemma UnlinkOne(entries: seq<Entry>, fds: seq<int>, i: nat, k: nat)
    requires Linked(entries, fds) && i < |fds| && k < |fds| - 1
    ensures LinkedAt(Bypassed(entries, fds, i), Without(fds, i), k)
  {
    var j := if k < i then k else k + 1;
    assert LinkedAt(entries, fds, j);
    NeighboursOf(entries, fds, j);
    if k + 1 < i || k > i {
      assert fds[j] != fds[i];
    }
  }

  /** What the entry at place `i` says about its neighbours. */
  lemma NeighboursOf(entries: seq<Entry>, fds: seq<int>, i: nat)
    requires Linked(entries, fds) && i < |fds|
    ensures forall k :: 0 <= k < |fds| ==> 0 <= fds[k] < |entries|
    ensures entries[fds[i]].prev == Before(fds, i) && entries[fds[i]].next == Behind(fds, i)
    ensures forall k :: 0 <= k < |fds| && k != i ==> fds[k] != fds[i]
  {
    assert LinkedAt(entries, fds, i);
  }

  /** The ends of the list without place `i`. */
  lemma EndsWithout(fds: seq<int>, i: nat)
    requires i < |fds|
    ensures var rest := Without(fds, i);
      && |rest| == |fds| - 1
      && (if rest == [] then NIL else rest[0]) == (if i == 0 then Behind(fds, 0) else fds[0])
      && (if rest == [] then NIL else rest[|rest| - 1]) == (if i == |fds| - 1 then Before(fds, i) else fds[|fds| - 1])
    ensures Before(fds, i) == if i == 0 then NIL else fds[i - 1]
    ensures Behind(fds, i) == if i == |fds| - 1 then NIL else fds[i + 1]
  {
  }

  lemma BypassedPayload(entries: seq<Entry>, fds: seq<int>, i: nat)
    requires i < |fds| && forall k :: 0 <= k < |fds| ==> 0 <= fds[k] < |entries|
    ensures var s := Bypassed(entries, fds, i);
      |s| == |entries| && forall e :: 0 <= e < |s| ==>
        s[e].timeout == entries[e].timeout && s[e].ip == entries[e].ip && s[e].port == entries[e].port
  {
  }

  class SocketList {
    const entries: array<Entry>
    const size: nat
    var firstFd: int
    var lastFd: int
    var numSockets: int
    ghost var fds: seq<int>

    ghost predicate Valid()
      reads this, entries
    {
      && size == entries.Length
      && Linked(entries[..], fds)
      && firstFd == (if fds == [] then NIL else fds[0])
      && lastFd == (if fds == [] then NIL else fds[|fds| - 1])
      && numSockets == |fds|
    }

    lemma InRange()
      requires Valid()
      ensures forall i :: 0 <= i < |fds| ==> 0 <= fds[i] < entries.Length
      ensures Distinct(fds)
    {
    }

    constructor (size: nat)
      ensures Valid() && fds == [] && this.size == size && fresh(entries)
    {
      entries := new Entry[size](_ => Entry(NIL, NIL, 0, 0, 0));
      this.size := size;
      firstFd, lastFd, numSockets, fds := NIL, NIL, 0, [];
    }

    /** What is kept for a descriptor, links aside. */
    function Payload(fd: int): (nat, nat, int)
      requires 0 <= fd < entries.Length
      reads entries
    {
      (entries[fd].timeout, entries[fd].ip, entries[fd].port)
    }

    method Add(fd: int, ip: nat, port: int, timeout: nat)
      requires Valid() && 0 <= fd <= size && fd !in fds
      modifies this, entries
      ensures Valid()
      ensures fd == size ==> fds == old(fds) && entries[..] == old(entries[..])
      ensures fd < size ==> fds == old(fds) + [fd] && Payload(fd) == (timeout, ip, port)
      ensures forall e :: 0 <= e < size && e != fd ==> Payload(e) == old(Payload(e))
    {
      if fd == size {
        return;
      }
      ghost var was, before := entries[..], fds;
      entries[fd] := Entry(lastFd, NIL, timeout, ip, port);
      if firstFd == NIL {
        firstFd, lastFd := fd, fd;
      } else {
        entries[lastFd] := entries[lastFd].(next := fd);
        lastFd := fd;
      }
      numSockets := numSockets + 1;
      fds := fds + [fd];
      assert entries[..] == Appended(was, before, fd, entries[fd]);
      LinkLast(was, before, fd, entries[fd]);
    }

    /** Whatever was ahead now points at `next`. */
    method PointOn(prev: int, next: int)
      requires prev == NIL || 0 <= prev < entries.Length
      modifies this`firstFd, entries
      ensures entries[..] == old(if prev == NIL then entries[..] else entries[..][prev := entries[prev].(next := next)])
      ensures firstFd == if prev == NIL then next else old(firstFd)
    {
      if prev != NIL {
        entries[prev] := entries[prev].(next := next);
      } else {
        firstFd := next;
      }
    }

    /** Whatever was behind now points back at `prev`. */
    method PointBack(next: int, prev: int)
      requires next == NIL || 0 <= next < entries.Length
      modifies this`lastFd, entries
      ensures entries[..] == old(if next == NIL then entries[..] else entries[..][next := entries[next].(prev := prev)])
      ensures lastFd == if next == NIL then prev else old(lastFd)
    {
      if next != NIL {
        entries[next] := entries[next].(prev := prev);
      } else {
        lastFd := prev;
      }
    }

    /** Removes the descriptor at place `i`. */
    method Remove(fd: int, ghost i: nat) returns (next: int)
      requires Valid() && i < |fds| && fds[i] == fd
      modifies this, entries
      ensures fds == Without(old(fds), i) && next == Behind(old(fds), i)
      ensures entries[..] == Bypassed(old(entries[..]), old(fds), i)
      ensures size == entries.Length && numSockets == |fds|
      ensures firstFd == (if fds == [] then NIL else fds[0]) && lastFd == (if fds == [] then NIL else fds[|fds| - 1])
    {
      hide Linked;
      NeighboursOf(entries[..], fds, i);
      EndsWithout(fds, i);
      var prev := entries[fd].prev;
      next := entries[fd].next;
      PointOn(prev, next);
      PointBack(next, prev);
      numSockets := numSockets - 1;
      fds := Without(fds, i);
    }

    /** Removes a pending descriptor and returns the one that was behind it. */
    method Del(fd: int) returns (next: int)
      requires Valid() && (fds == [] || fd in fds)
      modifies this, entries
      ensures Valid()
      ensures old(fds) == [] ==> next == NIL && fds == []
      ensures forall i :: 0 <= i < |old(fds)| && old(fds)[i] == fd ==>
        fds == Without(old(fds), i) && next == Behind(old(fds), i)
      ensures forall e :: 0 <= e < size ==> Payload(e) == old(Payload(e))
    {
      if numSockets == 0 {
        return NIL;
      }
      hide Linked, Bypassed, Without, Behind, Before;
      ghost var i :| 0 <= i < |fds| && fds[i] == fd;
      ghost var was, before := entries[..], fds;
      NeighboursOf(was, before, i);
      next := Remove(fd, i);
      UnlinkAt(was, before, i);
      BypassedPayload(was, before, i);
      forall e | 0 <= e < size ensures Payload(e) == old(Payload(e)) {
        assert entries[..][e] == entries[e] && was[e] == old(entries[e]);
      }
    }
  }
}
