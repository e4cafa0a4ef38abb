/** What a scan has sent, found and given up, told by nothing but what the kernel was asked and what it answered. */
module ScanHistory {
  import opened Results
  import Kernel

  /** An attempt: its target, and the clock when it was made, in microseconds. */
  datatype Send = Send(target: Target, at: nat)

  /** The attempts in progress that have not been reported on, under their descriptors, and the targets found. */
  datatype Findings = Findings(open: map<int, Send>, found: seq<Target>)

  const BEGINNING := Findings(map[], [])

  /** A target is found when an attempt connects at once, or when the attempt in progress under a descriptor is reported
      writable and without error, for the first time; a report on the canary does not count. Closing an attempt that
      has not been reported on gives it up. */
  function See(scene: Findings, h: Kernel.Happening, canary: Target): Findings {
    match h
    case Tried(t, a, at) =>
      if a.Ready? then scene.(found := scene.found + [t])
      else if a.InProgress? then scene.(open := scene.open[a.fd := Send(t, at)])
      else scene
    case Told(e) =>
      if e.fd !in scene.open then scene
      else
        var t := scene.open[e.fd].target;
        Findings(scene.open - {e.fd},
                 scene.found + if e.writable && !e.failed && !(canary.ip != 0 && t == canary) then [t] else [])
    case Closed(fd, _) => scene.(open := scene.open - {fd})
  }

  function Seen(history: seq<Kernel.Happening>, canary: Target): Findings {
    if history == [] then BEGINNING
    else See(Seen(history[..|history| - 1], canary), history[|history| - 1], canary)
  }

  /** All attempts, in order. */
  function Sends(history: seq<Kernel.Happening>): seq<Send> {
    if history == [] then []
    else
      var h := history[|history| - 1];
      Sends(history[..|history| - 1]) + if h.Tried? then [Send(h.target, h.at)] else []
  }

  lemma SeenMore(history: seq<Kernel.Happening>, h: Kernel.Happening, canary: Target)
    ensures Seen(history + [h], canary) == See(Seen(history, canary), h, canary)
    ensures Sends(history + [h]) == Sends(history) + if h.Tried? then [Send(h.target, h.at)] else []
  {
    assert (history + [h])[..|history|] == history;
  }

  lemma NothingSeen(canary: Target)
    ensures Seen([], canary) == BEGINNING && Sends([]) == []
  {
  }

  /** No attempt is found twice. */
  lemma {:induction false} FoundOnce(history: seq<Kernel.Happening>, canary: Target)
    ensures var scene := Seen(history, canary); |scene.found| + |scene.open| <= |Sends(history)|
  {
    if history != [] {
      var before := history[..|history| - 1];
      FoundOnce(before, canary);
      var open, h := Seen(before, canary).open, history[|history| - 1];
      if h.Told? && h.e.fd in open {
        OneLess(open, h.e.fd);
      } else if h.Closed? {
        if h.fd in open { OneLess(open, h.fd); } else { assert open - {h.fd} == open; }
      } else if h.Tried? && h.answer.InProgress? {
        var fd: int := h.answer.fd;
        assert open[fd := Send(h.target, h.at)].Keys == open.Keys + {fd};
        assert |open| == |open.Keys| && |open[fd := Send(h.target, h.at)]| == |open[fd := Send(h.target, h.at)].Keys|;
      }
    }
  }

  lemma OneLess(open: map<int, Send>, fd: int)
    requires fd in open
    ensures |open - {fd}| == |open| - 1
  {
    assert (open - {fd}).Keys == open.Keys - {fd};
    assert |open| == |open.Keys| && |open - {fd}| == |(open - {fd}).Keys|;
  }

  /** What has happened `k`-th gives up no attempt before `timeout` milliseconds have passed since it was made. */
  ghost predicate PatientAt(history: seq<Kernel.Happening>, canary: Target, timeout: nat, k: nat)
    requires k < |history|
  {
    history[k].Closed? ==>
      var open := Seen(history[..k], canary).open;
      history[k].fd in open ==> history[k].at / 1000 >= open[history[k].fd].at / 1000 + timeout
  }

  ghost predicate Patient(history: seq<Kernel.Happening>, canary: Target, timeout: nat) {
    forall k :: 0 <= k < |history| ==> PatientAt(history, canary, timeout, k)
  }

  lemma PatientMore(history: seq<Kernel.Happening>, h: Kernel.Happening, canary: Target, timeout: nat)
    requires Patient(history, canary, timeout)
    requires h.Closed? ==>
      var open := Seen(history, canary).open;
      h.fd in open ==> h.at / 1000 >= open[h.fd].at / 1000 + timeout
    ensures Patient(history + [h], canary, timeout)
  {
    hide Seen;
    var all := history + [h];
    forall k | 0 <= k < |all| ensures PatientAt(all, canary, timeout, k) {
      if k < |history| {
        assert PatientAt(history, canary, timeout, k);
        assert all[..k] == history[..k];
      } else {
        assert all[..k] == history;
      }
    }
  }

  /** Closing what has been reported on changes nothing. */
  lemma ClosedAfterReport(history: seq<Kernel.Happening>, fd: int, at: nat, canary: Target, timeout: nat)
    requires fd !in Seen(history, canary).open
    ensures var after := history + [Kernel.Closed(fd, at)];
      && Seen(after, canary) == Seen(history, canary) && Sends(after) == Sends(history)
      && (Patient(history, canary, timeout) ==> Patient(after, canary, timeout))
  {
    hide Seen, Patient;
    SeenMore(history, Kernel.Closed(fd, at), canary);
    assert Seen(history, canary).open - {fd} == Seen(history, canary).open;
    if Patient(history, canary, timeout) {
      PatientMore(history, Kernel.Closed(fd, at), canary, timeout);
    }
  }

  /** Events send nothing and give up nothing. */
  lemma {:induction false} TellSends(past: seq<Kernel.Happening>, events: seq<Kernel.Event>, canary: Target,
                                     timeout: nat)
    ensures Sends(past + Kernel.Tell(events)) == Sends(past)
    ensures Patient(past, canary, timeout) ==> Patient(past + Kernel.Tell(events), canary, timeout)
    decreases |events|
  {
    hide Patient, Sends;
    if events == [] {
      assert past + Kernel.Tell(events) == past;
    } else {
      var n := |events| - 1;
      TellSends(past, events[..n], canary, timeout);
      var before := past + Kernel.Tell(events[..n]);
      assert past + Kernel.Tell(events) == before + [Kernel.Told(events[n])];
      SeenMore(before, Kernel.Told(events[n]), canary);
      if Patient(past, canary, timeout) {
        PatientMore(before, Kernel.Told(events[n]), canary, timeout);
      }
    }
  }
}
