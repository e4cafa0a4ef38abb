/** The results queue as cscan uses it: results, then a poison pill with address 0. */
module ResultDelivery {
  import opened QueueProtocol
  import opened QueueDelivery
  import opened Results

  const PILL := Target(0, 0)

  predicate IsPill(r: Target) { r.ip == 0 }

  /** What the scanning thread queues: every result, then the pill. */
  function Script(results: seq<Target>): seq<Target> { results + [PILL] }

  /** What the worker has run its modules on: all it got, but for the one it stopped at. */
  function Executed(seen: seq<Target>): seq<Target> {
    if seen != [] && IsPill(seen[|seen| - 1]) then seen[..|seen| - 1] else seen
  }

  function BeforeZero(results: seq<Target>): seq<Target> {
    if results == [] || results[0].ip == 0 then [] else [results[0]] + BeforeZero(results[1..])
  }

  lemma {:induction false} UpToPill(results: seq<Target>)
    ensures UpTo(IsPill, Script(results)) != []
    ensures var seen := UpTo(IsPill, Script(results));
      IsPill(seen[|seen| - 1]) && seen[..|seen| - 1] == BeforeZero(results)
  {
    if results != [] {
      UpToPill(results[1..]);
      assert Script(results)[1..] == Script(results[1..]);
      if results[0].ip != 0 {
        var tail := UpTo(IsPill, Script(results[1..]));
        assert ([results[0]] + tail)[..|tail|] == [results[0]] + tail[..|tail| - 1];
      }
    }
  }

  lemma {:induction false} BeforeZeroAll(results: seq<Target>)
    ensures BeforeZero(results) <= results
    ensures BeforeZero(results) == results <==> forall i :: 0 <= i < |results| ==> results[i].ip != 0
  {
    if results != [] {
      BeforeZeroAll(results[1..]);
      if results[0].ip != 0 {
        assert BeforeZero(results) == [results[0]] + BeforeZero(results[1..]);
        assert BeforeZero(results)[1..] == BeforeZero(results[1..]);
        assert results == [results[0]] + results[1..];
        assert forall i :: 0 <= i < |results[1..]| ==> results[1..][i] == results[i + 1];
        assert forall i :: 0 < i < |results| ==> results[i] == results[1..][i - 1];
      }
    }
  }

  /** Every result reaches the modules, once and in order, and the worker stops, in every run that has come to
      rest: if and only if no result has address 0. Otherwise those before the first such one do, and the main
      thread itself gets to the end if and only if the rest fit in the queue. */
  lemma ResultsExecuted(results: seq<Target>, init: State<Target>, acts: seq<Action>, s: State<Target>,
                        scripts: map<nat, seq<Target>>)
    requires Init(init, scripts) && ScannerAndWorker(init) && scripts[SCANNER] == Script(results)
    requires Runs(IsPill, init, acts, s) && AtRest(s)
    ensures ScannerAndWorker(s) && s.threads[WORKER].pc == Finished
    ensures Executed(s.threads[WORKER].seen) == BeforeZero(results)
    ensures Executed(s.threads[WORKER].seen) == results <==> forall i :: 0 <= i < |results| ==> results[i].ip != 0
    ensures s.threads[SCANNER].todo == [] <==> |results| - |BeforeZero(results)| <= |init.ring.items|
  {
    hide Runs, AtRest, Init, UpTo;
    Delivery(IsPill, init, acts, s, scripts);
    UpToPill(results);
    BeforeZeroAll(results);
    assert IsPill(Script(results)[|results|]);
  }
}
