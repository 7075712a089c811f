/** Boot resume of one target: retry the connect on the watcher's own backoff until
    there is a reason to stop. */
module Resume {
  import opened Basics
  import opened Reconnect

  /** What one round finds: the store still has the target, someone already holds its
      handle, the connect succeeds. */
  datatype Round = Round(stillActive: bool, adopted: bool, connects: bool)

  datatype Outcome = GaveUp | LeftToAnother | Connected | StillTrying

  /** The target is still there, nobody holds it, and the connect failed. */
  predicate OnlyFailed(r: Round) {
    r.stillActive && !r.adopted && !r.connects
  }

  /** Each round that only failed to connect is followed by a sleep of 2, 4, 8 and so on
      seconds, at most five minutes; the first other round decides: gone from the store,
      held by another, or connected. Only giving up deregisters. */
  method ResumeTarget(rounds: seq<Round>) returns (outcome: Outcome, sleeps: seq<nat>, deregisters: bool)
    ensures |sleeps| <= |rounds| && forall i :: 0 <= i < |sleeps| ==> OnlyFailed(rounds[i])
    ensures forall i :: 0 <= i < |sleeps| ==> sleeps[i] == Waited(i + 1)
    ensures outcome == StillTrying <==> |sleeps| == |rounds|
    ensures |sleeps| < |rounds| ==>
              var r := rounds[|sleeps|];
              && (outcome == GaveUp <==> !r.stillActive)
              && (outcome == LeftToAnother <==> r.stillActive && r.adopted)
              && (outcome == Connected <==> r.stillActive && !r.adopted && r.connects)
    ensures deregisters <==> outcome == GaveUp
  {
    var backoff := INITIAL_BACKOFF;
    sleeps, deregisters := [], false;
    assert Pow2(1) == 2 * Pow2(0);
    while |sleeps| < |rounds|
      invariant |sleeps| <= |rounds| && forall i :: 0 <= i < |sleeps| ==> OnlyFailed(rounds[i])
      invariant forall i :: 0 <= i < |sleeps| ==> sleeps[i] == Waited(i + 1)
      invariant backoff == Min(Pow2(|sleeps| + 1), MAX_BACKOFF) && !deregisters
      decreases |rounds| - |sleeps|
    {
      var round := rounds[|sleeps|];
      if !round.stillActive {
        deregisters := true;
        return GaveUp, sleeps, deregisters;
      }
      if round.adopted {
        return LeftToAnother, sleeps, deregisters;
      }
      if round.connects {
        return Connected, sleeps, deregisters;
      }
      NextBackoffIsCappedPower(|sleeps| + 1);
      CappedPowers(|sleeps| + 1);
      sleeps := sleeps + [backoff];
      backoff := NextBackoff(backoff);
    }
    outcome := StillTrying;
  }
}
