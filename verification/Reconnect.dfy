/** The watcher's reconnect loop: its backoff, and when the chat is told that a
    connection is broken or has recovered. */
module Reconnect {
  import opened Basics

  const INITIAL_BACKOFF: nat := 2
  const MAX_BACKOFF: nat := 300
  const FAILURE_NOTIFY_THRESHOLD: nat := 5

  function Min(a: nat, b: nat): nat {
    if a < b then a else b
  }

  function NextBackoff(current: nat): nat {
    Min(current * 2, MAX_BACKOFF)
  }

  /** How one attempt ended with an error: the stream never opened, or it had. */
  datatype Attempt = NeverOpened | OpenedThenDropped

  datatype Notice = Broken | Recovered

  // ---- What the loop should do, read off the trace ----

  /** The never-opened attempts in a row at the end of the trace. */
  function FailuresAtEnd(trace: seq<Attempt>): nat {
    if trace == [] || Last(trace) == OpenedThenDropped then 0 else 1 + FailuresAtEnd(trace[..|trace| - 1])
  }

  /** Sleeps since the start or since the attempt that last opened, which counts. */
  function SleepsAtEnd(trace: seq<Attempt>): nat {
    if trace == [] then 0
    else if Last(trace) == OpenedThenDropped then 1
    else 1 + SleepsAtEnd(trace[..|trace| - 1])
  }

  /** The notice the last attempt of the trace gives rise to, if any: "broken" at the
      fifth failure in a row, "recovered" when a stream that opened drops after at
      least five. */
  function NoticeAtEnd(trace: seq<Attempt>): Option<Notice>
    requires trace != []
  {
    var before := FailuresAtEnd(trace[..|trace| - 1]);
    if Last(trace) == NeverOpened then (if before == FAILURE_NOTIFY_THRESHOLD - 1 then Some(Broken) else None)
    else if before >= FAILURE_NOTIFY_THRESHOLD then Some(Recovered) else None
  }

  function Pow2(n: nat): nat {
    if n == 0 then 1 else 2 * Pow2(n - 1)
  }

  function Notices(trace: seq<Attempt>): seq<Notice> {
    if trace == [] then [] else
      Notices(trace[..|trace| - 1]) + match NoticeAtEnd(trace) case Some(n) => [n] case None => []
  }

  function Sleeps(trace: seq<Attempt>): seq<nat> {
    if trace == [] then [] else Sleeps(trace[..|trace| - 1]) + [Min(Pow2(SleepsAtEnd(trace)), MAX_BACKOFF)]
  }

  // ---- The loop ----

  lemma NextBackoffIsCappedPower(n: nat)
    requires n >= 1
    ensures NextBackoff(Min(Pow2(n), MAX_BACKOFF)) == Min(Pow2(n + 1), MAX_BACKOFF)
  {
  }

  /** The loop over the attempts up to a clean shutdown (or so far). */
  method Watch(trace: seq<Attempt>)
               returns (notices: seq<Notice>, sleeps: seq<nat>, notifiedBroken: bool, failures: nat)
    ensures notices == Notices(trace)
    ensures sleeps == Sleeps(trace)
    ensures failures == FailuresAtEnd(trace)
    ensures notifiedBroken <==> FailuresAtEnd(trace) >= FAILURE_NOTIFY_THRESHOLD
  {
    var backoff := INITIAL_BACKOFF;
    notices, sleeps, notifiedBroken, failures := [], [], false, 0;
    assert Pow2(1) == 2 * Pow2(0);
    for i := 0 to |trace|
      invariant notices == Notices(trace[..i]) && sleeps == Sleeps(trace[..i])
      invariant failures == FailuresAtEnd(trace[..i])
      invariant notifiedBroken <==> failures >= FAILURE_NOTIFY_THRESHOLD
      invariant backoff == Min(Pow2(SleepsAtEnd(trace[..i]) + 1), MAX_BACKOFF)
    {
      assert trace[..i + 1][..i] == trace[..i] && Last(trace[..i + 1]) == trace[i];
      if trace[i] == OpenedThenDropped {
        failures := 0;
        backoff := INITIAL_BACKOFF;
        if notifiedBroken {
          notifiedBroken := false;
          notices := notices + [Recovered];
        }
      } else {
        failures := failures + 1;
        if failures >= FAILURE_NOTIFY_THRESHOLD && !notifiedBroken {
          notifiedBroken := true;
          notices := notices + [Broken];
        }
      }
      sleeps := sleeps + [backoff];
      NextBackoffIsCappedPower(SleepsAtEnd(trace[..i + 1]));
      backoff := NextBackoff(backoff);
    }
    assert trace[..|trace|] == trace;
  }

  // ---- What a reader of the chat can rely on ----

  predicate Alternating(notices: seq<Notice>) {
    forall i :: 0 <= i < |notices| ==> notices[i] == if i % 2 == 0 then Broken else Recovered
  }

  /** Notices strictly alternate, starting with "broken"; the last one is "broken"
      exactly while five or more attempts in a row have failed to open. */
  lemma {:induction false} NoticesAlternate(trace: seq<Attempt>)
    ensures Alternating(Notices(trace))
    ensures |Notices(trace)| % 2 == 1 <==> FailuresAtEnd(trace) >= 5
  {
    if trace != [] {
      NoticesAlternate(trace[..|trace| - 1]);
    }
  }

  /** The trace ends in exactly k never-opened attempts, no more. */
  ghost predicate EndsInFailures(trace: seq<Attempt>, k: nat) {
    && k <= |trace|
    && (forall i :: |trace| - k <= i < |trace| ==> trace[i] == NeverOpened)
    && (k < |trace| ==> trace[|trace| - k - 1] == OpenedThenDropped)
  }

  lemma {:induction false} FailuresAreARun(trace: seq<Attempt>, k: nat)
    ensures FailuresAtEnd(trace) == k <==> EndsInFailures(trace, k)
  {
    if trace != [] && Last(trace) == NeverOpened {
      var shorter := trace[..|trace| - 1];
      if k > 0 {
        FailuresAreARun(shorter, k - 1);
        if EndsInFailures(shorter, k - 1) {
          forall i | |trace| - k <= i < |trace|
            ensures trace[i] == NeverOpened
          {
            assert i < |shorter| ==> trace[i] == shorter[i];
          }
        }
        if EndsInFailures(trace, k) {
          forall i | |shorter| - (k - 1) <= i < |shorter|
            ensures shorter[i] == NeverOpened
          {
            assert shorter[i] == trace[i];
          }
        }
      }
    }
  }

  predicate LastAllFailed(trace: seq<Attempt>, k: nat) {
    k <= |trace| && forall i :: |trace| - k <= i < |trace| ==> trace[i] == NeverOpened
  }

  /** "Broken" goes out exactly when the trace ends in its fifth failure in a row,
      "recovered" exactly when a stream that opened drops after five or more. */
  lemma NoticeIff(trace: seq<Attempt>)
    requires trace != []
    ensures NoticeAtEnd(trace) == Some(Broken) <==> EndsInFailures(trace, 5)
    ensures NoticeAtEnd(trace) == Some(Recovered) <==>
              Last(trace) == OpenedThenDropped && LastAllFailed(trace[..|trace| - 1], 5)
  {
    var before := trace[..|trace| - 1];
    FailuresAreARun(trace, 5);
    var f := FailuresAtEnd(before);
    FailuresAreARun(before, f);
  }

  lemma {:induction false} PowersGrow(m: nat, n: nat)
    requires m <= n
    ensures Pow2(m) <= Pow2(n)
    decreases n
  {
    if m < n {
      PowersGrow(m, n - 1);
    }
  }

  /** The sleep after an attempt is min(2^n, 300) seconds for the n-th sleep since the
      start or the last opening, so it never exceeds five minutes and within a run of
      failures never shrinks. */
  lemma {:induction false} SleepsAreCappedPowers(trace: seq<Attempt>, i: nat)
    requires i < |trace|
    ensures |Sleeps(trace)| == |trace|
    ensures Sleeps(trace)[i] == Min(Pow2(SleepsAtEnd(trace[..i + 1])), MAX_BACKOFF)
    ensures INITIAL_BACKOFF <= Sleeps(trace)[i] <= MAX_BACKOFF
    ensures i > 0 && trace[i] == NeverOpened ==> Sleeps(trace)[i - 1] <= Sleeps(trace)[i]
    decreases |trace|
  {
    var shorter := trace[..|trace| - 1];
    SleepsLength(trace);
    SleepsLength(shorter);
    PowersGrow(1, SleepsAtEnd(trace[..i + 1]));
    assert Pow2(1) == 2 * Pow2(0);
    if i < |trace| - 1 {
      SleepsAreCappedPowers(shorter, i);
      assert shorter[..i + 1] == trace[..i + 1];
    } else {
      assert trace[..i + 1] == trace;
      if i > 0 {
        SleepsAreCappedPowers(shorter, i - 1);
        assert shorter[..i] == shorter;
        PowersGrow(SleepsAtEnd(shorter), SleepsAtEnd(shorter) + 1);
      }
    }
  }

  lemma {:induction false} SleepsLength(trace: seq<Attempt>)
    ensures |Sleeps(trace)| == |trace|
  {
    if trace != [] {
      SleepsLength(trace[..|trace| - 1]);
    }
  }

  /** The n-th sleep of a row, in seconds. */
  function Waited(n: nat): nat
    requires n >= 1
  {
    if n > 8 then 300 else [2, 4, 8, 16, 32, 64, 128, 256][n - 1]
  }

  lemma {:induction false} CappedPowers(n: nat)
    requires n >= 1
    ensures Min(Pow2(n), MAX_BACKOFF) == Waited(n)
  {
    assert Pow2(3) == 8 && Pow2(6) == 64 && Pow2(9) == 512;
    if n > 9 {
      PowersGrow(9, n);
    }
  }

  /** No stream opened at these places. */
  predicate NoneOpened(trace: seq<Attempt>, from: nat, to: nat) {
    forall k :: from <= k < to && k < |trace| ==> trace[k] == NeverOpened
  }

  lemma {:induction false} CountsFromStart(trace: seq<Attempt>, j: nat)
    requires j <= |trace| && NoneOpened(trace, 0, j)
    ensures SleepsAtEnd(trace[..j]) == j
  {
    if j > 0 {
      assert trace[..j][..j - 1] == trace[..j - 1];
      CountsFromStart(trace, j - 1);
    }
  }

  lemma {:induction false} CountsFromOpening(trace: seq<Attempt>, i: nat, j: nat)
    requires i < j <= |trace| && trace[i] == OpenedThenDropped && NoneOpened(trace, i + 1, j)
    ensures SleepsAtEnd(trace[..j]) == j - i
    decreases j
  {
    assert trace[..j][..j - 1] == trace[..j - 1];
    if j > i + 1 {
      CountsFromOpening(trace, i, j - 1);
    }
  }

  /** After a stream that opened and dropped the sleeps start again at two seconds and
      double up to five minutes, as they do from the start. */
  lemma SleepsStartAgain(trace: seq<Attempt>, j: nat)
    requires j < |trace|
    ensures |Sleeps(trace)| == |trace|
    ensures NoneOpened(trace, 0, j + 1) ==> Sleeps(trace)[j] == Waited(j + 1)
    ensures forall i: nat :: i <= j && trace[i] == OpenedThenDropped && NoneOpened(trace, i + 1, j + 1) ==>
              Sleeps(trace)[j] == Waited(j - i + 1)
  {
    SleepsAreCappedPowers(trace, j);
    if NoneOpened(trace, 0, j + 1) {
      CountsFromStart(trace, j + 1);
      CappedPowers(j + 1);
    }
    forall i: nat | i <= j && trace[i] == OpenedThenDropped && NoneOpened(trace, i + 1, j + 1)
      ensures Sleeps(trace)[j] == Waited(j - i + 1)
    {
      CountsFromOpening(trace, i, j + 1);
      CappedPowers(j - i + 1);
    }
  }
}
