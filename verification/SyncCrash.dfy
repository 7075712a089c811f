/** The same cursor across crashes. A step handles one message, so a crash may come
    in the middle of a batch. This machine knows of the store only the cursor that
    each memory version held and which versions a restart may find; `SyncStore`
    shows that the watcher over the store itself takes exactly such steps. */
module SyncCrash {
  import opened Basics
  import opened SyncCursor

  /** Where the messages created in a stretch of the log stand in it. */
  function CreatedAt(log: seq<Change>, a: nat, b: nat): seq<nat>
    requires a <= b <= |log|
    decreases b - a
  {
    if a == b then [] else (if log[a].Created? then [a] else []) + CreatedAt(log, a + 1, b)
  }

  lemma {:induction false} CreatedAtConcat(log: seq<Change>, a: nat, b: nat, c: nat)
    requires a <= b <= c <= |log|
    ensures CreatedAt(log, a, c) == CreatedAt(log, a, b) + CreatedAt(log, b, c)
    decreases b - a
  {
    if a < b {
      CreatedAtConcat(log, a + 1, b, c);
    }
  }

  lemma {:induction false} CreatedAtRange(log: seq<Change>, a: nat, b: nat, p: nat)
    requires a <= b <= |log|
    ensures p in CreatedAt(log, a, b) <==> a <= p < b && log[p].Created?
    decreases b - a
  {
    if a < b {
      CreatedAtRange(log, a + 1, b, p);
    }
  }

  ghost predicate Increasing(c: seq<nat>) {
    forall i, j :: 0 <= i < j < |c| ==> c[i] < c[j]
  }

  lemma IncreasingCons(a: nat, rest: seq<nat>)
    requires Increasing(rest) && forall i :: 0 <= i < |rest| ==> a < rest[i]
    ensures Increasing([a] + rest)
  {
  }

  lemma {:induction false} CreatedAtIncreases(log: seq<Change>, a: nat, b: nat)
    requires a <= b <= |log|
    ensures Increasing(CreatedAt(log, a, b))
    decreases b - a
  {
    if a < b {
      CreatedAtIncreases(log, a + 1, b);
      var rest := CreatedAt(log, a + 1, b);
      forall i | 0 <= i < |rest|
        ensures a < rest[i]
      {
        CreatedAtRange(log, a + 1, b, rest[i]);
      }
      if log[a].Created? {
        IncreasingCons(a, rest);
        assert CreatedAt(log, a, b) == [a] + rest;
      } else {
        assert CreatedAt(log, a, b) == rest;
      }
    }
  }

  lemma {:induction false} CreatedAtStable(log: seq<Change>, more: seq<Change>, a: nat, b: nat)
    requires a <= b <= |log|
    ensures CreatedAt(log + more, a, b) == CreatedAt(log, a, b)
    decreases b - a
  {
    if a < b {
      CreatedAtStable(log, more, a + 1, b);
    }
  }

  datatype Phase = Idle | Working(until: nat, done: nat)

  /** `cursors` are the values the cursor had in memory, version by version, the last
      one now. `entries` are the versions the state file may come back as, the last
      one after a kill; a kill does not make it durable. `epoch` is the version that
      the running process began with, and `handled` what it has handled. */
  datatype State = State(
    log: seq<Change>, cursors: seq<nat>, entries: seq<nat>, epoch: nat, phase: Phase,
    start: nat, handled: seq<nat>, earlier: seq<nat>)

  function Cursor(s: State): nat
    requires s.cursors != []
  {
    Last(s.cursors)
  }

  datatype Action =
    | Append(change: Change)
    | Fetch(until: nat)        // a successful fetch; a failed one is no step
    | Handle                   // judge and perhaps announce the next message
    | Commit                   // move the cursor to the end of the batch
    | Settle                   // nothing moved, so nothing is written
    | OtherWrite               // another call makes a version with this same cursor
    | Rename(v: nat)           // a persist puts version v into the directory
    | SyncDirectory
    | Kill
    | PowerLoss(i: nat)

  function Batch(s: State): seq<nat>
    requires s.cursors != [] && s.phase.Working? && Cursor(s) <= s.phase.until <= |s.log|
  {
    CreatedAt(s.log, Cursor(s), s.phase.until)
  }

  predicate Sane(s: State) {
    && s.cursors != [] && Cursor(s) <= |s.log|
    && s.entries != [] && (forall i :: 0 <= i < |s.entries| ==> s.entries[i] < |s.cursors|)
    && (s.phase.Working? ==> Cursor(s) <= s.phase.until <= |s.log|)
  }

  predicate Enabled(s: State, a: Action) {
    && Sane(s)
    && match a
       case Fetch(until) => s.phase.Idle? && Cursor(s) <= until <= |s.log|
       case Handle => s.phase.Working? && s.phase.done < |Batch(s)|
       case Commit => s.phase.Working? && s.phase.done == |Batch(s)|
       case Settle => s.phase.Working? && s.phase.done == |Batch(s)| && s.phase.until == Cursor(s)
       case Rename(v) => s.epoch <= v < |s.cursors| && Last(s.entries) <= v
       case PowerLoss(i) => i < |s.entries|
       case _ => true
  }

  function Next(s: State, a: Action): State
    requires Enabled(s, a)
  {
    match a
    case Append(c) => s.(log := s.log + [c])
    case Fetch(until) => s.(phase := Working(until, 0))
    case Handle =>
      s.(handled := s.handled + [Batch(s)[s.phase.done]], phase := Working(s.phase.until, s.phase.done + 1))
    case Commit => s.(cursors := s.cursors + [s.phase.until], phase := Idle)
    case Settle => s.(phase := Idle)
    case OtherWrite => s.(cursors := s.cursors + [Cursor(s)])
    case Rename(v) => s.(entries := s.entries + [v])
    case SyncDirectory => s.(entries := [Last(s.entries)])
    case Kill => Restart(s, s.entries, s.cursors[Last(s.entries)])
    case PowerLoss(i) => Restart(s, [s.entries[i]], s.cursors[s.entries[i]])
  }

  function Restart(s: State, entries: seq<nat>, cursor: nat): State {
    s.(cursors := s.cursors + [cursor], entries := entries, epoch := |s.cursors|, phase := Idle,
       start := cursor, earlier := s.earlier + s.handled, handled := [])
  }

  /** Everything handled so far, in order, whatever the epoch. */
  function Handled(s: State): seq<nat> {
    s.earlier + s.handled
  }

  function Init(log: seq<Change>, baseline: nat): State {
    State(log, [baseline], [0], 0, Idle, baseline, [], [])
  }

  /** The cursor that stable storage holds for sure. */
  function Durable(s: State): nat
    requires s.entries != [] && s.entries[0] < |s.cursors|
  {
    s.cursors[s.entries[0]]
  }

  // ---- Invariant ----

  ghost predicate Covered(s: State, base: nat, c: nat) {
    forall p :: base <= p < c && p < |s.log| && s.log[p].Created? ==> p in Handled(s)
  }

  /** In this epoch exactly the messages from its start to the cursor have been
      handled, and the first `done` of the batch in progress. */
  ghost predicate EpochOk(s: State)
    requires Sane(s)
  {
    && s.start <= Cursor(s)
    && match s.phase
       case Idle => s.handled == CreatedAt(s.log, s.start, Cursor(s))
       case Working(until, done) =>
         && done <= |Batch(s)|
         && s.handled == CreatedAt(s.log, s.start, Cursor(s)) + Batch(s)[..done]
  }

  ghost predicate CursorsOk(s: State, base: nat) {
    forall k :: 0 <= k < |s.cursors| ==> s.cursors[k] <= |s.log| && Covered(s, base, s.cursors[k])
  }

  /** Within an epoch cursors only grow, and so they do from one directory entry to
      the next and from the last entry into the epoch. */
  ghost predicate Ordered(s: State)
    requires Sane(s)
  {
    && s.epoch < |s.cursors|
    && (forall i, j :: s.epoch <= i <= j < |s.cursors| ==> s.cursors[i] <= s.cursors[j])
    && (forall i, j :: 0 <= i <= j < |s.entries| ==> s.cursors[s.entries[i]] <= s.cursors[s.entries[j]])
    && (Last(s.entries) < s.epoch ==> s.cursors[Last(s.entries)] <= s.cursors[s.epoch])
  }

  ghost predicate Inv(s: State, base: nat) {
    Sane(s) && EpochOk(s) && CursorsOk(s, base) && Ordered(s)
  }

  lemma AppendKeeps(s: State, base: nat, c: Change)
    requires Inv(s, base)
    ensures Inv(Next(s, Append(c)), base)
  {
    var s' := Next(s, Append(c));
    CreatedAtStable(s.log, [c], s.start, Cursor(s));
    if s.phase.Working? {
      CreatedAtStable(s.log, [c], Cursor(s), s.phase.until);
    }
    forall k | 0 <= k < |s.cursors|
      ensures Covered(s', base, s'.cursors[k])
    {
      assert Covered(s, base, s.cursors[k]);
    }
  }

  /** A version made in this epoch, whose cursor is the old one or later, keeps the order. */
  lemma GrowingKeepsOrder(s: State, s': State)
    requires Sane(s) && Sane(s') && Ordered(s)
    requires |s'.cursors| == |s.cursors| + 1 && s.cursors <= s'.cursors && Cursor(s) <= Cursor(s')
    requires s'.entries == s.entries && s'.epoch == s.epoch
    ensures Ordered(s')
  {
    assert Cursor(s) == s.cursors[|s.cursors| - 1];
  }

  lemma CommitKeeps(s: State, base: nat)
    requires Inv(s, base) && Enabled(s, Commit)
    ensures Inv(Next(s, Commit), base)
  {
    var s' := Next(s, Commit);
    var batch := Batch(s);
    assert batch[..|batch|] == batch;
    CreatedAtConcat(s.log, s.start, Cursor(s), s.phase.until);
    GrowingKeepsOrder(s, s');
    forall p | base <= p < s.phase.until && s.log[p].Created?
      ensures p in Handled(s')
    {
      if p < Cursor(s) {
        assert Covered(s, base, s.cursors[|s.cursors| - 1]);
      } else {
        CreatedAtRange(s.log, Cursor(s), s.phase.until, p);
      }
    }
    forall k | 0 <= k < |s'.cursors|
      ensures Covered(s', base, s'.cursors[k])
    {
      assert k < |s.cursors| ==> Covered(s, base, s.cursors[k]);
    }
  }

  /** Steps that leave log and earlier epochs alone and add no new cursor value. */
  lemma SameCover(s: State, s': State, base: nat)
    requires CursorsOk(s, base) && s'.log == s.log && Handled(s) <= Handled(s')
    requires forall k :: 0 <= k < |s'.cursors| ==> s'.cursors[k] in s.cursors
    ensures CursorsOk(s', base)
  {
    forall k | 0 <= k < |s'.cursors|
      ensures s'.cursors[k] <= |s'.log| && Covered(s', base, s'.cursors[k])
    {
      var j :| 0 <= j < |s.cursors| && s.cursors[j] == s'.cursors[k];
      assert Covered(s, base, s.cursors[j]);
    }
  }

  lemma RestartKeeps(s: State, base: nat, a: Action)
    requires Inv(s, base) && Enabled(s, a) && (a.Kill? || a.PowerLoss?)
    ensures Inv(Next(s, a), base)
    ensures Durable(s) <= Durable(Next(s, a))
  {
    var s' := Next(s, a);
    var i := if a.Kill? then |s.entries| - 1 else a.i;
    assert Last(s'.entries) == s.entries[i] && s'.cursors[|s.cursors|] == s.cursors[s.entries[i]];
    assert Handled(s') == Handled(s);
    SameCover(s, s', base);
    assert s.cursors[s.entries[0]] <= s.cursors[s.entries[i]];
  }

  lemma BatchKeeps(s: State, base: nat, a: Action)
    requires Inv(s, base) && Enabled(s, a) && (a.Fetch? || a.Handle? || a.Settle?)
    ensures Inv(Next(s, a), base)
  {
    var s' := Next(s, a);
    SameCover(s, s', base);
    if a.Handle? {
      var batch := Batch(s);
      assert batch[..s.phase.done + 1] == batch[..s.phase.done] + [batch[s.phase.done]];
    } else if a.Settle? {
      assert Batch(s) == [];
    }
  }

  lemma RenameKeeps(s: State, base: nat, v: nat)
    requires Inv(s, base) && Enabled(s, Rename(v))
    ensures Inv(Next(s, Rename(v)), base)
    ensures Durable(s) <= Durable(Next(s, Rename(v)))
  {
    SameCover(s, Next(s, Rename(v)), base);
    RenameKeepsOrder(s, v);
  }

  lemma RenameKeepsOrder(s: State, v: nat)
    requires Enabled(s, Rename(v)) && Ordered(s)
    ensures Ordered(Next(s, Rename(v)))
  {
    var s', n := Next(s, Rename(v)), |s.entries|;
    assert s.cursors[Last(s.entries)] <= s.cursors[v];
    assert s'.entries[n] == v;
    forall i | 0 <= i < n
      ensures s'.entries[i] == s.entries[i] && s.cursors[s.entries[i]] <= s.cursors[v]
    {
      assert s.cursors[s.entries[i]] <= s.cursors[s.entries[n - 1]];
    }
  }

  lemma SyncKeeps(s: State, base: nat)
    requires Inv(s, base)
    ensures Inv(Next(s, SyncDirectory), base)
    ensures Durable(s) <= Durable(Next(s, SyncDirectory))
  {
    SameCover(s, Next(s, SyncDirectory), base);
    assert s.cursors[s.entries[0]] <= s.cursors[s.entries[|s.entries| - 1]];
  }

  lemma StepKeeps(s: State, base: nat, a: Action)
    requires Inv(s, base) && Enabled(s, a)
    ensures Inv(Next(s, a), base)
    ensures Durable(s) <= Durable(Next(s, a))
  {
    match a
    case Append(c) => AppendKeeps(s, base, c);
    case Commit => CommitKeeps(s, base);
    case OtherWrite =>
      GrowingKeepsOrder(s, Next(s, a));
      SameCover(s, Next(s, a), base);
    case Rename(v) => RenameKeeps(s, base, v);
    case SyncDirectory => SyncKeeps(s, base);
    case Kill => RestartKeeps(s, base, a);
    case PowerLoss(_) => RestartKeeps(s, base, a);
    case _ => BatchKeeps(s, base, a);
  }

  ghost predicate Reaches(s: State, actions: seq<Action>, s': State)
    decreases |actions|
  {
    if actions == [] then s == s' else
      Enabled(s, actions[0]) && Reaches(Next(s, actions[0]), actions[1..], s')
  }

  lemma {:induction false} RunsKeep(s: State, base: nat, actions: seq<Action>, s': State)
    requires Inv(s, base) && Reaches(s, actions, s')
    ensures Inv(s', base)
    decreases |actions|
  {
    if actions != [] {
      StepKeeps(s, base, actions[0]);
      RunsKeep(Next(s, actions[0]), base, actions[1..], s');
    }
  }

  lemma InitEstablishes(log: seq<Change>, baseline: nat)
    requires baseline <= |log|
    ensures Inv(Init(log, baseline), baseline)
  {
    assert Covered(Init(log, baseline), baseline, baseline);
  }

  /** At every moment of every run with any kills and power losses: within the current
      epoch each created message up to the cursor has been handled exactly once and
      in order, and no cursor that memory ever held, so none that a restart can find,
      passes a message that was never handled. */
  lemma AtLeastOnce(log: seq<Change>, baseline: nat, actions: seq<Action>, s: State)
    requires baseline <= |log| && Reaches(Init(log, baseline), actions, s)
    ensures Sane(s) && s.start <= Cursor(s)
    ensures s.phase.Idle? ==> s.handled == CreatedAt(s.log, s.start, Cursor(s))
    ensures Increasing(s.handled)
    ensures forall k, p :: 0 <= k < |s.cursors| && baseline <= p < s.cursors[k] && p < |s.log| && s.log[p].Created? ==>
              p in Handled(s)
  {
    InitEstablishes(log, baseline);
    RunsKeep(Init(log, baseline), baseline, actions, s);
    HandledInOrder(s, baseline);
    forall k, p | 0 <= k < |s.cursors| && baseline <= p < s.cursors[k] && p < |s.log| && s.log[p].Created?
      ensures p in Handled(s)
    {
      assert Covered(s, baseline, s.cursors[k]);
    }
  }

  lemma HandledInOrder(s: State, base: nat)
    requires Inv(s, base)
    ensures Increasing(s.handled)
  {
    match s.phase
    case Idle =>
      CreatedAtIncreases(s.log, s.start, Cursor(s));
      assert s.handled == CreatedAt(s.log, s.start, Cursor(s));
    case Working(until, done) =>
      CreatedAtConcat(s.log, s.start, Cursor(s), until);
      CreatedAtIncreases(s.log, s.start, until);
      assert s.handled <= CreatedAt(s.log, s.start, until);
  }

  /** The running process never stands before the durable cursor. */
  lemma DurableIsBehind(s: State, base: nat)
    requires Inv(s, base)
    ensures Durable(s) <= Cursor(s)
  {
    var n, m := |s.entries|, |s.cursors|;
    assert s.cursors[s.entries[0]] <= s.cursors[s.entries[n - 1]];
    if s.entries[n - 1] < s.epoch {
      assert s.cursors[s.epoch] <= s.cursors[m - 1];
    } else {
      assert s.cursors[s.entries[n - 1]] <= s.cursors[m - 1];
    }
  }

  /** All that was handled stays on record, and whatever was handled since stands at or
      past position `from`. */
  ghost predicate OnlyFrom(before: seq<nat>, after: seq<nat>, from: nat) {
    before <= after && forall i :: |before| <= i < |after| ==> after[i] >= from
  }

  /** What one step handles is nothing, or a message at or past the durable cursor. */
  lemma HandledByStep(s: State, base: nat, a: Action)
    requires Inv(s, base) && Enabled(s, a)
    ensures OnlyFrom(Handled(s), Handled(Next(s, a)), Durable(s))
  {
    if a.Handle? {
      var p := Batch(s)[s.phase.done];
      CreatedAtRange(s.log, Cursor(s), s.phase.until, p);
      DurableIsBehind(s, base);
      assert Handled(Next(s, a)) == Handled(s) + [p];
    } else {
      assert Handled(Next(s, a)) == Handled(s);
    }
  }

  lemma OnlyFromTransitive(a: seq<nat>, b: seq<nat>, c: seq<nat>, from: nat, later: nat)
    requires OnlyFrom(a, b, from) && OnlyFrom(b, c, later) && from <= later
    ensures OnlyFrom(a, c, from)
  {
  }

  /** After any further steps, kills and power losses, only messages at or past the
      durable cursor have been handled again: nothing before it is ever repeated. */
  lemma {:induction false} OnlyPastTheDurableRepeats(s: State, base: nat, actions: seq<Action>, s': State)
    requires Inv(s, base) && Reaches(s, actions, s')
    ensures Sane(s') && Durable(s) <= Durable(s')
    ensures OnlyFrom(Handled(s), Handled(s'), Durable(s))
    decreases |actions|
  {
    if actions != [] {
      var s1 := Next(s, actions[0]);
      StepKeeps(s, base, actions[0]);
      HandledByStep(s, base, actions[0]);
      OnlyPastTheDurableRepeats(s1, base, actions[1..], s');
      OnlyFromTransitive(Handled(s), Handled(s1), Handled(s'), Durable(s), Durable(s1));
    }
  }
}
