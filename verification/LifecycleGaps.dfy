/** Two runs in which the watchers end up other than the store says. */
module LifecycleGaps {
  import opened Lifecycle
  import opened LifecycleFacts

  ghost predicate Leads(s: State, s': State) {
    exists actions :: Reaches(s, actions, s')
  }

  lemma {:induction false} Concatenate(s0: State, first: seq<Action>, s: State, second: seq<Action>, s': State)
    requires Reaches(s0, first, s) && Reaches(s, second, s')
    ensures Reaches(s0, first + second, s')
    decreases |first|
  {
    if first == [] {
      assert first + second == second;
    } else {
      assert (first + second)[1..] == first[1..] + second;
      Concatenate(Next(s0, first[0]), first[1..], s, second, s');
    }
  }

  lemma Then(s0: State, s: State, s': State)
    requires Leads(s0, s) && Leads(s, s')
    ensures Leads(s0, s')
  {
    var first :| Reaches(s0, first, s);
    var second :| Reaches(s, second, s');
    Concatenate(s0, first, s, second, s');
  }

  lemma Step(s: State, a: Action, s': State)
    requires Enabled(s, a) && Next(s, a) == s'
    ensures Leads(s, s')
  {
    assert [a][1..] == [] && Reaches(s', [], s');
    assert Reaches(s, [a], s');
  }

  function Seat(s: State, i: nat, a: Actor): State
    requires i < |s.actors|
  {
    s.(actors := s.actors[i := a])
  }

  /** The first three steps of an adoption that finds its key free. */
  lemma AdoptBegins(s: State, i: nat, k: Key) returns (s': State)
    requires i < |s.actors| && s.actors[i] == Adopting(k, Waiting) && k.kind !in s.owner && k !in s.watchers
    ensures Leads(s, s')
    ensures s' == Seat(s, i, Adopting(k, Registered)).(
                    owner := s.owner[k.kind := i], clients := s.clients + {k}, health := s.health + {k.HealthKey()})
  {
    var s1 := Seat(s, i, Adopting(k, Free)).(owner := s.owner[k.kind := i]);
    var s2 := Seat(s1, i, Adopting(k, Cached)).(clients := s.clients + {k});
    s' := Seat(s2, i, Adopting(k, Registered)).(health := s.health + {k.HealthKey()});
    Step(s, Move(i), s1);
    Step(s1, Move(i), s2);
    Step(s2, Move(i), s');
    Then(s, s1, s2);
    Then(s, s2, s');
  }

  lemma AdoptEnds(s: State, i: nat, k: Key) returns (s': State)
    requires i < |s.actors| && s.actors[i] == Adopting(k, Registered)
    ensures Leads(s, s')
    ensures s' == Seat(s, i, Finished(true)).(
                    owner := s.owner - {k.kind}, tasks := s.tasks + [Task(k, Running, false)],
                        watchers := s.watchers[k := |s.tasks|])
  {
    var s1 := Seat(s, i, Adopting(k, Started(|s.tasks|))).(tasks := s.tasks + [Task(k, Running, false)]);
    var s2 := Seat(s1, i, Adopting(k, Stored)).(watchers := s.watchers[k := |s.tasks|]);
    s' := Seat(s2, i, Finished(true)).(owner := s.owner - {k.kind});
    Step(s, Move(i), s1);
    Step(s1, Move(i), s2);
    Step(s2, Move(i), s');
    Then(s, s1, s2);
    Then(s, s2, s');
  }

  /** An adoption that finds its key free and runs through. */
  lemma AdoptRuns(s: State, i: nat, k: Key) returns (s': State)
    requires i < |s.actors| && s.actors[i] == Adopting(k, Waiting) && k.kind !in s.owner && k !in s.watchers
    ensures Leads(s, s')
    ensures s' == Seat(s, i, Finished(true)).(
                    clients := s.clients + {k}, health := s.health + {k.HealthKey()},
                    tasks := s.tasks + [Task(k, Running, false)], watchers := s.watchers[k := |s.tasks|])
  {
    var s1 := AdoptBegins(s, i, k);
    s' := AdoptEnds(s1, i, k);
    Then(s, s1, s');
    assert s'.owner == s.owner;
  }

  /** A resume of an active target, up to its successful connect. */
  lemma ResumeConnects(s: State, k: Key) returns (s': State)
    requires s.actors == [] && k in s.active && k !in s.watchers && k.kind !in s.owner
    ensures Leads(s, s')
    ensures s' == s.(actors := [Adopting(k, Waiting)], health := s.health + {k.HealthKey()})
  {
    var s1 := s.(actors := [Resuming(k, Booting)]);
    var s2 := s.(actors := [Resuming(k, Checking)], health := s.health + {k.HealthKey()});
    var s3 := Seat(s2, 0, Resuming(k, Peeking));
    var s4 := Seat(s2, 0, Resuming(k, Connecting));
    s' := Seat(s2, 0, Adopting(k, Waiting));
    Step(s, Begin(Resuming(k, Booting)), s1);
    Step(s1, Move(0), s2);
    Step(s2, Move(0), s3);
    Step(s3, Move(0), s4);
    Step(s4, Move(0), s');
    Then(s, s1, s2);
    Then(s, s2, s3);
    Then(s, s3, s4);
    Then(s, s4, s');
  }

  /** The teardown of a target that has no handle yet. */
  lemma TeardownRuns(s: State, k: Key) returns (s': State)
    requires k !in s.watchers && k.kind !in s.owner
    ensures Leads(s, s')
    ensures s' == s.(actors := s.actors + [Dropping(k, 3)], health := s.health - {k.HealthKey()},
        clients := s.clients - {k})
  {
    var j := |s.actors|;
    var s1 := s.(actors := s.actors + [Dropping(k, 0)]);
    var s2 := s.(actors := s.actors + [Dropping(k, 1)], health := s.health - {k.HealthKey()});
    var s3 := s2.(actors := s.actors + [Dropping(k, 2)], clients := s.clients - {k});
    s' := s3.(actors := s.actors + [Dropping(k, 3)]);
    Step(s, Begin(Dropping(k, 0)), s1);
    Step(s1, Move(j), s2);
    assert WithoutClients(s2, Just(k)).clients == s.clients - {k};
    Step(s2, Move(j), s3);
    assert WithoutHandles(s3, Just(k)) == s3;
    Step(s3, Move(j), s');
    Then(s, s1, s2);
    Then(s, s2, s3);
    Then(s, s3, s');
  }

  /** Opting out: the teardown, then the store. */
  lemma OptOut(s: State, k: Key) returns (s': State)
    requires k !in s.watchers && k.kind !in s.owner
    ensures Leads(s, s')
    ensures s' == s.(actors := s.actors + [Dropping(k, 3)], health := s.health - {k.HealthKey()},
                     clients := s.clients - {k}, active := s.active - {k})
  {
    var s1 := TeardownRuns(s, k);
    s' := s1.(active := s.active - {k});
    Step(s1, Opt(k, false), s');
    Then(s, s1, s');
  }

  /** A watcher that finds its target gone. */
  lemma CleanExit(s: State, t: nat) returns (s': State)
    requires t < |s.tasks| && s.tasks[t].stage.Running? && s.tasks[t].key !in s.active
    ensures Leads(s, s')
    ensures s' == s.(tasks := s.tasks[t := s.tasks[t].(stage := Exited)],
        health := s.health - {s.tasks[t].key.HealthKey()})
  {
    var s1 := s.(tasks := s.tasks[t := s.tasks[t].(stage := Leaving)]);
    s' := s.(tasks := s.tasks[t := s.tasks[t].(stage := Exited)], health := s.health - {s.tasks[t].key.HealthKey()});
    Step(s, Leave(t), s1);
    Step(s1, Deregister(t), s');
    Then(s, s1, s');
  }

  lemma RefusedAdopt(s: State, k: Key) returns (s': State)
    requires k in s.watchers && k.kind !in s.owner
    ensures Leads(s, s')
    ensures s' == s.(actors := s.actors + [Finished(false)], active := s.active + {k})
  {
    var s1 := s.(active := s.active + {k});
    var s2 := s1.(actors := s.actors + [Adopting(k, Waiting)]);
    s' := s1.(actors := s.actors + [Finished(false)]);
    Step(s, Opt(k, true), s1);
    Step(s1, Begin(Adopting(k, Waiting)), s2);
    Step(s2, Move(|s.actors|), s');
    Then(s, s1, s2);
    Then(s, s2, s');
  }

  /** A toggle-off that overtakes a boot resume after its last look at the store: the
      resume adopts the target all the same, the watcher exits at once and leaves its
      handle, and the next toggle-on is refused. Everybody is done, the target is in
      the store, and nothing watches it. */
  lemma StaleHandleBlocksAdoption(k: Key) returns (s: State)
    ensures Leads(Init({k}), s)
    ensures k in s.active && s.actors == [Finished(true), Dropping(k, 3), Finished(false)]
    ensures forall t: nat :: !Live(s, t)
    ensures k in s.watchers
  {
    var s0 := Init({k});
    var s1 := ResumeConnects(s0, k);
    var s2 := OptOut(s1, k);
    Then(s0, s1, s2);
    var s3 := AdoptRuns(s2, 0, k);
    Then(s0, s2, s3);
    var s4 := CleanExit(s3, 0);
    Then(s0, s3, s4);
    s := RefusedAdopt(s4, k);
    Then(s0, s4, s);
  }

  /** A boot resume that reads the store while the target is gone, after a logout, and
      deregisters it once a login has put it back: the login's watcher runs without an
      entry, and nobody is left to register one. */
  lemma LateGiveUpHidesAWatcher(k: Key) returns (s: State)
    ensures Leads(Init({k}), s)
    ensures k in s.active && s.actors == [Finished(false), Dropping(k, 3), Finished(true)]
    ensures Live(s, 0) && s.tasks[0].key == k && k in s.watchers && s.watchers[k] == 0
    ensures k.HealthKey() !in s.health
  {
    var s0 := Init({k});
    var s1 := s0.(actors := [Resuming(k, Booting)]);
    var s2 := s0.(actors := [Resuming(k, Checking)], health := {k.HealthKey()});
    Step(s0, Begin(Resuming(k, Booting)), s1);
    Step(s1, Move(0), s2);
    Then(s0, s1, s2);
    var s3 := OptOut(s2, k);
    Then(s0, s2, s3);
    var s4 := LoginOvertakes(s3, k);
    Then(s0, s3, s4);
    s := Seat(s4, 0, Finished(false)).(health := {});
    Step(s4, Move(0), s);
    Then(s0, s4, s);
  }

  /** The resume decides to give up; before it deregisters, a login comes and goes. */
  lemma LoginOvertakes(s: State, k: Key) returns (s': State)
    requires s.actors == [Resuming(k, Checking), Dropping(k, 3)] && k !in s.active && k !in s.watchers
    requires s.owner == map[]
    requires s.tasks == []
    ensures Leads(s, s')
    ensures s'.actors == [Resuming(k, GivingUp), Dropping(k, 3), Finished(true)]
    ensures s'.tasks == [Task(k, Running, false)] && s'.watchers == s.watchers[k := 0]
    ensures s'.health == s.health + {k.HealthKey()} && s'.active == s.active + {k} && s'.owner == map[]
  {
    var s1 := Seat(s, 0, Resuming(k, GivingUp));
    var s2 := s1.(active := s.active + {k});
    var s3 := s2.(actors := [Resuming(k, GivingUp), Dropping(k, 3), Adopting(k, Waiting)]);
    Step(s, Move(0), s1);
    Step(s1, Opt(k, true), s2);
    Step(s2, Begin(Adopting(k, Waiting)), s3);
    Then(s, s1, s2);
    Then(s, s2, s3);
    s' := AdoptRuns(s3, 2, k);
    Then(s, s3, s');
  }
}
