/** Runs in which the store does less than one might hope. */
module StoreGaps {
  import opened Basics
  import opened Disk
  import opened StoreModel
  import opened StoreMachine

  ghost predicate Leads(s: State, s': State) {
    exists actions :: Reaches(s, actions, s')
  }

  lemma {:induction false} Concatenate(s0: State, first: seq<Action>, s: State, second: seq<Action>, s': State)
    requires Reaches(s0, first, s) && Reaches(s, second, s')
    ensures Reaches(s0, first + second, s')
    decreases |first|
  {
    if first == [] {
      assert first + second == second;
    } else {
      assert (first + second)[1..] == first[1..] + second;
      Concatenate(Next(s0, first[0]), first[1..], s, second, s');
    }
  }

  lemma Then(s0: State, s: State, s': State)
    requires Leads(s0, s) && Leads(s, s')
    ensures Leads(s0, s')
  {
    var first :| Reaches(s0, first, s);
    var second :| Reaches(s, second, s');
    Concatenate(s0, first, s, second, s');
  }

  lemma Step(s: State, a: Action, s': State)
    requires Enabled(s, a) && Next(s, a) == s'
    ensures Leads(s, s')
  {
    assert [a][1..] == [] && Reaches(s', [], s');
    assert Reaches(s, [a], s');
  }

  function Stored(data: StoreData): State {
    State([data], map[], None, Disk(None, [Some(File(Whole(0), true))]))
  }

  /** A call and its first critical section, when that section writes. */
  lemma CallAndWrite(s: State, t: nat, op: Op) returns (s': State)
    requires s.history != [] && s.disk.entries != [] && t !in s.threads
    requires Apply(op, Memory(s)).persists
    ensures Leads(s, s')
    ensures var e := Apply(op, Memory(s));
            s' == s.(history := s.history + [e.data],
                     threads := s.threads[t := Thread(op, e.flag, Some(|s.history|), false,
                                                      if e.dropsChat then SecondLock else Waiting)])
  {
    var s1 := s.(threads := s.threads[t := Thread(op, false, None, false, Ready)]);
    s' := Next(s1, Mutate(t));
    Step(s, Call(t, op), s1);
    Step(s1, Mutate(t), s');
    Then(s, s1, s');
  }

  lemma LockAndSnapshot(s: State, t: nat) returns (s': State)
    requires s.history != [] && s.disk.entries != [] && t in s.threads && s.threads[t].pc == Waiting && s.lock == None
    ensures Leads(s, s')
    ensures s' == At(s, t, Snapped(|s.history| - 1)).(lock := Some(t))
  {
    var s1 := At(s, t, Locked).(lock := Some(t));
    s' := At(s1, t, Snapped(|s.history| - 1));
    Step(s, Acquire(t), s1);
    Step(s1, Snapshot(t), s');
    Then(s, s1, s');
  }

  /** A call whose operation writes, up to holding the persist lock with a fresh snapshot. */
  lemma WriteAndSnapshot(s: State, t: nat, op: Op) returns (s': State)
    requires s.history != [] && s.disk.entries != [] && t !in s.threads && s.lock == None
    requires Apply(op, Memory(s)).persists && !Apply(op, Memory(s)).dropsChat
    ensures Leads(s, s')
    ensures var v := |s.history|; var e := Apply(op, Memory(s));
            s' == State(s.history + [e.data], s.threads[t := Thread(op, e.flag, Some(v), false, Snapped(v))], Some(t),
                        s.disk)
  {
    var s1 := CallAndWrite(s, t, op);
    s' := LockAndSnapshot(s1, t);
    var th := s'.threads[t];
    assert s1.threads[t := th] == s.threads[t := th];
    Then(s, s1, s');
  }

  /** Create, write and fsync of the temporary file. */
  lemma FillTemporary(s: State, t: nat, v: nat) returns (s': State)
    requires s.history != [] && s.disk.entries != [] && t in s.threads && s.threads[t].pc == Snapped(v)
    ensures Leads(s, s')
    ensures s' == At(s, t, Synced(v)).(disk := Disk(Some(File(Whole(v), true)), s.disk.entries))
  {
    var d := s.disk.entries;
    var s1 := At(s, t, Created(v)).(disk := Disk(Some(File(Torn, false)), d));
    var s2 := At(s, t, Written(v)).(disk := Disk(Some(File(Whole(v), false)), d));
    s' := At(s, t, Synced(v)).(disk := Disk(Some(File(Whole(v), true)), d));
    Step(s, FileStep(t), s1);
    Step(s1, FileStep(t), s2);
    Step(s2, FileStep(t), s');
    Then(s, s1, s2);
    Then(s, s2, s');
  }

  /** The five file steps of a holder that meets no error. */
  lemma ReplaceFile(s: State, t: nat, v: nat) returns (s': State)
    requires s.history != [] && s.disk.entries != [] && t in s.threads && s.threads[t].pc == Snapped(v)
    ensures Leads(s, s')
    ensures s' == At(s, t, Renamed(v)).(disk := Disk(None, s.disk.entries + [Some(File(Whole(v), true))]))
  {
    var s3 := FillTemporary(s, t, v);
    var s4 := At(s3, t, Chmodded(v));
    s' := At(s, t, Renamed(v)).(disk := Disk(None, s.disk.entries + [Some(File(Whole(v), true))]));
    Step(s3, FileStep(t), s4);
    Step(s4, FileStep(t), s');
    Then(s, s3, s4);
    Then(s, s4, s');
  }

  /** A `remove` that finds nothing returns Ok(false) at once. */
  lemma VainRemove(s: State, t: nat, chat: int) returns (s': State)
    requires s.history != [] && s.disk.entries != [] && t !in s.threads && chat !in Memory(s)
    ensures Leads(s, s')
    ensures s' == s.(threads := s.threads[t := Thread(Remove(chat), false, None, false, Returned(true))])
  {
    var s1 := s.(threads := s.threads[t := Thread(Remove(chat), false, None, false, Ready)]);
    s' := s.(threads := s.threads[t := Thread(Remove(chat), false, None, false, Returned(true))]);
    Step(s, Call(t, Remove(chat)), s1);
    Step(s1, Mutate(t), s');
    Then(s, s1, s');
  }

  /** Ok(false) promises nothing: after a first removal whose persist failed, a
      second `remove` returns Ok(false) and the next restart has the chat again. */
  lemma OkFalsePromisesNothing(data: StoreData, chat: int) returns (s: State)
    requires chat in data
    ensures Init(Stored(data)) && Leads(Stored(data), s)
    ensures 2 in s.threads && s.threads[2].op == Remove(chat) && s.threads[2].pc == Returned(true) && !s.threads[2].flag
    ensures s.history != [] && chat !in Memory(s)
    ensures Enabled(s, Kill) && chat in Memory(Next(s, Kill))
  {
    var s0 := Stored(data);
    var s2 := FailedRemove(s0, 1, chat);
    s := VainRemove(s2, 2, chat);
    Then(s0, s2, s);
    assert s.disk == s0.disk && s.history[0] == data;
  }

  /** A `remove` whose persist fails after the snapshot. */
  lemma FailedRemove(s: State, t: nat, chat: int) returns (s': State)
    requires s.history != [] && s.disk.entries != [] && t !in s.threads && s.lock == None && chat in Memory(s)
    ensures Leads(s, s')
    ensures s'.history == s.history + [Memory(s) - {chat}] && s'.disk == s.disk && s'.lock == None
    ensures s'.threads == s.threads[t := Thread(Remove(chat), true, Some(|s.history|), false, Returned(false))]
  {
    var s1 := WriteAndSnapshot(s, t, Remove(chat));
    s' := At(s1, t, Returned(false)).(lock := None);
    Step(s1, Fail(t), s');
    Then(s, s1, s');
  }

  lemma UnsyncedFinish(s: State, t: nat) returns (s': State)
    requires s.history != [] && s.disk.entries != [] && t in s.threads && s.threads[t].pc.Renamed?
    ensures Leads(s, s')
    ensures s' == s.(lock := None, threads := s.threads[t := s.threads[t].(dirSynced := false, pc := Returned(true))])
  {
    s' := s.(lock := None, threads := s.threads[t := s.threads[t].(dirSynced := false, pc := Returned(true))]);
    Step(s, Finish(t, false), s');
  }

  /** The directory fsync matters: `remove` returned Ok(true), but that fsync had
      failed (which `persist` tolerates) and a power loss brings the chat back. */
  lemma UnsyncedRemovalCanComeBack(data: StoreData, chat: int) returns (s: State)
    requires chat in data
    ensures Init(Stored(data)) && Leads(Stored(data), s)
    ensures 1 in s.threads && s.threads[1].op == Remove(chat) && s.threads[1].pc == Returned(true) && s.threads[1].flag
    ensures !s.threads[1].dirSynced
    ensures Enabled(s, PowerLoss(0)) && chat in Memory(Next(s, PowerLoss(0)))
    ensures Enabled(s, Kill) && chat !in Memory(Next(s, Kill))
  {
    s := RemoveUnsynced(data, chat);
  }

  lemma RemoveUnsynced(data: StoreData, chat: int) returns (s: State)
    requires chat in data
    ensures Init(Stored(data)) && Leads(Stored(data), s)
    ensures 1 in s.threads && s.threads[1].op == Remove(chat) && s.threads[1].pc == Returned(true) && s.threads[1].flag
    ensures !s.threads[1].dirSynced
    ensures s.history == [data, data - {chat}]
    ensures s.disk == Disk(None, [Some(File(Whole(0), true)), Some(File(Whole(1), true))])
  {
    var s0 := Stored(data);
    var s1 := WriteAndSnapshot(s0, 1, Remove(chat));
    var s2 := ReplaceFile(s1, 1, 1);
    Then(s0, s1, s2);
    s := UnsyncedFinish(s2, 1);
    Then(s0, s2, s);
  }
}
