/** What a kill or a power loss may still find: exactly when a chat that memory has
    lost, or a chat without any slot, can be there after a restart although no call
    makes it so again. */
module StoreErasure {
  import opened Basics
  import opened Disk
  import opened StoreModel
  import opened StoreMachine

  /** What one looks for in the data. */
  datatype Mark =
    | Present(chat: int)
    | Slotless(chat: int)   // the chat is there and has no account
  {
    predicate In(data: StoreData) {
      chat in data && (Slotless? ==> data[chat].accounts == map[])
    }
  }

  /** The operations that can bring it about. */
  predicate CanMake(op: Op, mark: Mark) {
    match mark
    case Present(chat) => Recreates(op, chat)
    case Slotless(chat) => op.chat == chat && (op.RemoveAccount? || (op.Set? && op.account.accounts == map[]))
  }

  lemma OnlyTheseMake(op: Op, data: StoreData, mark: Mark)
    requires !mark.In(data) && !CanMake(op, mark)
    ensures !mark.In(Apply(op, data).data)
  {
    if mark.Present? {
      OnlyAddingRecreates(op, data, mark.chat);
    }
  }

  lemma OtherChatsKeepMark(op: Op, data: StoreData, mark: Mark)
    requires op.chat != mark.chat
    ensures mark.In(Apply(op, data).data) <==> mark.In(data)
  {
  }

  lemma ReloadKeepsMark(data: StoreData, mark: Mark)
    ensures mark.In(Reload(data)) <==> mark.In(data)
  {
  }

  /** The state file, if this entry came back, would hold it. */
  predicate EntryHolds(s: State, e: Entry<nat>, mark: Mark) {
    e.Some? && e.value.content.Whole? && e.value.content.plain < |s.history| &&
        mark.In(s.history[e.value.content.plain])
  }

  /** The snapshot that a persist in progress has yet to rename into place. */
  function Carried(pc: Pc): Option<nat> {
    match pc
    case Snapped(v) => Some(v)
    case Created(v) => Some(v)
    case Written(v) => Some(v)
    case Synced(v) => Some(v)
    case Chmodded(v) => Some(v)
    case _ => None
  }

  predicate Carries(s: State, pc: Pc, mark: Mark) {
    Carried(pc).Some? && Carried(pc).value < |s.history| && mark.In(s.history[Carried(pc).value])
  }

  ghost predicate NoEntryHolds(s: State, mark: Mark) {
    forall i :: 0 <= i < |s.disk.entries| ==> !EntryHolds(s, s.disk.entries[i], mark)
  }

  ghost predicate NoneCarries(s: State, mark: Mark) {
    forall t :: t in s.threads ==> !Carries(s, s.threads[t].pc, mark)
  }

  /** Neither memory, nor a directory entry, nor a snapshot on its way to one. */
  ghost predicate Clean(s: State, mark: Mark) {
    s.history != [] && !mark.In(Memory(s)) && NoEntryHolds(s, mark) && NoneCarries(s, mark)
  }

  predicate Makes(s: State, a: Action, mark: Mark) {
    a.Mutate? && a.t in s.threads && CanMake(s.threads[a.t].op, mark)
  }

  ghost predicate NeverMakes(s: State, actions: seq<Action>, mark: Mark)
    decreases |actions|
  {
    actions == [] ||
    (!Makes(s, actions[0], mark) && (Enabled(s, actions[0]) ==> NeverMakes(Next(s, actions[0]), actions[1..], mark)))
  }

  predicate RestartFinds(s: State, a: Action, mark: Mark) {
    Enabled(s, a) && (a.Kill? || a.PowerLoss?) && mark.In(Memory(Next(s, a)))
  }

  /** Some run of other calls, kills and power losses ends in a restart that finds it. */
  ghost predicate CanBeFound(s: State, mark: Mark) {
    exists actions, s', a :: Reaches(s, actions, s') && NeverMakes(s, actions, mark) && RestartFinds(s', a, mark)
  }

  /** No run of any other calls, kills and power losses brings the chat back. */
  ghost predicate GoneForGood(s: State, chat: int) {
    forall actions, s' :: Reaches(s, actions, s') && NeverAdds(s, actions, chat) && s'.history != [] ==>
        chat !in Memory(s')
  }

  // ---- Clean states stay clean ----

  lemma DirectoryAfterWrite(s: State, s': State, mark: Mark)
    requires Inv(s) && s.history <= s'.history && s'.disk == s.disk && NoEntryHolds(s, mark)
    ensures NoEntryHolds(s', mark)
  {
    forall i | 0 <= i < |s'.disk.entries|
      ensures !EntryHolds(s', s'.disk.entries[i], mark)
    {
      assert EntryOk(s.disk.entries[i], |s.history|) && !EntryHolds(s, s.disk.entries[i], mark);
    }
  }

  lemma CarriersAfterWrite(s: State, s': State, t: nat, mark: Mark)
    requires Inv(s) && s.history <= s'.history && NoneCarries(s, mark)
    requires t in s'.threads && s'.threads == s.threads[t := s'.threads[t]] && Carried(s'.threads[t].pc) == None
    ensures NoneCarries(s', mark)
  {
    forall u | u in s'.threads
      ensures !Carries(s', s'.threads[u].pc, mark)
    {
      if u != t {
        assert ThreadOk(s, s.threads[u]) && !Carries(s, s.threads[u].pc, mark);
      }
    }
  }

  lemma CleanByWrite(s: State, a: Action, mark: Mark)
    requires Inv(s) && Enabled(s, a) && (a.Mutate? || a.DropChat?)
    requires NoEntryHolds(s, mark) && NoneCarries(s, mark)
    ensures NoEntryHolds(Next(s, a), mark) && NoneCarries(Next(s, a), mark)
    ensures !mark.In(Memory(s)) && !Makes(s, a, mark) ==> !mark.In(Memory(Next(s, a)))
  {
    if a.Mutate? && !mark.In(Memory(s)) && !Makes(s, a, mark) {
      OnlyTheseMake(s.threads[a.t].op, Memory(s), mark);
    }
    DirectoryAfterWrite(s, Next(s, a), mark);
    CarriersAfterWrite(s, Next(s, a), a.t, mark);
  }

  lemma CleanByRestart(s: State, a: Action, mark: Mark)
    requires Inv(s) && Enabled(s, a) && NoEntryHolds(s, mark) && (a.Kill? || a.PowerLoss?)
    ensures Clean(Next(s, a), mark)
  {
    var s' := Next(s, a);
    forall i | 0 <= i < |s.disk.entries|
      ensures AfterOutage(s.disk.entries[i]) == s.disk.entries[i] && !EntryHolds(s', s.disk.entries[i], mark)
    {
      assert EntryOk(s.disk.entries[i], |s.history|) && !EntryHolds(s, s.disk.entries[i], mark);
    }
  }

  lemma CleanByFileStep(s: State, a: Action, mark: Mark)
    requires Inv(s) && Enabled(s, a) && (a.FileStep? || a.Finish? || a.Fail?)
    requires NoEntryHolds(s, mark) && NoneCarries(s, mark)
    ensures NoEntryHolds(Next(s, a), mark) && NoneCarries(Next(s, a), mark) && Next(s, a).history == s.history
  {
    var s' := Next(s, a);
    assert ThreadOk(s, s.threads[a.t]) && !Carries(s, s.threads[a.t].pc, mark);
    forall i | 0 <= i < |s'.disk.entries|
      ensures !EntryHolds(s', s'.disk.entries[i], mark)
    {
      assert i < |s.disk.entries| ==> !EntryHolds(s, s.disk.entries[i], mark);
      assert !EntryHolds(s, Last(s.disk.entries), mark);
    }
    forall u | u in s'.threads
      ensures !Carries(s', s'.threads[u].pc, mark)
    {
      assert u != a.t ==> !Carries(s, s.threads[u].pc, mark);
    }
  }

  lemma CleanByLocalStep(s: State, a: Action, mark: Mark)
    requires Enabled(s, a) && (a.Call? || a.Acquire? || a.Leave? || (a.Snapshot? && !mark.In(Memory(s))))
    requires NoEntryHolds(s, mark) && NoneCarries(s, mark)
    ensures NoEntryHolds(Next(s, a), mark) && NoneCarries(Next(s, a), mark) && Next(s, a).history == s.history
  {
    var s' := Next(s, a);
    assert forall e :: EntryHolds(s', e, mark) == EntryHolds(s, e, mark);
    forall u | u in s'.threads
      ensures !Carries(s', s'.threads[u].pc, mark)
    {
      assert u in s.threads ==> !Carries(s, s.threads[u].pc, mark);
    }
  }

  lemma CleanStep(s: State, a: Action, mark: Mark)
    requires Inv(s) && Enabled(s, a) && Clean(s, mark) && !Makes(s, a, mark)
    ensures Clean(Next(s, a), mark)
  {
    if a.Mutate? || a.DropChat? {
      CleanByWrite(s, a, mark);
    } else if a.Kill? || a.PowerLoss? {
      CleanByRestart(s, a, mark);
    } else if a.FileStep? || a.Finish? || a.Fail? {
      CleanByFileStep(s, a, mark);
    } else {
      CleanByLocalStep(s, a, mark);
    }
  }

  lemma {:induction false} CleanRun(s: State, actions: seq<Action>, s': State, mark: Mark)
    requires Inv(s) && Clean(s, mark) && Reaches(s, actions, s') && NeverMakes(s, actions, mark)
    ensures Inv(s') && Clean(s', mark)
    decreases |actions|
  {
    if actions != [] {
      CleanStep(s, actions[0], mark);
      StepKeeps(s, actions[0]);
      CleanRun(Next(s, actions[0]), actions[1..], s', mark);
    }
  }

  // ---- Any other state can be unlucky ----

  lemma RestartIsARun(s: State, a: Action, mark: Mark)
    requires RestartFinds(s, a, mark)
    ensures CanBeFound(s, mark)
  {
    assert Reaches(s, [], s) && NeverMakes(s, [], mark);
  }

  lemma StepLeads(s: State, a: Action, mark: Mark)
    requires Enabled(s, a) && !Makes(s, a, mark) && CanBeFound(Next(s, a), mark)
    ensures CanBeFound(s, mark)
  {
    var s1 := Next(s, a);
    var rest, s', b :| Reaches(s1, rest, s') && NeverMakes(s1, rest, mark) && RestartFinds(s', b, mark);
    var actions := [a] + rest;
    assert actions[0] == a && actions[1..] == rest;
    assert Reaches(s, actions, s') && NeverMakes(s, actions, mark);
  }

  lemma EntryIsFound(s: State, i: nat, mark: Mark)
    requires Inv(s) && i < |s.disk.entries| && EntryHolds(s, s.disk.entries[i], mark)
    ensures RestartFinds(s, PowerLoss(i), mark) && CanBeFound(s, mark)
  {
    assert EntryOk(s.disk.entries[i], |s.history|);
    assert AfterOutage(s.disk.entries[i]) == s.disk.entries[i];
    assert Outage(s.disk, i).entries == [s.disk.entries[i]];
    ReloadKeepsMark(s.history[s.disk.entries[i].value.content.plain], mark);
    RestartIsARun(s, PowerLoss(i), mark);
  }

  /** File steps before the rename. */
  function StepsLeft(pc: Pc): nat {
    match pc
    case Snapped(_) => 4
    case Created(_) => 3
    case Written(_) => 2
    case Synced(_) => 1
    case _ => 0
  }

  lemma RenamedIsFound(s: State, t: nat, mark: Mark)
    requires Inv(s) && t in s.threads && s.threads[t].pc.Chmodded? && Carries(s, s.threads[t].pc, mark)
    ensures CanBeFound(Next(s, FileStep(t)), mark)
  {
    var s' := Next(s, FileStep(t));
    StepKeeps(s, FileStep(t));
    assert ThreadOk(s, s.threads[t]);
    assert EntryHolds(s', Last(s'.disk.entries), mark);
    EntryIsFound(s', |s'.disk.entries| - 1, mark);
  }

  lemma StillCarries(s: State, t: nat, mark: Mark)
    requires Inv(s) && t in s.threads && !s.threads[t].pc.Chmodded? && Carries(s, s.threads[t].pc, mark)
    ensures var s' := Next(s, FileStep(t));
            t in s'.threads && Carries(s', s'.threads[t].pc, mark) &&
                StepsLeft(s'.threads[t].pc) < StepsLeft(s.threads[t].pc)
  {
  }

  /** A persist in progress carries its snapshot to the directory if nothing fails. */
  lemma {:induction false} CarriedIsFound(s: State, t: nat, mark: Mark)
    requires Inv(s) && t in s.threads && Carries(s, s.threads[t].pc, mark)
    ensures CanBeFound(s, mark)
    decreases StepsLeft(s.threads[t].pc)
  {
    if s.threads[t].pc.Chmodded? {
      RenamedIsFound(s, t, mark);
    } else {
      StepKeeps(s, FileStep(t));
      StillCarries(s, t, mark);
      CarriedIsFound(Next(s, FileStep(t)), t, mark);
    }
    StepLeads(s, FileStep(t), mark);
  }

  lemma {:induction false} BoundedBy(ids: set<nat>) returns (bound: nat)
    ensures forall i :: i in ids ==> i < bound
  {
    if ids == {} {
      bound := 0;
    } else {
      var i :| i in ids;
      var rest := BoundedBy(ids - {i});
      bound := if i < rest then rest else i + 1;
      assert forall j :: j in ids ==> j == i || j in ids - {i};
    }
  }

  lemma SnapshotIsFound(s: State, t: nat, mark: Mark)
    requires Inv(s) && mark.In(Memory(s)) && t in s.threads && s.threads[t].pc == Locked
    ensures CanBeFound(s, mark)
  {
    StepKeeps(s, Snapshot(t));
    CarriedIsFound(Next(s, Snapshot(t)), t, mark);
    StepLeads(s, Snapshot(t), mark);
  }

  lemma PersistIsFound(s: State, t: nat, mark: Mark)
    requires Inv(s) && mark.In(Memory(s)) && t in s.threads && s.threads[t].pc == Waiting && s.lock == None
    ensures CanBeFound(s, mark)
  {
    StepKeeps(s, Acquire(t));
    SnapshotIsFound(Next(s, Acquire(t)), t, mark);
    StepLeads(s, Acquire(t), mark);
  }

  /** A writing call for another chat. */
  lemma WriteIsFound(s: State, t: nat, slot: AccountSlot, mark: Mark)
    requires Inv(s) && s.lock == None && mark.In(Memory(s))
    requires t in s.threads && s.threads[t].pc == Ready && s.threads[t].op == AddAccount(mark.chat + 1, slot)
    ensures CanBeFound(s, mark)
  {
    OtherChatsKeepMark(s.threads[t].op, Memory(s), mark);
    StepKeeps(s, Mutate(t));
    PersistIsFound(Next(s, Mutate(t)), t, mark);
    StepLeads(s, Mutate(t), mark);
  }

  /** A call that writes for another chat takes what memory holds to a snapshot. */
  lemma MemoryIsFoundUnlocked(s: State, mark: Mark)
    requires Inv(s) && s.lock == None && mark.In(Memory(s))
    ensures CanBeFound(s, mark)
  {
    var t := BoundedBy(s.threads.Keys);
    var slot := AccountSlot("", "", "", "", None, None);
    var a := Call(t, AddAccount(mark.chat + 1, slot));
    StepKeeps(s, a);
    WriteIsFound(Next(s, a), t, slot, mark);
    StepLeads(s, a, mark);
  }

  lemma MemoryIsFound(s: State, mark: Mark)
    requires Inv(s) && mark.In(Memory(s))
    ensures CanBeFound(s, mark)
  {
    if s.lock == None {
      MemoryIsFoundUnlocked(s, mark);
    } else {
      var t := s.lock.value;
      var a := if s.threads[t].pc.Renamed? then Finish(t, true) else Fail(t);
      StepKeeps(s, a);
      MemoryIsFoundUnlocked(Next(s, a), mark);
      StepLeads(s, a, mark);
    }
  }

  /** In every state that a run can reach: some later restart, without another call
      that brings it about, finds the chat (or finds it without any slot) exactly
      when memory, a directory entry or the snapshot of a persist in progress holds
      it so. */
  lemma RestartCanFindIff(s0: State, before: seq<Action>, s: State, mark: Mark)
    requires Init(s0) && Reaches(s0, before, s)
    ensures CanBeFound(s, mark) <==> !Clean(s, mark)
  {
    InitEstablishes(s0);
    RunsKeep(s0, before, s);
    FoundIff(s, mark);
  }

  lemma FoundIff(s: State, mark: Mark)
    requires Inv(s)
    ensures CanBeFound(s, mark) <==> !Clean(s, mark)
  {
    if Clean(s, mark) && CanBeFound(s, mark) {
      var actions, s', a :| Reaches(s, actions, s') && NeverMakes(s, actions, mark) && RestartFinds(s', a, mark);
      CleanRun(s, actions, s', mark);
      CleanByRestart(s', a, mark);
    } else if mark.In(Memory(s)) {
      MemoryIsFound(s, mark);
    } else if i :| 0 <= i < |s.disk.entries| && EntryHolds(s, s.disk.entries[i], mark) {
      EntryIsFound(s, i, mark);
    } else if t :| t in s.threads && Carries(s, s.threads[t].pc, mark) {
      CarriedIsFound(s, t, mark);
    }
  }

  // ---- Gone for good ----

  lemma {:induction false} NeverAddsMakes(s: State, actions: seq<Action>, chat: int)
    ensures NeverAdds(s, actions, chat) <==> NeverMakes(s, actions, Present(chat))
    decreases |actions|
  {
    if actions != [] && Enabled(s, actions[0]) {
      NeverAddsMakes(Next(s, actions[0]), actions[1..], chat);
    }
  }

  lemma {:induction false} ThenRestart(s: State, actions: seq<Action>, s': State, a: Action, chat: int)
    requires Reaches(s, actions, s') && NeverAdds(s, actions, chat) && Enabled(s', a) && (a.Kill? || a.PowerLoss?)
    ensures Reaches(s, actions + [a], Next(s', a)) && NeverAdds(s, actions + [a], chat)
    decreases |actions|
  {
    var all := actions + [a];
    if actions == [] {
      assert all[0] == a && all[1..] == [];
      assert Reaches(Next(s', a), [], Next(s', a)) && NeverAdds(Next(s', a), [], chat);
    } else {
      assert all[0] == actions[0] && all[1..] == actions[1..] + [a];
      ThenRestart(Next(s, actions[0]), actions[1..], s', a, chat);
    }
  }

  /** At every moment of every run: the chat can never come back by itself exactly
      when neither memory, nor any directory entry a crash may find, nor a snapshot
      on its way there holds it. */
  lemma GoneForGoodIff(s0: State, before: seq<Action>, s: State, chat: int)
    requires Init(s0) && Reaches(s0, before, s)
    ensures GoneForGood(s, chat) <==> Clean(s, Present(chat))
  {
    InitEstablishes(s0);
    RunsKeep(s0, before, s);
    CleanIsExact(s, chat);
  }

  lemma CleanIsExact(s: State, chat: int)
    requires Inv(s)
    ensures GoneForGood(s, chat) <==> Clean(s, Present(chat))
  {
    var mark := Present(chat);
    if Clean(s, mark) {
      forall actions, s' | Reaches(s, actions, s') && NeverAdds(s, actions, chat) && s'.history != []
        ensures chat !in Memory(s')
      {
        NeverAddsMakes(s, actions, chat);
        CleanRun(s, actions, s', mark);
      }
    } else {
      FoundIff(s, mark);
      var actions, s', a :| Reaches(s, actions, s') && NeverMakes(s, actions, mark) && RestartFinds(s', a, mark);
      NeverAddsMakes(s, actions, chat);
      ThenRestart(s, actions, s', a, chat);
    }
  }

  // ---- After a removal that was found, and one that was not ----

  /** A directory entry from before version v that holds the chat. */
  ghost predicate OlderEntryHolds(s: State, chat: int, v: nat) {
    exists i :: 0 <= i < |s.disk.entries| && VersionOf(s.disk.entries[i]) < v &&
        EntryHolds(s, s.disk.entries[i], Present(chat))
  }

  lemma ErasedIsCleanIff(s: State, chat: int, v: nat)
    requires Inv(s) && Erased(s, chat, v, VisibleVersion(s))
    ensures Clean(s, Present(chat)) <==> !OlderEntryHolds(s, chat, v)
    ensures v <= DurableVersion(s) ==> Clean(s, Present(chat))
  {
    forall t | t in s.threads
      ensures !Carries(s, s.threads[t].pc, Present(chat))
    {
      assert ThreadOk(s, s.threads[t]);
    }
    forall i | 0 <= i < |s.disk.entries| && EntryHolds(s, s.disk.entries[i], Present(chat))
      ensures VersionOf(s.disk.entries[i]) < v && DurableVersion(s) < v
    {
      assert VersionOf(s.disk.entries[0]) <= VersionOf(s.disk.entries[i]);
    }
  }

  /** `remove` returned Ok(true) and no power loss has come since. The chat is gone
      for good exactly when no directory entry older than the removal holds it any
      more; so it is when the directory fsync of the removal went through, and as
      soon as that of any later call does. While an older entry holds it, a power
      loss can bring it back. */
  lemma RemovalIsFinalIff(s0: State, before: seq<Action>, s: State, t: nat, chat: int,
                          during: seq<Action>, s1: State, after: seq<Action>, s2: State)
    requires Init(s0) && Reaches(s0, before, s) && RemovedOk(s, t, chat, during, s1)
    requires Reaches(s1, after, s2) && NeverAdds(s1, after, chat) && NoPowerLoss(after)
    ensures GoneForGood(s2, chat) <==> !OlderEntryHolds(s2, chat, |s.history|)
    ensures (exists i :: Enabled(s2, PowerLoss(i)) && chat in Memory(Next(s2, PowerLoss(i)))) <==>
            OlderEntryHolds(s2, chat, |s.history|)
    ensures s1.threads[t].dirSynced ==> GoneForGood(s2, chat)
    ensures forall u :: Enabled(s2, Finish(u, true)) ==> GoneForGood(Next(s2, Finish(u, true)), chat)
  {
    var v := |s.history|;
    ErasedAtReturn(s0, before, s, t, chat, during, s1);
    ErasedRun(s1, after, s2, chat, v);
    RunsKeep(s1, after, s2);
    ErasedIsCleanIff(s2, chat, v);
    CleanIsExact(s2, chat);
    PowerLossIff(s2, chat, v);
    forall u | Enabled(s2, Finish(u, true))
      ensures GoneForGood(Next(s2, Finish(u, true)), chat)
    {
      SyncCleans(s2, chat, v, u);
    }
  }

  lemma PowerLossIff(s: State, chat: int, v: nat)
    requires Inv(s) && Erased(s, chat, v, VisibleVersion(s))
    ensures (exists i :: Enabled(s, PowerLoss(i)) && chat in Memory(Next(s, PowerLoss(i)))) <==>
        OlderEntryHolds(s, chat, v)
  {
    ErasedIsCleanIff(s, chat, v);
    if OlderEntryHolds(s, chat, v) {
      var i :| 0 <= i < |s.disk.entries| && VersionOf(s.disk.entries[i]) < v &&
        EntryHolds(s, s.disk.entries[i], Present(chat));
      EntryIsFound(s, i, Present(chat));
    } else {
      forall i | Enabled(s, PowerLoss(i))
        ensures chat !in Memory(Next(s, PowerLoss(i)))
      {
        CleanStep(s, PowerLoss(i), Present(chat));
      }
    }
  }

  lemma SyncCleans(s: State, chat: int, v: nat, u: nat)
    requires Inv(s) && Erased(s, chat, v, VisibleVersion(s)) && Enabled(s, Finish(u, true))
    ensures GoneForGood(Next(s, Finish(u, true)), chat)
  {
    var s' := Next(s, Finish(u, true));
    ErasedStep(s, Finish(u, true), chat, v);
    StepKeeps(s, Finish(u, true));
    ErasedIsCleanIff(s', chat, v);
    CleanIsExact(s', chat);
  }

  /** A `remove` that finds no chat returns Ok(false) at once, and the chat is gone
      for good exactly when nothing a crash may find holds it: neither a directory
      entry nor the snapshot of a persist in progress. */
  lemma OkFalseIsFinalIff(s0: State, before: seq<Action>, s: State, t: nat, chat: int)
    requires Init(s0) && Reaches(s0, before, s)
    requires Enabled(s, Mutate(t)) && s.threads[t].op == Remove(chat) && chat !in Memory(s)
    ensures var s' := Next(s, Mutate(t));
            && s'.threads[t].pc == Returned(true) && !s'.threads[t].flag
            && (GoneForGood(s', chat) <==> NoEntryHolds(s, Present(chat)) && NoneCarries(s, Present(chat)))
  {
    InitEstablishes(s0);
    RunsKeep(s0, before, s);
    VainRemoveChangesNothing(s, t, chat);
    var s' := Next(s, Mutate(t));
    StepKeeps(s, Mutate(t));
    CleanIsExact(s', chat);
    SameCarriers(s, s', chat);
  }

  lemma VainRemoveChangesNothing(s: State, t: nat, chat: int)
    requires Enabled(s, Mutate(t)) && s.threads[t].op == Remove(chat) && chat !in Memory(s)
    ensures Next(s, Mutate(t)) == s.(threads := s.threads[t := s.threads[t].(flag := false, pc := Returned(true))])
  {
  }

  lemma SameCarriers(s: State, s': State, chat: int)
    requires s'.history == s.history && s'.disk == s.disk && s'.threads.Keys == s.threads.Keys && s.history != []
    requires forall u :: u in s.threads ==> Carried(s'.threads[u].pc) == Carried(s.threads[u].pc)
    ensures Clean(s', Present(chat)) <==>
            chat !in Memory(s) && NoEntryHolds(s, Present(chat)) && NoneCarries(s, Present(chat))
  {
    assert forall u :: u in s.threads ==>
        Carries(s', s'.threads[u].pc, Present(chat)) == Carries(s, s.threads[u].pc, Present(chat));
    assert forall e :: EntryHolds(s', e, Present(chat)) == EntryHolds(s, e, Present(chat));
  }
}
