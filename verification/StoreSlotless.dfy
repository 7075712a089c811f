/** `remove_account` takes the data lock twice: once to take the last slot out, and
    again to drop the chat. What others see, write and store in between. */
module StoreSlotless {
  import opened Basics
  import opened Disk
  import opened StoreModel
  import opened StoreMachine
  import opened StoreErasure
  import opened StoreGaps

  ghost predicate DropPending(s: State, chat: int) {
    exists t :: t in s.threads && s.threads[t].pc == SecondLock && s.threads[t].op.chat == chat
  }

  // ---- Only a chat on its way out has no slot ----

  ghost predicate NoEmptySet(s: State, chat: int) {
    forall t :: t in s.threads && s.threads[t].op.Set? && s.threads[t].op.chat == chat ==>
      s.threads[t].op.account.accounts != map[]
  }

  ghost predicate SlotlessIsPending(s: State, chat: int) {
    s.history != [] && (Slotless(chat).In(Memory(s)) ==> DropPending(s, chat))
  }

  predicate CallsNoEmptySet(a: Action, chat: int) {
    a.Call? && a.op.Set? && a.op.chat == chat ==> a.op.account.accounts != map[]
  }

  /** A chat without slot is there only between the two critical sections of a
      `remove_account` that is about to drop it. */
  lemma ZeroSlotsStep(s: State, a: Action, chat: int)
    requires Enabled(s, a) && CallsNoEmptySet(a, chat) && !a.Kill? && !a.PowerLoss?
    requires SlotlessIsPending(s, chat) && NoEmptySet(s, chat)
    ensures SlotlessIsPending(Next(s, a), chat) && NoEmptySet(Next(s, a), chat)
  {
    if a.Mutate? {
      ZeroSlotsByMutation(s, a.t, chat);
    } else if DropPending(s, chat) && !(a.DropChat? && s.threads[a.t].op.chat == chat) {
      var t :| t in s.threads && s.threads[t].pc == SecondLock && s.threads[t].op.chat == chat;
      assert Next(s, a).threads[t] == s.threads[t];
    }
  }

  lemma ZeroSlotsByMutation(s: State, t: nat, chat: int)
    requires Enabled(s, Mutate(t)) && SlotlessIsPending(s, chat) && NoEmptySet(s, chat)
    ensures SlotlessIsPending(Next(s, Mutate(t)), chat)
  {
    var s', op := Next(s, Mutate(t)), s.threads[t].op;
    if Slotless(chat).In(Memory(s)) {
      var u :| u in s.threads && s.threads[u].pc == SecondLock && s.threads[u].op.chat == chat;
      assert s'.threads[u] == s.threads[u];
    } else if Slotless(chat).In(Memory(s')) {
      assert op.RemoveAccount? && op.chat == chat by {
        if !CanMake(op, Slotless(chat)) {
          OnlyTheseMake(op, Memory(s), Slotless(chat));
        }
      }
      assert s'.threads[t].pc == SecondLock;
    }
  }

  // ---- Runs in which no persist takes its snapshot in that gap ----

  /** No snapshot is taken while a drop of this chat is pending. */
  ghost predicate Careful(s: State, a: Action, chat: int) {
    CallsNoEmptySet(a, chat) && (a.Snapshot? ==> !DropPending(s, chat))
  }

  ghost predicate CarefulRun(s: State, actions: seq<Action>, s': State, chat: int)
    decreases |actions|
  {
    if actions == [] then s == s' else
      Enabled(s, actions[0]) && Careful(s, actions[0], chat) &&
          CarefulRun(Next(s, actions[0]), actions[1..], s', chat)
  }

  ghost predicate Tidy(s: State, chat: int) {
    && SlotlessIsPending(s, chat) && NoEmptySet(s, chat)
    && NoEntryHolds(s, Slotless(chat)) && NoneCarries(s, Slotless(chat))
  }

  lemma TidyStep(s: State, a: Action, chat: int)
    requires Inv(s) && Enabled(s, a) && Careful(s, a, chat) && Tidy(s, chat)
    ensures Tidy(Next(s, a), chat)
  {
    if a.Kill? || a.PowerLoss? {
      CleanByRestart(s, a, Slotless(chat));
    } else {
      ZeroSlotsStep(s, a, chat);
      if a.Mutate? || a.DropChat? {
        CleanByWrite(s, a, Slotless(chat));
      } else if a.FileStep? || a.Finish? || a.Fail? {
        CleanByFileStep(s, a, Slotless(chat));
      } else {
        CleanByLocalStep(s, a, Slotless(chat));
      }
    }
  }

  lemma {:induction false} TidyRun(s: State, actions: seq<Action>, s': State, chat: int)
    requires Inv(s) && Tidy(s, chat) && CarefulRun(s, actions, s', chat)
    ensures Inv(s') && Tidy(s', chat)
    decreases |actions|
  {
    if actions != [] {
      TidyStep(s, actions[0], chat);
      StepKeeps(s, actions[0]);
      TidyRun(Next(s, actions[0]), actions[1..], s', chat);
    }
  }

  /** From a file in which the chat has a slot or is not there, through any calls but
      a `set` of an empty account, kills and power losses: as long as no snapshot is
      taken while a drop of the chat is pending, no restart begins with the chat
      without account, and one can come only through the gap that is open now, that
      is exactly when memory holds the chat without slot, its drop pending. */
  lemma SlotlessRestartIff(s0: State, actions: seq<Action>, s: State, chat: int)
    requires Init(s0) && !Slotless(chat).In(Memory(s0)) && CarefulRun(s0, actions, s, chat)
    ensures forall a :: !RestartFinds(s, a, Slotless(chat))
    ensures CanBeFound(s, Slotless(chat)) <==> s.history != [] && Slotless(chat).In(Memory(s))
    ensures CanBeFound(s, Slotless(chat)) ==> DropPending(s, chat)
  {
    InitEstablishes(s0);
    TidyRun(s0, actions, s, chat);
    FoundIff(s, Slotless(chat));
    forall a | Enabled(s, a) && (a.Kill? || a.PowerLoss?)
      ensures !Slotless(chat).In(Memory(Next(s, a)))
    {
      CleanByRestart(s, a, Slotless(chat));
    }
  }

  // ---- A persist in the gap ----

  /** An operation on another chat writes or not whatever this chat's record is. */
  lemma OtherChatWritesAlike(op: Op, data: StoreData, chat: int, account: Account)
    requires op.chat != chat
    ensures var gap := data[chat := account];
            && Apply(op, gap).persists == Apply(op, data).persists
            && Apply(op, gap).dropsChat == Apply(op, data).dropsChat
            && chat in Apply(op, gap).data && Apply(op, gap).data[chat] == account
  {
    var gap := data[chat := account];
    assert op.chat in gap <==> op.chat in data;
    if op.chat in data {
      assert gap[op.chat] == data[op.chat];
    }
  }

  /** In the gap the persist of any writing call for another chat, say its watcher's
      cursor write, takes the slotless chat to disk, and a restart then begins with a
      chat that has no account. */
  lemma GapCanReachTheDisk(data: StoreData, chat: int, slotId: string, other: Op) returns (s: State)
    requires chat in data && data[chat].accounts.Keys == {slotId}
    requires other.chat != chat && Apply(other, data).persists && !Apply(other, data).dropsChat
    ensures Init(Stored(data)) && Leads(Stored(data), s)
    ensures s.threads.Keys == {1, 2} && s.threads[1].op == RemoveAccount(chat, slotId) && s.threads[2].op == other
    ensures Enabled(s, Kill) && chat in Memory(Next(s, Kill)) && Memory(Next(s, Kill))[chat].accounts == map[]
  {
    var s0 := Stored(data);
    assert (data[chat].accounts - {slotId}).Keys == {};
    assert data[chat].accounts - {slotId} == map[];
    var s1 := CallAndWrite(s0, 1, RemoveAccount(chat, slotId));
    OtherChatWritesAlike(other, data, chat, Memory(s1)[chat]);
    assert Memory(s1) == data[chat := Memory(s1)[chat]];
    var s2 := WriteAndSnapshot(s1, 2, other);
    Then(s0, s1, s2);
    s := ReplaceFile(s2, 2, 2);
    Then(s0, s2, s);
    assert |s.history| == 3 && s.history[2] == Apply(other, s1.history[1]).data;
  }

  // ---- The same gap and a slot added in it ----

  ghost predicate HasSlot(s: State, chat: int, slotId: string) {
    s.history != [] && chat in Memory(s) && slotId in Memory(s)[chat].accounts
  }

  /** No crash, and no other call of this chat enters its critical section. */
  predicate LeavesChat(s: State, a: Action, chat: int) {
    !a.Kill? && !a.PowerLoss? && (a.Mutate? && a.t in s.threads ==> s.threads[a.t].op.chat != chat)
  }

  ghost predicate LeavingRun(s: State, actions: seq<Action>, s': State, chat: int)
    decreases |actions|
  {
    if actions == [] then s == s' else
      Enabled(s, actions[0]) && LeavesChat(s, actions[0], chat) &&
          LeavingRun(Next(s, actions[0]), actions[1..], s', chat)
  }

  lemma SlotStaysByStep(s: State, a: Action, chat: int, slotId: string)
    requires Enabled(s, a) && LeavesChat(s, a, chat) && HasSlot(s, chat, slotId) && !DropPending(s, chat)
    ensures HasSlot(Next(s, a), chat, slotId) && !DropPending(Next(s, a), chat)
  {
    var s' := Next(s, a);
    if a.DropChat? {
      assert s.threads[a.t].pc == SecondLock;
    }
    forall t | t in s'.threads && s'.threads[t].pc == SecondLock
      ensures s'.threads[t].op.chat != chat
    {
      assert t in s.threads && s'.threads[t].op == s.threads[t].op;
    }
  }

  lemma {:induction false} SlotStays(s: State, actions: seq<Action>, s': State, chat: int, slotId: string)
    requires HasSlot(s, chat, slotId) && !DropPending(s, chat) && LeavingRun(s, actions, s', chat)
    ensures HasSlot(s', chat, slotId)
    decreases |actions|
  {
    if actions != [] {
      SlotStaysByStep(s, actions[0], chat, slotId);
      SlotStays(Next(s, actions[0]), actions[1..], s', chat, slotId);
    }
  }

  ghost predicate SlotIsSafe(s: State, chat: int, slotId: string) {
    forall actions, s' :: LeavingRun(s, actions, s', chat) ==> HasSlot(s', chat, slotId)
  }

  lemma PendingDropTakesSlot(s: State, t: nat, chat: int, slotId: string)
    requires s.history != [] && s.disk.entries != []
    requires t in s.threads && s.threads[t].pc == SecondLock && s.threads[t].op.chat == chat
    ensures !SlotIsSafe(s, chat, slotId)
  {
    var a := DropChat(t);
    var s' := Next(s, a);
    assert [a][0] == a && [a][1..] == [];
    assert LeavingRun(s', [], s', chat);
    assert LeavingRun(s, [a], s', chat) && !HasSlot(s', chat, slotId);
  }

  /** A slot in memory, say one that an `add_account` just stored, stays there through
      every run in which no other call of the chat mutates, exactly when no
      `remove_account` of the chat waits to drop the whole chat. */
  lemma AddedSlotIsSafeIff(s: State, chat: int, slotId: string)
    requires HasSlot(s, chat, slotId) && s.disk.entries != []
    ensures SlotIsSafe(s, chat, slotId) <==> !DropPending(s, chat)
  {
    if DropPending(s, chat) {
      var t :| t in s.threads && s.threads[t].pc == SecondLock && s.threads[t].op.chat == chat;
      PendingDropTakesSlot(s, t, chat, slotId);
    } else {
      forall actions, s' | LeavingRun(s, actions, s', chat)
        ensures HasSlot(s', chat, slotId)
      {
        SlotStays(s, actions, s', chat, slotId);
      }
    }
  }
}
