/** What a finished teardown leaves, when an adoption is refused, and when the
    registry tells the truth. */
module LifecycleFacts {
  import opened Basics
  import opened Targets
  import opened Lifecycle

  // ---- A finished forget ----

  /** The actor's next step would bring something of the chat into the shared state. */
  predicate Brings(a: Actor, chat: int) {
    match a
    case Adopting(k, at) => k.chat == chat && !at.Waiting? && !at.Stored?
    case Resuming(k, at) => k.chat == chat && at.Booting?
    case LookingUp(k, at) => k.chat == chat && at.Caching?
    case _ => false
  }

  ghost predicate Quiet(s: State, chat: int) {
    forall i :: 0 <= i < |s.actors| ==> !Brings(s.actors[i], chat)
  }

  ghost predicate QuietRun(s: State, actions: seq<Action>, s': State, chat: int)
    decreases |actions|
  {
    && Quiet(s, chat)
    && if actions == [] then s == s' else
       Enabled(s, actions[0]) && QuietRun(Next(s, actions[0]), actions[1..], s', chat)
  }

  ghost predicate NoClients(s: State, chat: int, kind: Kind) {
    forall k :: k in s.clients ==> !(k.chat == chat && k.kind == kind)
  }

  ghost predicate NoHandles(s: State, chat: int, kind: Kind) {
    forall k :: k in s.watchers ==> !(k.chat == chat && k.kind == kind)
  }

  ghost predicate NoEntries(s: State, chat: int) {
    forall h :: h in s.health ==> !KeyOfChat(h, chat)
  }

  /** What the first `n` steps of a `forget` have cleared. */
  ghost predicate Cleared(s: State, chat: int, n: nat) {
    && (n >= 1 ==> NoEntries(s, chat))
    && (n >= 2 ==> NoClients(s, chat, Slots))
    && (n >= 3 ==> NoHandles(s, chat, Slots))
    && (n >= 4 ==> NoClients(s, chat, Shares))
    && (n >= 5 ==> NoHandles(s, chat, Shares))
  }

  /** Whatever the step adds is of other chats. */
  ghost predicate AddsOthersOnly(s: State, s': State, chat: int) {
    && (forall h :: h in s'.health && h !in s.health ==> !KeyOfChat(h, chat))
    && (forall k :: k in s'.clients && k !in s.clients ==> k.chat != chat)
    && (forall k :: k in s'.watchers && k !in s.watchers ==> k.chat != chat)
  }

  lemma AdopterAddsOthers(s: State, i: nat, chat: int)
    requires i < |s.actors| && s.actors[i].Adopting? && !Brings(s.actors[i], chat)
    ensures AddsOthersOnly(s, Effect(s, i), chat)
  {
    var k := s.actors[i].key;
    KeyOfChatIsExact(k.chat, k.Target(), chat);
  }

  lemma ActorAddsOthers(s: State, i: nat, chat: int)
    requires i < |s.actors| && !Brings(s.actors[i], chat)
    ensures AddsOthersOnly(s, Effect(s, i), chat)
  {
    if s.actors[i].Adopting? {
      AdopterAddsOthers(s, i, chat);
    } else if s.actors[i].Resuming? {
      var k := s.actors[i].key;
      KeyOfChatIsExact(k.chat, k.Target(), chat);
    }
  }

  lemma StaysClear(s: State, a: Action, chat: int, n: nat)
    requires Enabled(s, a) && Quiet(s, chat) && Cleared(s, chat, n)
    ensures Cleared(Next(s, a), chat, n)
  {
    if a.Move? {
      ActorAddsOthers(s, a.i, chat);
      assert AddsOthersOnly(s, Next(s, a), chat);
    }
  }

  lemma SweepClears(s: State, f: nat)
    requires f < |s.actors| && s.actors[f].Sweeping? && CanMove(s, s.actors[f])
    requires Cleared(s, s.actors[f].chat, s.actors[f].done) && Quiet(s, s.actors[f].chat)
    ensures Cleared(Next(s, Move(f)), s.actors[f].chat, s.actors[f].done + 1)
  {
    StaysClear(s, Move(f), s.actors[f].chat, s.actors[f].done);
  }

  lemma {:induction false} SweepProgress(s: State, actions: seq<Action>, s': State, f: nat, chat: int)
    requires f < |s.actors| && s.actors[f].Sweeping? && s.actors[f].chat == chat
    requires Cleared(s, chat, s.actors[f].done) && QuietRun(s, actions, s', chat)
    ensures f < |s'.actors| && s'.actors[f].Sweeping? && s'.actors[f].chat == chat
    ensures Cleared(s', chat, s'.actors[f].done) && Quiet(s', chat)
    decreases |actions|
  {
    if actions != [] {
      var a := actions[0];
      var s1 := Next(s, a);
      if a == Move(f) {
        SweepClears(s, f);
      } else {
        StaysClear(s, a, chat, s.actors[f].done);
        assert s1.actors[f] == s.actors[f];
      }
      SweepProgress(s1, actions[1..], s', f, chat);
    }
  }

  lemma QuietRunReaches(s: State, actions: seq<Action>, s': State, chat: int)
    requires QuietRun(s, actions, s', chat)
    ensures Reaches(s, actions, s')
    decreases |actions|
  {
    if actions != [] {
      QuietRunReaches(Next(s, actions[0]), actions[1..], s', chat);
    }
  }

  /** `forget`, from its first step to its last, with anything else going on except
      that nobody is bringing in something of this chat: nothing of the chat is
      left, in the registry, in the four maps or as a watcher nobody aborted. */
  lemma ForgetLeavesNothing(s: State, actions: seq<Action>, s': State, f: nat, chat: int)
    requires Reachable(s) && QuietRun(s, actions, s', chat)
    requires f < |s.actors| && s.actors[f] == Sweeping(chat, 0)
    requires f < |s'.actors| && s'.actors[f] == Sweeping(chat, 5)
    ensures forall h :: h in s'.health ==> !KeyOfChat(h, chat)
    ensures forall k :: k in s'.clients || k in s'.watchers ==> k.chat != chat
    ensures forall t :: 0 <= t < |s'.tasks| && s'.tasks[t].key.chat == chat ==> s'.tasks[t].aborted
  {
    SweepProgress(s, actions, s', f, chat);
    forall k | k in s'.clients || k in s'.watchers
      ensures k.chat != chat
    {
      assert k.kind == Slots || k.kind == Shares;
    }
    ReachableKeeps(s);
    QuietRunReaches(s, actions, s', chat);
    RunsKeep(s, actions, s');
    forall t | 0 <= t < |s'.tasks| && s'.tasks[t].key.chat == chat
      ensures s'.tasks[t].aborted
    {
      assert s'.tasks[t].aborted || HandleOf(s', t) || AboutToStore(s', t);
    }
  }

  /** A step of `forget` changes nothing of any other chat. */
  lemma ForgetSparesOthers(s: State, i: nat, k: Key, t: nat)
    requires i < |s.actors| && s.actors[i].Sweeping? && CanMove(s, s.actors[i]) && k.chat != s.actors[i].chat
    ensures var s' := Next(s, Move(i));
            && (k in s'.clients <==> k in s.clients)
            && (k in s'.watchers <==> k in s.watchers)
            && (k in s.watchers ==> s'.watchers[k] == s.watchers[k])
            && (k.HealthKey() in s'.health <==> k.HealthKey() in s.health)
            && |s'.tasks| == |s.tasks|
            && (t < |s.tasks| && s.tasks[t].key == k ==> s'.tasks[t] == s.tasks[t])
  {
    KeyOfChatIsExact(k.chat, k.Target(), s.actors[i].chat);
  }

  // ---- A finished forget_account or forget_shared ----

  /** The actor's next step would bring this key, or the entry it uses, back. */
  predicate BringsKey(a: Actor, key: Key) {
    match a
    case Adopting(k, at) => (k == key || SameEntry(k, key)) && !at.Waiting? && !at.Stored?
    case Resuming(k, at) => SameEntry(k, key) && at.Booting?
    case LookingUp(k, at) => k == key && at.Caching?
    case _ => false
  }

  ghost predicate QuietKey(s: State, key: Key) {
    forall i :: 0 <= i < |s.actors| ==> !BringsKey(s.actors[i], key)
  }

  ghost predicate QuietKeyRun(s: State, actions: seq<Action>, s': State, key: Key)
    decreases |actions|
  {
    && QuietKey(s, key)
    && if actions == [] then s == s' else
       Enabled(s, actions[0]) && QuietKeyRun(Next(s, actions[0]), actions[1..], s', key)
  }

  /** What the first `n` steps have cleared. */
  predicate KeyCleared(s: State, key: Key, n: nat) {
    && (n >= 1 ==> key.HealthKey() !in s.health)
    && (n >= 2 ==> key !in s.clients)
    && (n >= 3 ==> key !in s.watchers)
  }

  lemma KeyStaysClear(s: State, a: Action, key: Key, n: nat)
    requires Enabled(s, a) && QuietKey(s, key) && KeyCleared(s, key, n)
    ensures KeyCleared(Next(s, a), key, n)
  {
    if a.Move? && !s.actors[a.i].Sweeping? && !s.actors[a.i].Finished? {
      EntryShared(s.actors[a.i].key, key);
      assert !BringsKey(s.actors[a.i], key);
    }
  }

  lemma DropClears(s: State, f: nat)
    requires f < |s.actors| && s.actors[f].Dropping? && CanMove(s, s.actors[f])
    requires KeyCleared(s, s.actors[f].key, s.actors[f].done) && QuietKey(s, s.actors[f].key)
    ensures KeyCleared(Next(s, Move(f)), s.actors[f].key, s.actors[f].done + 1)
  {
    KeyStaysClear(s, Move(f), s.actors[f].key, s.actors[f].done);
  }

  lemma {:induction false} DropProgress(s: State, actions: seq<Action>, s': State, f: nat, key: Key)
    requires f < |s.actors| && s.actors[f].Dropping? && s.actors[f].key == key
    requires KeyCleared(s, key, s.actors[f].done) && QuietKeyRun(s, actions, s', key)
    ensures f < |s'.actors| && s'.actors[f].Dropping? && s'.actors[f].key == key
    ensures KeyCleared(s', key, s'.actors[f].done) && QuietKey(s', key) && Reaches(s, actions, s')
    decreases |actions|
  {
    if actions != [] {
      var a := actions[0];
      var s1 := Next(s, a);
      if a == Move(f) {
        DropClears(s, f);
      } else {
        KeyStaysClear(s, a, key, s.actors[f].done);
        assert s1.actors[f] == s.actors[f];
      }
      DropProgress(s1, actions[1..], s', f, key);
    }
  }

  /** The teardown of one slot or share, with anything else going on except that nobody
      is bringing it in: its entry, client and handle are gone, and every watcher it ever
      had was aborted. */
  lemma DropLeavesNothing(s: State, actions: seq<Action>, s': State, f: nat, key: Key)
    requires Reachable(s) && QuietKeyRun(s, actions, s', key)
    requires f < |s.actors| && s.actors[f] == Dropping(key, 0)
    requires f < |s'.actors| && s'.actors[f] == Dropping(key, 3)
    ensures key.HealthKey() !in s'.health && key !in s'.clients && key !in s'.watchers
    ensures forall t :: 0 <= t < |s'.tasks| && s'.tasks[t].key == key ==> s'.tasks[t].aborted
  {
    DropProgress(s, actions, s', f, key);
    ReachableKeeps(s);
    RunsKeep(s, actions, s');
    forall t | 0 <= t < |s'.tasks| && s'.tasks[t].key == key
      ensures s'.tasks[t].aborted
    {
      assert s'.tasks[t].aborted || HandleOf(s', t) || AboutToStore(s', t);
    }
  }

  // ---- Boot resumes and client lookups ----

  /** A boot resume announces its target as disconnected, reads the store, gives up and
      deregisters a target that is gone, leaves one that has a handle alone, and else
      connects and adopts; a failed connect starts over from the store. Looking for a
      handle waits while an adopter holds the map. */
  lemma ResumeDoes(s: State, i: nat)
    requires i < |s.actors| && s.actors[i].Resuming? && CanMove(s, s.actors[i])
    ensures var k, s' := s.actors[i].key, Next(s, Move(i));
            match s.actors[i].resume
            case Booting => k.HealthKey() in s'.health && s'.actors[i] == Resuming(k, Checking)
            case Checking => s'.actors[i] == Resuming(k, if k in s.active then Peeking else GivingUp)
            case GivingUp => k.HealthKey() !in s'.health && s'.actors[i] == Finished(false)
            case Peeking => s'.actors[i] == if k in s.watchers then Finished(false) else Resuming(k, Connecting)
            case Connecting =>
              && s'.actors[i] == Adopting(k, Waiting)
              && Next(s, ConnectFails(i)) == s.(actors := s.actors[i := Resuming(k, Checking)])
    ensures s.actors[i].resume.Peeking? ==> s.actors[i].key.kind !in s.owner
    ensures Next(s, Move(i)).clients == s.clients && Next(s, Move(i)).watchers == s.watchers
    ensures Next(s, Move(i)).tasks == s.tasks && Next(s, Move(i)).owner == s.owner
  {
  }

  /** A lookup ends at a cached client or a target the store has lost, and else connects
      and caches its client; a failed connect ends it with nothing cached. */
  lemma LookupDoes(s: State, i: nat)
    requires i < |s.actors| && s.actors[i].LookingUp? && CanMove(s, s.actors[i])
    ensures var k, s' := s.actors[i].key, Next(s, Move(i));
            match s.actors[i].lookup
            case Looking =>
              && s'.clients == s.clients
              && s'.actors[i] == if k in s.clients || k !in s.active then Finished(false) else LookingUp(k, Dialing)
            case Dialing =>
              && s'.clients == s.clients && s'.actors[i] == LookingUp(k, Caching)
              && Next(s, ConnectFails(i)) == s.(actors := s.actors[i := Finished(false)])
            case Caching => s'.clients == s.clients + {k} && s'.actors[i] == Finished(false)
    ensures Next(s, Move(i)).watchers == s.watchers && Next(s, Move(i)).health == s.health
    ensures Next(s, Move(i)).tasks == s.tasks && Next(s, Move(i)).owner == s.owner
  {
  }

  /** An adopter that holds the lock caches the client, registers the entry, starts the
      watcher, stores its handle and gives the lock back, in that order. */
  lemma AdopterDoes(s: State, i: nat)
    requires i < |s.actors| && s.actors[i].Adopting? && CanMove(s, s.actors[i]) && !s.actors[i].adopt.Waiting?
    ensures var k, s' := s.actors[i].key, Next(s, Move(i));
            match s.actors[i].adopt
            case Waiting => true
            case Free => k in s'.clients && s'.actors[i] == Adopting(k, Cached)
            case Cached => k.HealthKey() in s'.health && s'.actors[i] == Adopting(k, Registered)
            case Registered => Live(s', |s.tasks|) && s'.tasks[|s.tasks|].key == k
                               && s'.actors[i] == Adopting(k, Started(|s.tasks|))
            case Started(t) => k in s'.watchers && s'.watchers[k] == t && s'.actors[i] == Adopting(k, Stored)
            case Stored => k.kind !in s'.owner && s'.actors[i] == Finished(true)
  {
  }

  // ---- Adoption ----

  /** Whether an adoption succeeds is decided under the lock: it is refused exactly
      when some task of that key was never aborted, running or not. When it is
      refused, nothing watches the key exactly when that task has left. */
  lemma AdoptRefusedIff(s: State, i: nat)
    requires Reachable(s) && i < |s.actors| && CanMove(s, s.actors[i])
    requires s.actors[i].Adopting? && s.actors[i].adopt.Waiting?
    ensures var k := s.actors[i].key;
            var refused := Next(s, Move(i)).actors[i] == Finished(false);
            && (refused <==> exists t :: 0 <= t < |s.tasks| && s.tasks[t].key == k && !s.tasks[t].aborted)
            && (refused ==>
                  && k in s.watchers && s.watchers[k] < |s.tasks|
                  && ((exists t: nat :: Live(s, t) && s.tasks[t].key == k) <==> s.tasks[s.watchers[k]].stage.Running?))
  {
    AtMostOneWatcher(s);
    ReachableKeeps(s);
    var k := s.actors[i].key;
    if k in s.watchers {
      var t := s.watchers[k];
      assert s.tasks[t].key == k && !s.tasks[t].aborted;
      assert s.tasks[t].stage.Running? ==> Live(s, t);
    }
  }

  // ---- The registry ----

  /** The two spellings of the default slot share one entry. */
  predicate SameEntry(k: Key, l: Key) {
    k.chat == l.chat && IdentityOf(k.Target()) == IdentityOf(l.Target())
  }

  /** The step takes out the registry entry that this key uses. */
  predicate Deregisters(s: State, a: Action, key: Key)
    requires Enabled(s, a)
  {
    match a
    case Move(i) =>
      (match s.actors[i]
       case Sweeping(chat, n) => n == 0 && chat == key.chat
       case Dropping(k, n) => n == 0 && SameEntry(k, key)
       case Resuming(k, at) => at.GivingUp? && SameEntry(k, key)
       case _ => false)
    case Deregister(t) => SameEntry(s.tasks[t].key, key)
    case _ => false
  }

  lemma EntryShared(k: Key, l: Key)
    ensures k.HealthKey() == l.HealthKey() <==> SameEntry(k, l)
  {
    HealthKeyInjective(k.chat, k.Target(), l.chat, l.Target());
  }

  /** An entry goes exactly when somebody deregisters that very target. */
  lemma EntryLostIff(s: State, a: Action, key: Key)
    requires Enabled(s, a) && key.HealthKey() in s.health
    ensures key.HealthKey() !in Next(s, a).health <==> Deregisters(s, a, key)
  {
    match a
    case Move(i) =>
      if s.actors[i].Sweeping? {
        KeyOfChatIsExact(key.chat, key.Target(), s.actors[i].chat);
      } else if !s.actors[i].Finished? {
        EntryShared(s.actors[i].key, key);
      }
    case Deregister(t) => EntryShared(s.tasks[t].key, key);
    case _ =>
  }

  // ---- A watched target stays watched ----

  /** The store keeps the target, and nobody is tearing it down or taking out its entry. */
  ghost predicate LeftAlone(s: State, key: Key) {
    && key in s.active
    && (forall i :: 0 <= i < |s.actors| ==>
          match s.actors[i]
          case Sweeping(chat, n) => chat != key.chat || n == 5
          case Dropping(k, n) => !SameEntry(k, key) || n == 3
          case Resuming(k, at) => !at.GivingUp? || !SameEntry(k, key)
          case _ => true)
    && (forall t :: 0 <= t < |s.tasks| && s.tasks[t].stage.Leaving? ==> !SameEntry(s.tasks[t].key, key))
  }

  /** A running watcher with its handle stored and its entry in the registry. */
  predicate Watched(s: State, key: Key) {
    && key in s.watchers && Live(s, s.watchers[key]) && s.tasks[s.watchers[key]].key == key
    && key.HealthKey() in s.health
  }

  lemma WatchedByAdopter(s: State, i: nat, key: Key)
    requires Inv(s) && i < |s.actors| && s.actors[i].Adopting? && Watched(s, key)
    ensures Watched(Effect(s, i), key) && Effect(s, i).watchers[key] == s.watchers[key]
  {
    assert AdopterOk(s, s.actors[i]);
  }

  lemma WatchedByMove(s: State, i: nat, key: Key)
    requires Inv(s) && Enabled(s, Move(i)) && Watched(s, key) && LeftAlone(s, key)
    ensures Watched(Effect(s, i), key) && Effect(s, i).watchers[key] == s.watchers[key]
  {
    EntryLostIff(s, Move(i), key);
    if s.actors[i].Adopting? {
      WatchedByAdopter(s, i, key);
    }
  }

  lemma WatchedStep(s: State, a: Action, key: Key)
    requires Inv(s) && Enabled(s, a) && Watched(s, key) && LeftAlone(s, key)
    ensures Watched(Next(s, a), key) && Next(s, a).watchers[key] == s.watchers[key]
  {
    if a.Move? {
      WatchedByMove(s, a.i, key);
    } else {
      EntryLostIff(s, a, key);
    }
  }

  ghost predicate AloneRun(s: State, actions: seq<Action>, s': State, key: Key)
    decreases |actions|
  {
    if actions == [] then s == s' else
      LeftAlone(s, key) && Enabled(s, actions[0]) && AloneRun(Next(s, actions[0]), actions[1..], s', key)
  }

  /** While a target stays in the store and nobody tears it down, the same watcher
      keeps running, keeps its handle and keeps its entry, whatever else happens. */
  lemma {:induction false} WatchedStays(s: State, actions: seq<Action>, s': State, key: Key)
    requires Inv(s) && Watched(s, key) && AloneRun(s, actions, s', key)
    ensures Watched(s', key) && s'.watchers[key] == s.watchers[key]
    decreases |actions|
  {
    if actions != [] {
      WatchedStep(s, actions[0], key);
      StepKeeps(s, actions[0]);
      WatchedStays(Next(s, actions[0]), actions[1..], s', key);
    }
  }
}
